// What a scanned command looks like: non-empty trimmed stages whose flag offsets are valid
// slice positions, and separators that only the last segment may lack.
module ShellShape {
  import opened Text
  import opened ShellScan

  predicate StageOk(stage: Stage) {
    && stage.text != "" && !IsSpace(stage.text[0]) && !IsSpace(stage.text[|stage.text| - 1])
    && PlainLine(stage.text)
    && FlagsOk(stage.text, stage.flags)
  }

  predicate StagesOk(stages: seq<Stage>) {
    forall k :: 0 <= k < |stages| ==> StageOk(stages[k])
  }

  predicate SegmentOk(seg: Segment) {
    seg.stages != [] && StagesOk(seg.stages) && seg.sep != Pipe
  }

  predicate SegmentsOk(segments: seq<Segment>) {
    && (forall k :: 0 <= k < |segments| ==> SegmentOk(segments[k]))
    && (forall k :: 0 <= k < |segments| - 1 ==> segments[k].sep != NoSep)
  }

  predicate Closed(segments: seq<Segment>) {
    SegmentsOk(segments) && (segments != [] ==> segments[|segments| - 1].sep != NoSep)
  }

  predicate Shaped(sc: Scan) {
    Closed(sc.segments) && StagesOk(sc.stages) && PlainLine(sc.current)
  }

  lemma {:induction false} PlainPieces(a: string, b: string)
    requires PlainLine(a) && PlainLine(b)
    ensures PlainLine(a + b)
  {
  }

  lemma {:induction false} TrimInside(s: string, k: nat)
    requires k < |s| && !IsSpace(s[k])
    ensures var lead := LeadEnd(s, 0);
            lead <= k && k - lead < |Trim(s)|
  {
    hide IsSpace;
    var t := TrimStart(s);
    assert t[k - LeadEnd(s, 0)] == s[k];
  }

  lemma {:induction false} TrimAt(s: string, k: nat)
    requires k < |Trim(s)|
    ensures LeadEnd(s, 0) + k < |s| && Trim(s)[k] == s[LeadEnd(s, 0) + k]
  {
    hide IsSpace;
  }

  lemma {:induction false} TrimEnds(s: string)
    ensures var t := Trim(s); t != "" ==> !IsSpace(t[0]) && !IsSpace(t[|t| - 1])
  {
    hide IsSpace;
    var u := TrimStart(s);
    assert u != "" ==> u[0] == s[LeadEnd(s, 0)];
  }

  // A growing offset whose dash is there is a valid offset into the trimmed text.
  lemma {:induction false} FlagInTrimmed(current: string, flag: nat)
    requires FlagGrowing(current, flag) && flag < |current|
    ensures var lead, text := LeadEnd(current, 0), Trim(current);
            && lead + 2 <= flag && flag - lead < |text|
            && text[flag - lead] == '-' && IsGap(text[flag - lead - 1])
  {
    assert !IsSpace('-');
    hide IsSpace, Trim;
    TrimInside(current, flag);
    TrimAt(current, flag - LeadEnd(current, 0));
    TrimAt(current, flag - LeadEnd(current, 0) - 1);
  }

  lemma {:induction false} TakenOk(sc: Scan)
    requires TakeReady(sc) && Shaped(sc) && StageTaken(sc).Some?
    requires forall k :: 0 <= k < |sc.flags| ==> FlagGrowing(sc.current, sc.flags[k]) && sc.flags[k] < |sc.current|
    requires forall j, k :: 0 <= j < k < |sc.flags| ==> sc.flags[j] < sc.flags[k]
    ensures Shaped(StageTaken(sc).value) && StageTaken(sc).value.stages != []
    ensures StageTaken(sc).value.segments == sc.segments
  {
    hide IsSpace, Trim, FlagGrowing, Closed;
    var lead, text := LeadEnd(sc.current, 0), Trim(sc.current);
    var flags := Shift(sc.flags, lead);
    forall k | 0 <= k < |flags|
      ensures 2 <= flags[k] < |text| && text[flags[k]] == '-' && IsGap(text[flags[k] - 1])
    {
      FlagInTrimmed(sc.current, sc.flags[k]);
    }
    TrimEnds(sc.current);
    forall k | 0 <= k < |text| ensures text[k] != '\n' && text[k] != '\r' {
      TrimAt(sc.current, k);
    }
    assert StageOk(Stage(text, flags));
  }

  lemma {:induction false} EndedOk(sc: Scan, sep: Sep)
    requires TakeReady(sc) && Shaped(sc) && SegmentEnded(sc, sep).Some? && sep != Pipe
    requires forall k :: 0 <= k < |sc.flags| ==> FlagGrowing(sc.current, sc.flags[k]) && sc.flags[k] < |sc.current|
    requires forall j, k :: 0 <= j < k < |sc.flags| ==> sc.flags[j] < sc.flags[k]
    ensures var ended := SegmentEnded(sc, sep).value;
            && SegmentsOk(ended.segments) && ended.segments != []
            && (sep != NoSep ==> Shaped(ended))
  {
    hide IsSpace, Trim, FlagGrowing, StageTaken, StagesOk;
    TakenOk(sc);
    var took := StageTaken(sc).value;
    assert SegmentOk(Segment(took.stages, sep));
    assert StagesOk([]) by { NoStagesOk(); }
    if sep != NoSep {
      var segments := SegmentEnded(sc, sep).value.segments;
      assert segments == sc.segments + [Segment(took.stages, sep)];
    }
    assert PlainLine("");
  }

  lemma {:induction false} NoStagesOk()
    ensures StagesOk([])
  {
  }

  // No offset still waits for its dash where a segment or stage ends.
  lemma {:induction false} FlagsReady(chars: string, p: Pos)
    requires Ok(chars, p)
    requires p.i < |chars| ==> chars[p.i] != '-'
    ensures forall k :: 0 <= k < |p.sc.flags| ==>
              FlagGrowing(p.sc.current, p.sc.flags[k]) && p.sc.flags[k] < |p.sc.current|
    ensures forall j, k :: 0 <= j < k < |p.sc.flags| ==> p.sc.flags[j] < p.sc.flags[k]
  {
    FlagBound(p.sc.current, p.sc.flags);
  }

  lemma {:induction false} StepShaped(chars: string, p: Pos)
    requires PlainLine(chars) && Ok(chars, p) && p.i < |chars| && Shaped(p.sc) && Step(chars, p).Some?
    ensures Shaped(Step(chars, p).value.sc)
  {
    hide Shaped, IsSpace, NextAct, SegmentEnded, StageTaken, Copied, FlagsGrowing;
    ReadyFromGrowing(chars, p.i, p.stack, p.groups, p.sc);
    var a := NextAct(chars, p.i, p.stack, p.groups);
    if a.Copy? {
      CopiedShaped(chars, p.i, a.n, a.plain, p.sc);
    } else {
      CutsNoDash(chars, p.i, p.stack, p.groups);
      FlagsReady(chars, p);
      if a.Cut? {
        EndedOk(p.sc, a.sep);
      } else {
        TakenOk(p.sc);
      }
    }
  }

  lemma {:induction false} CutsNoDash(chars: string, i: nat, stack: seq<Ctx>, groups: nat)
    requires i < |chars|
    ensures var a := NextAct(chars, i, stack, groups);
            && (a.Cut? || a.Bar? ==> chars[i] != '-')
            && (a.Cut? ==> a.sep != Pipe && a.sep != NoSep)
  {
    hide CloseQuote, IsSpace;
  }

  lemma {:induction false} CopiedShaped(chars: string, i: nat, n: nat, plain: bool, sc: Scan)
    requires i < |chars| && i + n <= |chars| && PlainLine(chars) && Shaped(sc)
    ensures Shaped(Copied(chars, i, n, plain, sc))
  {
    hide FlagHere, EndsOptions, Closed, StagesOk;
    PlainPieces(sc.current, chars[i..i + n]);
  }

  lemma {:induction false} ScanFromShaped(chars: string, p: Pos)
    requires PlainLine(chars) && Ok(chars, p) && Shaped(p.sc) && ScanFrom(chars, p).Some?
    ensures SegmentsOk(ScanFrom(chars, p).value) && ScanFrom(chars, p).value != []
    decreases |chars| - p.i
  {
    hide StagesOk, IsSpace, Step, FlagsGrowing, SegmentEnded;
    if p.i == |chars| {
      ReadyFromGrowing(chars, p.i, p.stack, p.groups, p.sc);
      FlagsReady(chars, p);
      if !(Trim(p.sc.current) == "" && p.sc.stages == []) {
        EndedOk(p.sc, NoSep);
      }
    } else {
      StepOk(chars, p);
      StepShaped(chars, p);
      ScanFromShaped(chars, Step(chars, p).value);
    }
  }

  // Every stage of a scanned command is trimmed and non-empty with valid flag offsets.
  lemma {:induction false} ScanShaped(chars: string)
    requires PlainLine(chars) && ScanSpec(chars).Some?
    ensures SegmentsOk(ScanSpec(chars).value) && ScanSpec(chars).value != []
  {
    hide IsSpace, ScanFrom, FlagsGrowing;
    StartOk(chars);
    ScanFromShaped(chars, Pos(0, [], 0, START));
  }
}
