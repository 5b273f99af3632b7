// A limit of the scanner: a stage is trimmed without regard to escapes, so a blank that a backslash
// escapes at the end of a stage is left out of it, and the stage ends in a lone backslash.
module ShellEscapes {
  import opened Text
  import opened ShellScan
  import opened ShellInk
  import opened ShellShape
  import opened ShellReading
  import opened ShellPieces

  // The last backslash of `s` escapes what comes next.
  predicate LoneEnd(s: string) {
    BackslashRun(s, |s|) % 2 == 1
  }

  // The blanks behind `s` start with one that a backslash escapes.
  predicate EndsInEscapedBlank(s: string) {
    TailStart(s, |s|) < |s| && LoneEnd(s[..TailStart(s, |s|)])
  }

  lemma {:induction false} RunInside(a: string, b: string, k: nat)
    requires k <= |b| && (a != "" ==> a[|a| - 1] != '\\')
    ensures BackslashRun(a + b, |a| + k) == BackslashRun(b, k)
  {
    if k > 0 {
      RunInside(a, b, k - 1);
    }
  }

  lemma {:induction false} RunOfFront(s: string, t: nat, k: nat)
    requires k <= t <= |s|
    ensures BackslashRun(s[..t], k) == BackslashRun(s, k)
  {
    if k > 0 {
      RunOfFront(s, t, k - 1);
    }
  }

  lemma {:induction false} TrimBounds(s: string)
    ensures var lead, end := LeadEnd(s, 0), TailStart(s, |s|);
            && (lead > 0 ==> s[lead - 1] != '\\')
            && (Trim(s) == "" ==> lead == |s|)
            && (Trim(s) != "" ==> lead <= end && s[..end] == s[..lead] + Trim(s))
  {
    TrimBlank(s);
    BlankLead(s);
    hide IsSpace, LeadEnd, TailStart, Trim, TrimStart, TrimEnd;
    var lead := LeadEnd(s, 0);
    if lead < |s| {
      TailOfRest(s, lead, |s|);
      TrimIsSlice(s);
      Glue(s, lead, TailStart(s[lead..], |s| - lead));
    }
  }

  lemma {:induction false} BlankLead(s: string)
    ensures var lead := LeadEnd(s, 0); lead > 0 ==> s[lead - 1] != '\\'
    ensures var lead := LeadEnd(s, 0); lead < |s| ==> !IsSpace(s[lead])
  {
    assert !IsSpace('\\');
    hide IsSpace, LeadEnd;
  }

  lemma {:induction false} TrimIsSlice(s: string)
    ensures var rest := s[LeadEnd(s, 0)..]; Trim(s) == rest[..TailStart(rest, |rest|)]
  {
    hide IsSpace, LeadEnd, TailStart;
  }

  lemma {:induction false} Glue(s: string, a: nat, b: nat)
    requires a + b <= |s|
    ensures s[..a + b] == s[..a] + s[a..][..b]
  {
  }

  lemma {:induction false} TailOfRest(s: string, lead: nat, i: nat)
    requires lead < i <= |s| && !IsSpace(s[lead])
    ensures TailStart(s, i) == lead + TailStart(s[lead..], i - lead)
  {
    hide IsSpace;
    if IsSpace(s[i - 1]) {
      TailOfRest(s, lead, i - 1);
    }
  }

  // Trimming leaves a lone backslash behind exactly when it takes the escaped blank away.
  lemma {:induction false} EscapeLostIff(current: string)
    requires !LoneEnd(current) && Trim(current) != ""
    ensures LoneEnd(Trim(current)) <==> EndsInEscapedBlank(current)
  {
    hide IsSpace, Trim;
    var lead, end := LeadEnd(current, 0), TailStart(current, |current|);
    TrimBounds(current);
    RunInside(current[..lead], Trim(current), |Trim(current)|);
    assert current[..|current|] == current;
  }

  lemma {:induction false} RunGrows(a: string, b: string)
    requires b != "" && b[|b| - 1] != '\\'
    ensures !LoneEnd(a + b)
  {
    assert (a + b)[|a + b| - 1] == b[|b| - 1];
  }

  lemma {:induction false} PairGrows(a: string, c: char)
    requires !LoneEnd(a)
    ensures !LoneEnd(a + ['\\', c])
  {
    var s := a + ['\\', c];
    if c == '\\' {
      RunOfFront(s, |a|, |a|);
      assert s[..|a|] == a;
      assert BackslashRun(s, |s|) == 1 + BackslashRun(s, |a| + 1) == 2 + BackslashRun(s, |a|);
    }
  }

  lemma {:induction false} CopiesPairs(chars: string, i: nat, stack: seq<Ctx>, groups: nat)
    requires i < |chars| && NextAct(chars, i, stack, groups).Copy?
    ensures var n := NextAct(chars, i, stack, groups).n;
            && i + n <= |chars|
            && (chars[i] == '\\' ==> n == 2)
            && (chars[i] != '\\' ==> n > 0 && chars[i + n - 1] != '\\')
  {
    hide IsSpace, CloseQuote;
  }

  // The stage being read never ends in a backslash that still waits for its character.
  lemma {:induction false} CurrentIsWhole(chars: string, p: Pos)
    requires Ok(chars, p) && p.i < |chars| && Step(chars, p).Some? && !LoneEnd(p.sc.current)
    ensures !LoneEnd(Step(chars, p).value.sc.current)
  {
    hide NextAct, IsSpace, FlagsGrowing, FlagHere, Trim, LoneEnd;
    ReadyFromGrowing(chars, p.i, p.stack, p.groups, p.sc);
    var a := NextAct(chars, p.i, p.stack, p.groups);
    if a.Copy? {
      CopiesPairs(chars, p.i, p.stack, p.groups);
      var more := chars[p.i..p.i + a.n];
      if chars[p.i] == '\\' {
        assert more == ['\\', chars[p.i + 1]];
        PairGrows(p.sc.current, chars[p.i + 1]);
      } else {
        assert more[|more| - 1] == chars[p.i + a.n - 1];
        RunGrows(p.sc.current, more);
      }
    } else {
      NothingIsWhole();
    }
  }

  lemma {:induction false} NothingIsWhole()
    ensures !LoneEnd("")
  {
  }

  // ----- a lone backslash, read from the front -----

  // Where no quote is open, a text ends in a lone backslash exactly when its reader waits for the
  // escaped character.
  lemma {:induction false} LoneIffWaiting(s: string)
    ensures var r := Read(OPEN, s);
            && (r.mode.Escaped? ==> LoneEnd(s))
            && (r.mode.Bare? || r.mode.Dollar? ==> !LoneEnd(s))
    decreases |s|
  {
    if s != "" {
      var front, c := s[..|s| - 1], s[|s| - 1];
      LoneIffWaiting(front);
      assert s == front + [c];
      ReadConcat(OPEN, front, [c]);
      ReadOne(Read(OPEN, front), c);
      RunOfFront(s, |s| - 1, |s| - 1);
      LoneStep(front, c);
      hide Read, LoneEnd;
    }
  }

  lemma {:induction false} LoneStep(front: string, c: char)
    ensures LoneEnd(front + [c]) <==> c == '\\' && !LoneEnd(front)
  {
    var s := front + [c];
    RunOfFront(s, |front|, |front|);
    assert s[..|front|] == front;
  }

  // ----- every stage of a command -----

  // A text that leaves every quote and nested command it opens.
  predicate TextTidy(text: string) {
    var r := Read(OPEN, text);
    r.stack == [] && (r.mode.Bare? || r.mode.Dollar? || r.mode.Escaped?)
  }

  // The blank before each flag stands outside every quote and nested command, and is not escaped.
  predicate FlagsLevel(text: string, flags: seq<nat>) {
    forall k :: 0 <= k < |flags| ==> 0 < flags[k] <= |text| && Level(Read(OPEN, text[..flags[k] - 1]))
  }

  predicate StageTidy(stage: Stage) {
    TextTidy(stage.text) && FlagsLevel(stage.text, stage.flags)
  }

  predicate StagesTidy(stages: seq<Stage>) {
    forall k :: 0 <= k < |stages| ==> StageTidy(stages[k])
  }

  predicate SegmentsTidy(segments: seq<Segment>) {
    forall k :: 0 <= k < |segments| ==> StagesTidy(segments[k].stages)
  }

  // Every segment ends with a separator.
  predicate Separated(segments: seq<Segment>) {
    forall k :: 0 <= k < |segments| ==> segments[k].sep != NoSep
  }

  // Behind a stage that ends in a lone backslash there is a blank.
  predicate GapsHold(flat: seq<Ended>, gaps: seq<Gap>) {
    && |gaps| == |flat|
    && forall k :: 0 <= k < |flat| && LoneEnd(flat[k].0) ==> gaps[k].1 != ""
  }

  // What the scan keeps between two rounds.
  predicate Reads(chars: string, p: Pos) {
    && Between(chars, p.i, p.stack)
    && Read(OPEN, p.sc.current) == Reading(p.stack, ModeAt(chars, p.i))
    && !LoneEnd(p.sc.current) && FlagsLevel(p.sc.current, p.sc.flags)
  }

  lemma {:induction false} TrimReads(current: string)
    requires Level(Read(OPEN, current))
    ensures TextTidy(Trim(current))
    ensures forall k :: 0 <= k <= |Trim(current)| ==>
              LeadEnd(current, 0) + k <= |current| &&
              Read(OPEN, current[..LeadEnd(current, 0) + k]) == Read(OPEN, Trim(current)[..k])
  {
    hide Read, Escapes, Trim, AllSpace, IsSpace, AllPlain;
    var gap, text := GapOf(current), Trim(current);
    TrimParts(current);
    BlankIsPlain(gap.0);
    BlankIsPlain(gap.1);
    ReadPlain(OPEN, gap.0);
    ReadConcat(OPEN, gap.0, text);
    ReadConcat(OPEN, gap.0 + text, gap.1);
    BlankKeepsInside(Read(OPEN, text), gap.1);
    forall k | 0 <= k <= |text|
      ensures LeadEnd(current, 0) + k <= |current|
      ensures Read(OPEN, current[..LeadEnd(current, 0) + k]) == Read(OPEN, text[..k])
    {
      assert current[..|gap.0| + k] == gap.0 + text[..k];
      ReadConcat(OPEN, gap.0, text[..k]);
    }
  }

  lemma {:induction false} TakenTidy(sc: Scan)
    requires TakeReady(sc) && StageTaken(sc).Some?
    requires Level(Read(OPEN, sc.current)) && !LoneEnd(sc.current) && FlagsLevel(sc.current, sc.flags)
    requires forall k :: 0 <= k < |sc.flags| ==> FlagGrowing(sc.current, sc.flags[k]) && sc.flags[k] < |sc.current|
    ensures var stage := StageTaken(sc).value.stages[|sc.stages|];
            && stage.text == Trim(sc.current) && StageTidy(stage)
            && (LoneEnd(stage.text) ==> GapOf(sc.current).1 != "")
  {
    hide Read, Trim, LoneEnd, FlagGrowing, IsSpace, TextTidy, Level, AllSpace;
    var lead := LeadEnd(sc.current, 0);
    var stage := StageTaken(sc).value.stages[|sc.stages|];
    TrimReads(sc.current);
    EscapeLostIff(sc.current);
    EscapedGap(sc.current);
    forall k | 0 <= k < |stage.flags|
      ensures 0 < stage.flags[k] <= |stage.text| && Level(Read(OPEN, stage.text[..stage.flags[k] - 1]))
    {
      FlagInTrimmed(sc.current, sc.flags[k]);
      assert lead + (stage.flags[k] - 1) == sc.flags[k] - 1;
    }
  }

  lemma {:induction false} EscapedGap(current: string)
    requires Trim(current) != ""
    ensures EndsInEscapedBlank(current) ==> GapOf(current).1 != ""
  {
    hide IsSpace, Trim, LoneEnd, AllSpace, GapOf;
    TrimBounds(current);
    TrimParts(current);
    GapLead(current);
    var end := TailStart(current, |current|);
    assert |current[..end]| == end;
    assert |current| == |GapOf(current).0| + |Trim(current)| + |GapOf(current).1|;
  }

  lemma {:induction false} GapLead(current: string)
    ensures |GapOf(current).0| == LeadEnd(current, 0)
  {
    hide IsSpace, LeadEnd, TailStart;
  }

  lemma {:induction false} PlainOutside(chars: string, i: nat, stack: seq<Ctx>, groups: nat)
    requires i < |chars|
    ensures NextAct(chars, i, stack, groups).Copy? && NextAct(chars, i, stack, groups).plain ==> stack == []
  {
    hide CloseQuote, IsSpace;
  }

  lemma {:induction false} CopyTidy(chars: string, p: Pos)
    requires Ok(chars, p) && p.i < |chars| && Reads(chars, p) && NextAct(chars, p.i, p.stack, p.groups).Copy?
    ensures var a := NextAct(chars, p.i, p.stack, p.groups);
            && p.i + a.n <= |chars|
            && Reads(chars, Pos(p.i + a.n, a.stack, a.groups, Copied(chars, p.i, a.n, a.plain, p.sc)))
  {
    hide NextAct, Read, LoneEnd, IsSpace, FlagHere, FlagsGrowing, Between, Level, ModeAt;
    var a := NextAct(chars, p.i, p.stack, p.groups);
    var more := chars[p.i..p.i + a.n];
    ShellReading.CopyReads(chars, p.i, p.stack, p.groups);
    ReadConcat(OPEN, p.sc.current, more);
    CurrentIsWhole(chars, p);
    CopyStep(chars, p);
    PlainOutside(chars, p.i, p.stack, p.groups);
    var sc := Copied(chars, p.i, a.n, a.plain, p.sc);
    forall k | 0 <= k < |sc.flags|
      ensures 0 < sc.flags[k] <= |sc.current| && Level(Read(OPEN, sc.current[..sc.flags[k] - 1]))
    {
      if k < |p.sc.flags| {
        assert sc.current[..sc.flags[k] - 1] == p.sc.current[..p.sc.flags[k] - 1];
      } else {
        assert sc.current[..|p.sc.current|] == p.sc.current;
        LevelOutside(chars, p);
      }
    }
  }

  lemma {:induction false} LevelOutside(chars: string, p: Pos)
    requires p.i <= |chars| && p.stack == [] && Read(OPEN, p.sc.current) == Reading(p.stack, ModeAt(chars, p.i))
    ensures Level(Read(OPEN, p.sc.current))
  {
    hide Read;
  }

  lemma {:induction false} CopyStep(chars: string, p: Pos)
    requires Ok(chars, p) && p.i < |chars| && NextAct(chars, p.i, p.stack, p.groups).Copy?
    ensures var a := NextAct(chars, p.i, p.stack, p.groups);
            Step(chars, p) == Some(Pos(p.i + a.n, a.stack, a.groups, Copied(chars, p.i, a.n, a.plain, p.sc)))
  {
    hide NextAct, FlagsGrowing, Copied;
    ReadyFromGrowing(chars, p.i, p.stack, p.groups, p.sc);
  }

  // Behind a separator the next stage starts afresh.
  lemma {:induction false} CutTidy(chars: string, i: nat, n: nat, sc: Scan)
    requires 0 < n && i + n <= |chars| && (chars[i + n - 1] == ';' || chars[i + n - 1] == '&' || chars[i + n - 1] == '|')
    requires sc.current == "" && sc.flags == []
    ensures Reads(chars, Pos(i + n, [], 0, sc))
  {
    NothingIsWhole();
    ReadNone(OPEN);
  }

  lemma {:induction false} CutEnds(chars: string, i: nat)
    requires i < |chars|
    ensures var a := TopLevel(chars[i], At(chars, i + 1), Before(chars, i));
            && (a.Cut? ==> 0 < a.n && i + a.n <= |chars| && (var c := chars[i + a.n - 1]; c == ';' || c == '&'  || c == '|'))
            && (a.Bar? ==> chars[i] == '|')
            && (a.Cut? || a.Bar? ==> chars[i] != '-')
  {
  }

  // Everything the scan keeps of the stages already taken.
  predicate Kept(sc: Scan, gaps: seq<Gap>) {
    StagesTidy(sc.stages) && SegmentsTidy(sc.segments) && GapsHold(FlatScan(sc), gaps)
  }

  lemma {:induction false} GapsPush(flat: seq<Ended>, gaps: seq<Gap>, ended: Ended, gap: Gap)
    requires GapsHold(flat, gaps) && (LoneEnd(ended.0) ==> gap.1 != "")
    ensures GapsHold(flat + [ended], gaps + [gap])
  {
    hide LoneEnd;
  }

  lemma {:induction false} TakenKept(sc: Scan, gaps: seq<Gap>)
    requires TakeReady(sc) && StageTaken(sc).Some? && Kept(sc, gaps)
    requires Level(Read(OPEN, sc.current)) && !LoneEnd(sc.current) && FlagsLevel(sc.current, sc.flags)
    requires forall k :: 0 <= k < |sc.flags| ==> FlagGrowing(sc.current, sc.flags[k]) && sc.flags[k] < |sc.current|
    ensures Kept(StageTaken(sc).value, gaps + [GapOf(sc.current)])
  {
    TakenTidy(sc);
    hide Read, LoneEnd, Trim, StageTidy, Flat, GapOf, FlagsLevel, GapsHold, Level, FlagGrowing;
    var took := StageTaken(sc).value;
    var ended := (Trim(sc.current), Pipe);
    assert FlatScan(took) == FlatScan(sc) + [ended];
    GapsPush(FlatScan(sc), gaps, ended, GapOf(sc.current));
  }

  lemma {:induction false} EndedKept(sc: Scan, sep: Sep, gaps: seq<Gap>)
    requires TakeReady(sc) && SegmentEnded(sc, sep).Some? && Kept(sc, gaps)
    requires Level(Read(OPEN, sc.current)) && !LoneEnd(sc.current) && FlagsLevel(sc.current, sc.flags)
    requires forall k :: 0 <= k < |sc.flags| ==> FlagGrowing(sc.current, sc.flags[k]) && sc.flags[k] < |sc.current|
    ensures Kept(SegmentEnded(sc, sep).value, gaps + [GapOf(sc.current)])
  {
    TakenTidy(sc);
    hide Read, LoneEnd, Trim, StageTidy, Flat, GapOf, FlagsLevel, GapsHold, Level, FlagGrowing;
    var done := SegmentEnded(sc, sep).value;
    var stages := StageTaken(sc).value.stages;
    var ended := (Trim(sc.current), sep);
    FlatPush(sc.segments, stages, sep);
    assert stages[..|stages| - 1] == sc.stages;
    assert FlatScan(done) == FlatScan(sc) + [ended];
    GapsPush(FlatScan(sc), gaps, ended, GapOf(sc.current));
  }

  lemma {:induction false} StepKept(chars: string, p: Pos, gaps: seq<Gap>)
    requires Ok(chars, p) && p.i < |chars| && Step(chars, p).Some? && Reads(chars, p) && Kept(p.sc, gaps)
    ensures Reads(chars, Step(chars, p).value) && Kept(Step(chars, p).value.sc, StepGaps(chars, p, gaps))
    ensures Separated(p.sc.segments) ==> Separated(Step(chars, p).value.sc.segments)
  {
    hide Reads, Kept, NextAct, TopLevel, FlagsGrowing, Copied, SegmentEnded, StageTaken, GapOf, Separated;
    CutsNoDash(chars, p.i, p.stack, p.groups);
    ReadyFromGrowing(chars, p.i, p.stack, p.groups, p.sc);
    var a := NextAct(chars, p.i, p.stack, p.groups);
    if a.Copy? {
      CopyTidy(chars, p);
      CopyStep(chars, p);
      CopiedKept(chars, p, gaps);
    } else {
      TopLevelOnly(chars, p.i, p.stack, p.groups);
      CutEnds(chars, p.i);
      FlagsReady(chars, p);
      ReadyToTake(chars, p);
      if a.Cut? {
        EndedKept(p.sc, a.sep, gaps);
        Emptied(p.sc, a.sep);
        CutTidy(chars, p.i, a.n, SegmentEnded(p.sc, a.sep).value);
      } else {
        TakenKept(p.sc, gaps);
        Emptied(p.sc, NoSep);
        CutTidy(chars, p.i, 1, StageTaken(p.sc).value);
      }
    }
  }

  lemma {:induction false} ReadyToTake(chars: string, p: Pos)
    requires Reads(chars, p) && p.stack == []
    ensures Level(Read(OPEN, p.sc.current)) && !LoneEnd(p.sc.current) && FlagsLevel(p.sc.current, p.sc.flags)
  {
    hide Read, LoneEnd, FlagsLevel;
  }

  lemma {:induction false} Emptied(sc: Scan, sep: Sep)
    requires TakeReady(sc)
    ensures StageTaken(sc).Some? ==> StageTaken(sc).value.current == "" && StageTaken(sc).value.flags == []
    ensures SegmentEnded(sc, sep).Some? ==> SegmentEnded(sc, sep).value.current == "" && SegmentEnded(sc, sep).value.flags == []
    ensures StageTaken(sc).Some? ==> StageTaken(sc).value.segments == sc.segments
    ensures SegmentEnded(sc, sep).Some? ==>
              exists stages :: SegmentEnded(sc, sep).value.segments == sc.segments + [Segment(stages, sep)]
    ensures SegmentEnded(sc, sep).Some? && sep != NoSep && Separated(sc.segments) ==>
              Separated(SegmentEnded(sc, sep).value.segments)
  {
    hide Trim;
  }

  lemma {:induction false} CopiedKept(chars: string, p: Pos, gaps: seq<Gap>)
    requires p.i < |chars| && NextAct(chars, p.i, p.stack, p.groups).Copy? && Kept(p.sc, gaps)
    requires p.i + NextAct(chars, p.i, p.stack, p.groups).n <= |chars|
    ensures var a := NextAct(chars, p.i, p.stack, p.groups);
            Kept(Copied(chars, p.i, a.n, a.plain, p.sc), gaps) &&
            Copied(chars, p.i, a.n, a.plain, p.sc).segments == p.sc.segments
  {
    hide StagesTidy, SegmentsTidy, GapsHold, FlagHere, NextAct, Flat;
  }

  lemma {:induction false} ScanFromKept(chars: string, p: Pos, gaps: seq<Gap>)
    requires Ok(chars, p) && ScanFrom(chars, p).Some? && Reads(chars, p) && Kept(p.sc, gaps)
    requires Separated(p.sc.segments)
    ensures SegmentsTidy(ScanFrom(chars, p).value)
    ensures GapsHold(Flat(ScanFrom(chars, p).value), GapsFrom(chars, p, gaps))
    ensures ScanFrom(chars, p).value != [] && Separated(ScanFrom(chars, p).value[..|ScanFrom(chars, p).value| - 1])
    decreases |chars| - p.i
  {
    hide Separated, Reads, Kept, Step, FlagsGrowing, Finished, SegmentsTidy, GapsHold, Flat, GapOf, NothingLeft, StepGaps;
    if p.i == |chars| {
      ReadyFromGrowing(chars, p.i, p.stack, p.groups, p.sc);
      FinishKept(chars, p, gaps);
    } else {
      StepOk(chars, p);
      StepKept(chars, p, gaps);
      ScanFromKept(chars, Step(chars, p).value, StepGaps(chars, p, gaps));
    }
  }

  lemma {:induction false} FinishKept(chars: string, p: Pos, gaps: seq<Gap>)
    requires Ok(chars, p) && p.i == |chars| && p.stack == [] && TakeReady(p.sc)
    requires Reads(chars, p) && Kept(p.sc, gaps) && Finished(p.sc).Some?
    ensures SegmentsTidy(Finished(p.sc).value)
    ensures GapsHold(Flat(Finished(p.sc).value), if NothingLeft(p.sc) then gaps else gaps + [GapOf(p.sc.current)])
    ensures Finished(p.sc).value != []
    ensures Separated(p.sc.segments) ==> Separated(Finished(p.sc).value[..|Finished(p.sc).value| - 1])
  {
    hide Reads, Trim, SegmentEnded, GapOf, Flat, GapsHold, SegmentsTidy, FlagsGrowing, StagesTidy;
    if NothingLeft(p.sc) {
      assert FlatScan(p.sc) == Flat(p.sc.segments);
    } else {
      FlagsReady(chars, p);
      ReadyToTake(chars, p);
      EndedKept(p.sc, NoSep, gaps);
      EndedStages(p.sc);
      Emptied(p.sc, NoSep);
      var stages :| SegmentEnded(p.sc, NoSep).value.segments == p.sc.segments + [Segment(stages, NoSep)];
      assert (p.sc.segments + [Segment(stages, NoSep)])[..|p.sc.segments|] == p.sc.segments;
      assert FlatScan(SegmentEnded(p.sc, NoSep).value) == Flat(SegmentEnded(p.sc, NoSep).value.segments);
    }
  }

  // Every stage of a command leaves the quotes it opens; behind one that ends in a lone backslash
  // there is a blank.
  lemma {:induction false} ScanKept(chars: string)
    requires ScanSpec(chars).Some?
    ensures SegmentsTidy(ScanSpec(chars).value) && GapsHold(Flat(ScanSpec(chars).value), ScanGaps(chars))
    ensures ScanSpec(chars).value != [] && Separated(ScanSpec(chars).value[..|ScanSpec(chars).value| - 1])
  {
    hide ScanFrom, FlagsGrowing, Flat, GapsFrom, SegmentsTidy, GapsHold, Reads, Kept;
    assert Ok(chars, Pos(0, [], 0, START)) by { StartOk(chars); }
    NothingKept(chars);
    ScanFromKept(chars, Pos(0, [], 0, START), []);
  }

  lemma {:induction false} NothingKept(chars: string)
    ensures Reads(chars, Pos(0, [], 0, START)) && Kept(START, [])
  {
    NothingIsWhole();
    ReadNone(OPEN);
    assert FlatScan(START) == [];
  }
}
