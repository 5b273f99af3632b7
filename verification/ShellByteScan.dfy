// The scan as the code runs it, with flag offsets in bytes and subtractions that may panic: it never
// panics, and its offsets are the byte places of the character offsets.
module ShellByteScan {
  import opened Text
  import opened Utf8
  import opened ShellScan
  import opened ShellShape
  import opened ShellBytes

  datatype Outcome<+T> = Panicked | Returned(value: T)

  // `str::len`.
  function Size(s: string): nat {
    |EncodeAll(s)|
  }

  // ----- the scan; flags are byte offsets -----

  function ByteCopied(chars: string, i: nat, n: nat, plain: bool, sc: Scan): Scan
    requires i < |chars| && i + n <= |chars|
  {
    var flagged := if plain && FlagHere(chars, i, sc)
                   then sc.(flags := sc.flags + [Size(sc.current) + |Encode(chars[i])|], optionsEnded := EndsOptions(chars, i))
                   else sc;
    flagged.(current := sc.current + chars[i..i + n])
  }

  // The subtraction panics below zero.
  function ByteTaken(sc: Scan): Outcome<Option<Scan>> {
    var leading := Size(sc.current) - Size(TrimStart(sc.current));
    if leading < 0 || exists k :: 0 <= k < |sc.flags| && sc.flags[k] < leading then Panicked
    else
      var stage := Stage(Trim(sc.current), Shift(sc.flags, leading));
      Returned(if stage.text == "" then None
               else Some(sc.(stages := sc.stages + [stage], current := "", flags := [], optionsEnded := false)))
  }

  function ByteEnded(sc: Scan, sep: Sep): Outcome<Option<Scan>> {
    match ByteTaken(sc)
    case Panicked => Panicked
    case Returned(None) => Returned(None)
    case Returned(Some(took)) =>
      Returned(Some(took.(segments := took.segments + [Segment(took.stages, sep)], stages := [])))
  }

  function ByteFinished(sc: Scan): Outcome<Option<seq<Segment>>> {
    if Trim(sc.current) == "" && sc.stages == [] then
      Returned(if sc.segments == [] || IsChain(sc.segments[|sc.segments| - 1].sep) then None else Some(sc.segments))
    else
      match ByteEnded(sc, NoSep)
      case Panicked => Panicked
      case Returned(None) => Returned(None)
      case Returned(Some(ended)) => Returned(Some(ended.segments))
  }

  function Moved(r: Outcome<Option<Scan>>, i: nat): Outcome<Option<Pos>> {
    match r
    case Panicked => Panicked
    case Returned(None) => Returned(None)
    case Returned(Some(sc)) => Returned(Some(Pos(i, [], 0, sc)))
  }

  function ByteStep(chars: string, p: Pos): (r: Outcome<Option<Pos>>)
    requires p.i < |chars|
    ensures r.Returned? && r.value.Some? ==> p.i < r.value.value.i <= |chars|
  {
    match NextAct(chars, p.i, p.stack, p.groups)
    case Reject => Returned(None)
    case Copy(n, stack, groups, plain) => Returned(Some(Pos(p.i + n, stack, groups, ByteCopied(chars, p.i, n, plain, p.sc))))
    case Cut(sep, n) => Moved(ByteEnded(p.sc, sep), p.i + n)
    case Bar => Moved(ByteTaken(p.sc), p.i + 1)
  }

  function ByteScanFrom(chars: string, p: Pos): Outcome<Option<seq<Segment>>>
    requires p.i <= |chars|
    decreases |chars| - p.i
  {
    if p.i == |chars| then
      if p.stack != [] || p.groups > 0 then Returned(None) else ByteFinished(p.sc)
    else
      match ByteStep(chars, p)
      case Panicked => Panicked
      case Returned(None) => Returned(None)
      case Returned(Some(q)) => ByteScanFrom(chars, q)
  }

  // ----- the same scan -----

  predicate SameFlags(text: string, bytes: seq<nat>, flags: seq<nat>) {
    && |bytes| == |flags|
    && forall k :: 0 <= k < |flags| ==> flags[k] <= |text| && bytes[k] == Place(text, flags[k])
  }

  predicate SameStage(b: Stage, s: Stage) {
    b.text == s.text && SameFlags(s.text, b.flags, s.flags)
  }

  predicate SameStages(bs: seq<Stage>, ss: seq<Stage>) {
    |bs| == |ss| && forall k :: 0 <= k < |ss| ==> SameStage(bs[k], ss[k])
  }

  predicate SameSegment(b: Segment, s: Segment) {
    b.sep == s.sep && SameStages(b.stages, s.stages)
  }

  predicate SameSegments(bs: seq<Segment>, ss: seq<Segment>) {
    |bs| == |ss| && forall k :: 0 <= k < |ss| ==> SameSegment(bs[k], ss[k])
  }

  predicate SameScan(b: Scan, s: Scan) {
    && SameSegments(b.segments, s.segments) && SameStages(b.stages, s.stages)
    && b.current == s.current && SameFlags(s.current, b.flags, s.flags) && b.optionsEnded == s.optionsEnded
  }

  lemma {:induction false} SameFlagHere(chars: string, i: nat, b: Scan, s: Scan)
    requires i < |chars| && b.current == s.current && b.optionsEnded == s.optionsEnded
    ensures FlagHere(chars, i, b) <==> FlagHere(chars, i, s)
  {
  }

  lemma {:induction false} FlagsInFront(current: string, more: string, bytes: seq<nat>, flags: seq<nat>)
    requires SameFlags(current, bytes, flags)
    ensures SameFlags(current + more, bytes, flags)
  {
    hide Place;
    forall k | 0 <= k < |flags| ensures bytes[k] == Place(current + more, flags[k]) {
      PlaceInFront(current, more, flags[k]);
    }
  }

  lemma {:induction false} FlagPushed(current: string, more: string, bytes: seq<nat>, flags: seq<nat>)
    requires SameFlags(current, bytes, flags) && more != ""
    ensures SameFlags(current + more, bytes + [Size(current) + |Encode(more[0])|], flags + [|current| + 1])
  {
    hide Place, Encode, EncodeAll;
    FlagsInFront(current, more, bytes, flags);
    PushedPlace(current, more[0]);
    assert current + more == current + [more[0]] + more[1..];
    PlaceInFront(current + [more[0]], more[1..], |current| + 1);
  }

  lemma {:induction false} CopiedSame(chars: string, i: nat, n: nat, plain: bool, b: Scan, s: Scan)
    requires i < |chars| && 0 < n && i + n <= |chars| && SameScan(b, s)
    ensures SameScan(ByteCopied(chars, i, n, plain, b), Copied(chars, i, n, plain, s))
  {
    hide FlagHere, Encode, EncodeAll, SameSegments, SameStages, SameFlags, EndsOptions;
    SameFlagHere(chars, i, b, s);
    var more := chars[i..i + n];
    assert more[0] == chars[i];
    FlagsInFront(s.current, more, b.flags, s.flags);
    FlagPushed(s.current, more, b.flags, s.flags);
  }

  // What the scanner asks before it takes a stage.
  predicate Takeable(s: Scan) {
    forall k :: 0 <= k < |s.flags| ==> FlagGrowing(s.current, s.flags[k]) && s.flags[k] < |s.current|
  }

  lemma {:induction false} FlagsTaken(current: string, bytes: seq<nat>, flags: seq<nat>)
    requires SameFlags(current, bytes, flags)
    requires forall k :: 0 <= k < |flags| ==> FlagGrowing(current, flags[k]) && flags[k] < |current|
    ensures var lead, leading := LeadEnd(current, 0), Size(current) - Size(TrimStart(current));
            && 0 <= leading && (forall k :: 0 <= k < |flags| ==> lead <= flags[k] && leading <= bytes[k])
            && SameFlags(Trim(current), Shift(bytes, leading), Shift(flags, lead))
  {
    hide Place, EncodeAll, FlagGrowing, Trim, TrimStart;
    ShiftedPlaces(current, flags);
    assert bytes == Places(current, flags);
  }

  lemma {:induction false} StagesPush(bs: seq<Stage>, ss: seq<Stage>, b: Stage, s: Stage)
    requires SameStages(bs, ss) && SameStage(b, s)
    ensures SameStages(bs + [b], ss + [s])
  {
    hide SameStage;
  }

  lemma {:induction false} SegmentsPush(bs: seq<Segment>, ss: seq<Segment>, b: Segment, s: Segment)
    requires SameSegments(bs, ss) && SameSegment(b, s)
    ensures SameSegments(bs + [b], ss + [s])
  {
    hide SameSegment;
  }

  lemma {:induction false} NothingSame()
    ensures SameStages([], []) && SameFlags("", [], []) && SameSegments([], [])
  {
  }

  predicate SameTaken(b: Outcome<Option<Scan>>, s: Option<Scan>) {
    b.Returned? && (b.value.None? <==> s.None?) && (s.Some? ==> SameScan(b.value.value, s.value))
  }

  lemma {:induction false} TakenSame(b: Scan, s: Scan)
    requires SameScan(b, s) && TakeReady(s) && Takeable(s)
    ensures SameTaken(ByteTaken(b), StageTaken(s))
  {
    hide Trim, FlagGrowing, Size, TrimStart, SameSegments, SameStages, SameFlags, Shift;
    FlagsTaken(s.current, b.flags, s.flags);
    NothingSame();
    assert |b.flags| == |s.flags| by { SameLength(s.current, b.flags, s.flags); }
    var lead, leading := LeadEnd(s.current, 0), Size(s.current) - Size(TrimStart(s.current));
    StagesPush(b.stages, s.stages, Stage(Trim(s.current), Shift(b.flags, leading)), Stage(Trim(s.current), Shift(s.flags, lead)));
  }

  lemma {:induction false} SameLength(text: string, bytes: seq<nat>, flags: seq<nat>)
    requires SameFlags(text, bytes, flags)
    ensures |bytes| == |flags|
  {
  }

  lemma {:induction false} EndedSame(b: Scan, s: Scan, sep: Sep)
    requires SameScan(b, s) && TakeReady(s) && Takeable(s)
    ensures SameTaken(ByteEnded(b, sep), SegmentEnded(s, sep))
  {
    TakenSame(b, s);
    NothingSame();
    hide SameSegments, SameStages, SameFlags, StageTaken, ByteTaken, FlagGrowing;
    if StageTaken(s).Some? {
      var c, t := ByteTaken(b).value.value, StageTaken(s).value;
      SegmentsPush(c.segments, t.segments, Segment(c.stages, sep), Segment(t.stages, sep));
    }
  }

  predicate SameScanned(b: Outcome<Option<seq<Segment>>>, s: Option<seq<Segment>>) {
    b.Returned? && (b.value.None? <==> s.None?) && (s.Some? ==> SameSegments(b.value.value, s.value))
  }

  lemma {:induction false} FinishedSame(b: Scan, s: Scan)
    requires SameScan(b, s) && TakeReady(s) && Takeable(s)
    ensures SameScanned(ByteFinished(b), Finished(s))
  {
    EndedSame(b, s, NoSep);
    SameEnds(b, s);
    hide SameSegments, SameStages, SameFlags, ByteEnded, SegmentEnded, FlagGrowing, Trim;
  }

  lemma {:induction false} SameEnds(b: Scan, s: Scan)
    requires SameScan(b, s)
    ensures b.stages == [] <==> s.stages == []
    ensures b.segments == [] <==> s.segments == []
    ensures s.segments != [] ==> b.segments[|b.segments| - 1].sep == s.segments[|s.segments| - 1].sep
  {
    hide SameStage;
    if s.segments != [] {
      assert SameSegment(b.segments[|s.segments| - 1], s.segments[|s.segments| - 1]);
    }
  }

  predicate SamePos(b: Pos, s: Pos) {
    b.i == s.i && b.stack == s.stack && b.groups == s.groups && SameScan(b.sc, s.sc)
  }

  lemma {:induction false} StepSame(chars: string, b: Pos, s: Pos)
    requires Ok(chars, s) && s.i < |chars| && SamePos(b, s)
    ensures var r := ByteStep(chars, b);
            && r.Returned? && (r.value.None? <==> Step(chars, s).None?)
            && (Step(chars, s).Some? ==> SamePos(r.value.value, Step(chars, s).value))
  {
    hide NextAct, SameScan, ByteTaken, StageTaken, ByteEnded, SegmentEnded, ByteCopied, Copied, FlagsGrowing;
    ReadyFromGrowing(chars, s.i, s.stack, s.groups, s.sc);
    var a := NextAct(chars, s.i, s.stack, s.groups);
    if a.Copy? {
      CopiedSame(chars, s.i, a.n, a.plain, b.sc, s.sc);
    } else {
      CutsNoDash(chars, s.i, s.stack, s.groups);
      if a.Cut? || a.Bar? {
        ReadyTakeable(chars, s);
        TakenSame(b.sc, s.sc);
        if a.Cut? {
          EndedSame(b.sc, s.sc, a.sep);
        }
      }
    }
  }

  lemma {:induction false} ReadyTakeable(chars: string, p: Pos)
    requires Ok(chars, p) && (p.i < |chars| ==> chars[p.i] != '-')
    ensures Takeable(p.sc)
  {
    hide FlagGrowing;
    FlagsReady(chars, p);
  }

  lemma {:induction false} ScanFromSame(chars: string, b: Pos, s: Pos)
    requires Ok(chars, s) && SamePos(b, s)
    ensures SameScanned(ByteScanFrom(chars, b), ScanFrom(chars, s))
    decreases |chars| - s.i
  {
    hide SameScan, SameScanned, ByteStep, Step, ByteFinished, Finished, FlagsGrowing;
    if s.i == |chars| {
      ReadyFromGrowing(chars, s.i, s.stack, s.groups, s.sc);
      ReadyTakeable(chars, s);
      FinishedSame(b.sc, s.sc);
      NotScanned();
    } else {
      StepOk(chars, s);
      StepSame(chars, b, s);
      NotScanned();
      if Step(chars, s).Some? {
        ScanFromSame(chars, ByteStep(chars, b).value.value, Step(chars, s).value);
      }
    }
  }

  lemma {:induction false} NotScanned()
    ensures SameScanned(Returned(None), None)
  {
  }

  // The scan with byte offsets never panics, and its flags are the byte places of the others.
  lemma {:induction false} ByteScanSame(chars: string)
    ensures SameScanned(ByteScanFrom(chars, Pos(0, [], 0, START)), ScanSpec(chars))
  {
    hide ScanFrom, ByteScanFrom, SameScanned, FlagsGrowing;
    assert Ok(chars, Pos(0, [], 0, START)) by { StartOk(chars); }
    assert SameScan(START, START) by { NothingSame(); }
    ScanFromSame(chars, Pos(0, [], 0, START), Pos(0, [], 0, START));
  }
}
