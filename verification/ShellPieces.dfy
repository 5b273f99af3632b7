// The command, character for character: its stages in order, blanks around them, and the
// separators between them.
module ShellPieces {
  import opened Text
  import opened ShellScan
  import opened ShellInk

  function Mark(sep: Sep): string {
    match sep
    case NoSep => ""
    case Semi => ";"
    case And => "&&"
    case Or => "||"
    case Background => "&"
    case Pipe => "|"
  }

  // A stage's text and what ends it.
  type Ended = (string, Sep)

  function Open(stages: seq<Stage>): (flat: seq<Ended>)
    ensures |flat| == |stages|
  {
    seq(|stages|, k requires 0 <= k < |stages| => (stages[k].text, Pipe))
  }

  function Flat(segments: seq<Segment>): seq<Ended> {
    if segments == [] then [] else
      var last := segments[|segments| - 1];
      Flat(segments[..|segments| - 1]) +
      if last.stages == [] then [] else
        Open(last.stages[..|last.stages| - 1]) + [(last.stages[|last.stages| - 1].text, last.sep)]
  }

  // Blanks before and behind each stage.
  type Gap = (string, string)

  predicate Blank(gaps: seq<Gap>) {
    forall k :: 0 <= k < |gaps| ==> AllSpace(gaps[k].0) && AllSpace(gaps[k].1)
  }

  function Rebuilt(flat: seq<Ended>, gaps: seq<Gap>): string
    requires |gaps| == |flat|
  {
    if flat == [] then "" else
      var n := |flat| - 1;
      Rebuilt(flat[..n], gaps[..n]) + (gaps[n].0 + flat[n].0 + gaps[n].1 + Mark(flat[n].1))
  }

  lemma {:induction false} RebuiltPush(flat: seq<Ended>, gaps: seq<Gap>, ended: Ended, gap: Gap)
    requires |gaps| == |flat|
    ensures Rebuilt(flat + [ended], gaps + [gap]) ==
            Rebuilt(flat, gaps) + (gap.0 + ended.0 + gap.1 + Mark(ended.1))
  {
    hide Mark;
    assert (flat + [ended])[..|flat|] == flat && (gaps + [gap])[..|flat|] == gaps;
  }

  // The blanks that trimming takes away.
  function GapOf(current: string): Gap {
    (current[..LeadEnd(current, 0)], TrimStart(current)[TailStart(TrimStart(current), |TrimStart(current)|)..])
  }

  lemma {:induction false} TrimParts(s: string)
    ensures AllSpace(GapOf(s).0) && AllSpace(GapOf(s).1) && s == GapOf(s).0 + Trim(s) + GapOf(s).1
  {
    hide IsSpace, LeadEnd, TailStart;
    var rest := TrimStart(s);
    assert rest == Trim(s) + GapOf(s).1;
  }

  lemma {:induction false} FlatPush(segments: seq<Segment>, stages: seq<Stage>, sep: Sep)
    requires stages != []
    ensures Flat(segments + [Segment(stages, sep)]) ==
            Flat(segments) + Open(stages[..|stages| - 1]) + [(stages[|stages| - 1].text, sep)]
  {
    hide Open;
    var last := (stages[|stages| - 1].text, sep);
    assert (segments + [Segment(stages, sep)])[..|segments|] == segments;
    assert Flat(segments) + (Open(stages[..|stages| - 1]) + [last]) == Flat(segments) + Open(stages[..|stages| - 1]) + [last];
  }

  function FlatScan(sc: Scan): seq<Ended> {
    Flat(sc.segments) + Open(sc.stages)
  }

  // What was read so far, put together again.
  ghost predicate ReadSo(chars: string, i: nat, sc: Scan, gaps: seq<Gap>) {
    && i <= |chars| && |gaps| == |FlatScan(sc)| && Blank(gaps)
    && chars[..i] == Rebuilt(FlatScan(sc), gaps) + sc.current
  }

  lemma {:induction false} TakeReads(chars: string, i: nat, sc: Scan, gaps: seq<Gap>)
    requires TakeReady(sc) && ReadSo(chars, i, sc, gaps) && StageTaken(sc).Some?
    requires i < |chars| && chars[i] == '|'
    ensures ReadSo(chars, i + 1, StageTaken(sc).value, gaps + [GapOf(sc.current)])
  {
    hide Trim, AllSpace, Rebuilt, Flat, GapOf;
    var took := StageTaken(sc).value;
    var gap := GapOf(sc.current);
    TrimParts(sc.current);
    var ended := (Trim(sc.current), Pipe);
    assert FlatScan(took) == FlatScan(sc) + [ended];
    RebuiltPush(FlatScan(sc), gaps, ended, gap);
    assert chars[..i + 1] == chars[..i] + "|";
    Glue(Rebuilt(FlatScan(sc), gaps), gap.0, Trim(sc.current), gap.1, "|");
  }

  lemma {:induction false} Glue(a: string, b: string, c: string, d: string, e: string)
    ensures (a + (b + c + d)) + e == a + (b + c + d + e) + ""
  {
  }

  lemma {:induction false} EndReads(chars: string, i: nat, n: nat, sc: Scan, sep: Sep, gaps: seq<Gap>)
    requires TakeReady(sc) && ReadSo(chars, i, sc, gaps) && SegmentEnded(sc, sep).Some?
    requires i + n <= |chars| && chars[i..i + n] == Mark(sep)
    ensures ReadSo(chars, i + n, SegmentEnded(sc, sep).value, gaps + [GapOf(sc.current)])
  {
    hide Trim, AllSpace, Rebuilt, Flat, Mark, GapOf;
    var done := SegmentEnded(sc, sep).value;
    var stages := StageTaken(sc).value.stages;
    var gap := GapOf(sc.current);
    TrimParts(sc.current);
    var ended := (Trim(sc.current), sep);
    FlatPush(sc.segments, stages, sep);
    assert stages[..|stages| - 1] == sc.stages;
    assert FlatScan(done) == FlatScan(sc) + [ended];
    RebuiltPush(FlatScan(sc), gaps, ended, gap);
    assert chars[..i + n] == chars[..i] + chars[i..i + n];
    Glue(Rebuilt(FlatScan(sc), gaps), gap.0, Trim(sc.current), gap.1, Mark(sep));
  }

  lemma {:induction false} CopyReads(chars: string, i: nat, n: nat, plain: bool, sc: Scan, gaps: seq<Gap>)
    requires i < |chars| && i + n <= |chars| && ReadSo(chars, i, sc, gaps)
    ensures ReadSo(chars, i + n, Copied(chars, i, n, plain, sc), gaps)
  {
    hide FlagHere, Rebuilt, Flat, Blank;
    assert chars[..i + n] == chars[..i] + chars[i..i + n];
    var before := Rebuilt(FlatScan(sc), gaps);
    assert (before + sc.current) + chars[i..i + n] == before + (sc.current + chars[i..i + n]);
  }

  lemma {:induction false} CutIsMark(chars: string, i: nat)
    requires i < |chars|
    ensures var a := TopLevel(chars[i], At(chars, i + 1), Before(chars, i));
            && (a.Cut? ==> i + a.n <= |chars| && chars[i..i + a.n] == Mark(a.sep))
            && (a.Bar? ==> chars[i] == '|')
  {
    var a := TopLevel(chars[i], At(chars, i + 1), Before(chars, i));
    if a.Cut? {
      if a.n == 2 {
        assert chars[i..i + 2] == [chars[i], chars[i + 1]];
      } else {
        assert chars[i..i + 1] == [chars[i]];
      }
    }
  }

  // The gaps found so far, after one more round: taking a stage gives the blanks around it.
  function StepGaps(chars: string, p: Pos, gaps: seq<Gap>): seq<Gap>
    requires p.i < |chars|
  {
    if NextAct(chars, p.i, p.stack, p.groups).Copy? then gaps else gaps + [GapOf(p.sc.current)]
  }

  predicate NothingLeft(sc: Scan) {
    Trim(sc.current) == "" && sc.stages == []
  }

  function GapsFrom(chars: string, p: Pos, gaps: seq<Gap>): seq<Gap>
    requires Ok(chars, p)
    decreases |chars| - p.i
  {
    if p.i == |chars| then if NothingLeft(p.sc) then gaps else gaps + [GapOf(p.sc.current)]
    else
      StepOk(chars, p);
      match Step(chars, p)
      case None => gaps
      case Some(q) => GapsFrom(chars, q, StepGaps(chars, p, gaps))
  }

  // The blanks around every stage of a command, in order.
  function ScanGaps(chars: string): seq<Gap> {
    StartOk(chars);
    GapsFrom(chars, Pos(0, [], 0, START), [])
  }

  lemma {:induction false} StepReads(chars: string, p: Pos, gaps: seq<Gap>)
    requires Ok(chars, p) && p.i < |chars| && Step(chars, p).Some? && ReadSo(chars, p.i, p.sc, gaps)
    ensures ReadSo(chars, Step(chars, p).value.i, Step(chars, p).value.sc, StepGaps(chars, p, gaps))
  {
    hide ReadSo, NextAct, TopLevel, SegmentEnded, StageTaken, Copied, FlagsGrowing, GapOf;
    ReadyFromGrowing(chars, p.i, p.stack, p.groups, p.sc);
    var a := NextAct(chars, p.i, p.stack, p.groups);
    if a.Copy? {
      CopyReads(chars, p.i, a.n, a.plain, p.sc, gaps);
    } else {
      TopLevelOnly(chars, p.i, p.stack, p.groups);
      CutIsMark(chars, p.i);
      if a.Cut? {
        EndReads(chars, p.i, a.n, p.sc, a.sep, gaps);
      } else {
        TakeReads(chars, p.i, p.sc, gaps);
      }
    }
  }

  lemma {:induction false} FinishReads(chars: string, sc: Scan, gaps: seq<Gap>) returns (tail: string)
    requires TakeReady(sc) && ReadSo(chars, |chars|, sc, gaps) && Finished(sc).Some?
    ensures var last := if NothingLeft(sc) then gaps else gaps + [GapOf(sc.current)];
            && |last| == |Flat(Finished(sc).value)| && Blank(last) && AllSpace(tail)
            && chars == Rebuilt(Flat(Finished(sc).value), last) + tail
  {
    hide Rebuilt, Flat, AllSpace, Trim, SegmentEnded, GapOf;
    assert chars[..|chars|] == chars;
    if NothingLeft(sc) {
      TrimParts(sc.current);
      assert FlatScan(sc) == Flat(sc.segments);
      tail := sc.current;
      BlankPair(GapOf(sc.current).0, GapOf(sc.current).1);
      assert GapOf(sc.current).0 + "" + GapOf(sc.current).1 == GapOf(sc.current).0 + GapOf(sc.current).1;
    } else {
      assert chars[|chars|..|chars| + 0] == Mark(NoSep);
      EndReads(chars, |chars|, 0, sc, NoSep, gaps);
      EndedStages(sc);
      tail := "";
      NoBlank();
      assert FlatScan(SegmentEnded(sc, NoSep).value) == Flat(SegmentEnded(sc, NoSep).value.segments);
    }
  }

  lemma {:induction false} EndedStages(sc: Scan)
    requires TakeReady(sc) && SegmentEnded(sc, NoSep).Some?
    ensures SegmentEnded(sc, NoSep).value.stages == [] && SegmentEnded(sc, NoSep).value.current == ""
  {
    hide Trim;
  }

  lemma {:induction false} BlankPair(a: string, b: string)
    requires AllSpace(a) && AllSpace(b)
    ensures AllSpace(a + b)
  {
    hide IsSpace;
  }

  lemma {:induction false} NoBlank()
    ensures AllSpace("")
  {
  }

  lemma {:induction false} ScanFromReads(chars: string, p: Pos, gaps: seq<Gap>) returns (tail: string)
    requires Ok(chars, p) && ScanFrom(chars, p).Some? && ReadSo(chars, p.i, p.sc, gaps)
    ensures var last := GapsFrom(chars, p, gaps);
            && |last| == |Flat(ScanFrom(chars, p).value)| && Blank(last) && AllSpace(tail)
            && chars == Rebuilt(Flat(ScanFrom(chars, p).value), last) + tail
    decreases |chars| - p.i
  {
    hide ReadSo, Step, FlagsGrowing, Finished, Rebuilt, Flat, Blank, AllSpace, GapOf, NothingLeft, StepGaps;
    if p.i == |chars| {
      ReadyFromGrowing(chars, p.i, p.stack, p.groups, p.sc);
      tail := FinishReads(chars, p.sc, gaps);
    } else {
      StepOk(chars, p);
      StepReads(chars, p, gaps);
      tail := ScanFromReads(chars, Step(chars, p).value, StepGaps(chars, p, gaps));
    }
  }

  // The scanned command is exactly its stages, with nothing but blanks and the separators around
  // them: no blank inside a stage is touched.
  lemma {:induction false} ScanKeepsText(chars: string) returns (tail: string)
    requires ScanSpec(chars).Some?
    ensures |ScanGaps(chars)| == |Flat(ScanSpec(chars).value)| && Blank(ScanGaps(chars)) && AllSpace(tail)
    ensures chars == Rebuilt(Flat(ScanSpec(chars).value), ScanGaps(chars)) + tail
  {
    hide ScanFrom, IsSpace, FlagsGrowing, Blank, AllSpace, ReadSo, Flat, Rebuilt, GapsFrom;
    assert Ok(chars, Pos(0, [], 0, START)) by { StartOk(chars); }
    NothingRead(chars);
    tail := ScanFromReads(chars, Pos(0, [], 0, START), []);
  }

  lemma {:induction false} NothingRead(chars: string)
    ensures ReadSo(chars, 0, START, [])
  {
    assert FlatScan(START) == [];
    assert Rebuilt([], []) + "" == "";
  }
}
