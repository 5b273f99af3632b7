// A limit of the formatter: a stage is trimmed without regard to escapes, so an escaped blank behind
// it is left out, and what the layout prints there is escaped in its place. When that shows, exactly.
module ShellEscapedBlank {
  import opened Text
  import opened ShellScan
  import opened ShellShape
  import opened ShellInk
  import opened ShellLayout
  import opened ShellConserve
  import opened ShellFormat
  import opened ShellReading
  import opened ShellPieces
  import opened ShellEscapes
  import opened ShellExact
  import opened ShellKeepsEscapes

  // ----- what a layout escapes -----

  function FlatEscapes(flat: seq<Ended>): string {
    if flat == [] then "" else FlatEscapes(flat[..|flat| - 1]) + PrintedEscapes(flat[|flat| - 1])
  }

  lemma {:induction false} FlatEscapesConcat(a: seq<Ended>, b: seq<Ended>)
    ensures FlatEscapes(a + b) == FlatEscapes(a) + FlatEscapes(b)
    decreases |b|
  {
    hide PrintedEscapes;
    if b == [] {
      assert a + b == a && FlatEscapes(a) + "" == FlatEscapes(a);
    } else {
      WithoutLast(a, b);
      FlatEscapesConcat(a, b[..|b| - 1]);
      Glued(FlatEscapes(a), FlatEscapes(b[..|b| - 1]), PrintedEscapes(b[|b| - 1]));
    }
  }

  lemma {:induction false} StagesFlat(stages: seq<Stage>, sep: Sep)
    ensures StagesEscapes(stages, sep) == FlatEscapes(EndedOf(stages, sep))
    decreases |stages|
  {
    hide PrintedEscapes;
    if stages != [] {
      var n := |stages| - 1;
      StagesFlat(stages[..n], Pipe);
      assert EndedOf(stages[..n], Pipe) == Open(stages[..n]);
      var flat := EndedOf(stages, sep);
      assert flat[..|flat| - 1] == Open(stages[..n]);
    }
  }

  lemma {:induction false} LayUpToEscapes(segments: seq<Segment>, k: nat, width: nat)
    requires k <= |segments| && SegmentsOk(segments) && HaveStages(segments) && SegmentsTidy(segments)
    requires LayUpTo(segments, k, width, true).Some?
    ensures var lines := LayUpTo(segments, k, width, true).value.lines;
            && Escapes(OPEN, LinesText(lines)) == FlatEscapes(Flat(segments[..k]))
            && (k < |segments| ==> Fresh(lines))
  {
    hide GoodLine, Place, StageOk, LinesText, EndsOpen, Ink, LinesInk, StagesTidy, Flat, FlatEscapes, EndedOf, Read, Escapes;
    if k == 0 {
      NothingLaid(segments);
    } else {
      LayUpToEscapes(segments, k - 1, width);
      LayUpToInk(segments, k - 1, width, true);
      var lay, seg, prev := LayUpTo(segments, k - 1, width, true).value, segments[k - 1], PrevSep(segments, k - 1);
      assert SegmentOk(seg);
      PlaceAdds(lay, seg.stages, seg.sep, prev, IsChain(prev), width);
      StagesFlat(seg.stages, seg.sep);
      FlatStep(segments, k);
      FlatEscapesConcat(Flat(segments[..k - 1]), EndedOf(seg.stages, seg.sep));
    }
  }

  lemma {:induction false} NothingLaid(segments: seq<Segment>)
    ensures Fresh([]) && Escapes(OPEN, LinesText([])) == "" && FlatEscapes(Flat(segments[..0])) == ""
  {
    NothingToUnfold();
    ReadNone(OPEN);
    NothingRebuilt();
    assert segments[..0] == [];
  }

  // ----- the stages of a command -----

  lemma {:induction false} StagesProper(stages: seq<Stage>, sep: Sep)
    requires StagesTidy(stages)
    ensures Proper(EndedOf(stages, sep))
    ensures sep != NoSep && stages != [] ==> var flat := EndedOf(stages, sep); flat[|flat| - 1].1 != NoSep
  {
    hide TextTidy, FlagsLevel;
    var flat := EndedOf(stages, sep);
    forall k | 0 <= k < |flat| ensures TextTidy(flat[k].0) {
      assert StageTidy(stages[k]);
    }
  }

  lemma {:induction false} ProperConcat(a: seq<Ended>, b: seq<Ended>)
    requires Proper(a) && Proper(b) && (a != [] ==> a[|a| - 1].1 != NoSep)
    ensures Proper(a + b)
  {
    hide TextTidy;
  }

  lemma {:induction false} FlatProper(segments: seq<Segment>, k: nat)
    requires k <= |segments| && SegmentsTidy(segments) && Separated(segments[..|segments| - if segments == [] then 0 else 1])
    ensures var flat := Flat(segments[..k]);
            && Proper(flat)
            && (k < |segments| && flat != [] ==> flat[|flat| - 1].1 != NoSep)
  {
    hide StagesTidy, Flat, EndedOf, Proper;
    if k == 0 {
      NothingRebuilt();
      assert segments[..0] == [];
      NothingProper();
    } else {
      FlatProper(segments, k - 1);
      FlatStep(segments, k);
      var seg := segments[k - 1];
      StagesProper(seg.stages, seg.sep);
      ProperConcat(Flat(segments[..k - 1]), EndedOf(seg.stages, seg.sep));
      assert k < |segments| ==> segments[..|segments| - 1][k - 1] == seg;
    }
  }

  lemma {:induction false} NothingProper()
    ensures Proper([])
  {
  }

  // The command is read outside every quote at the end of each stage.
  lemma {:induction false} ScanProper(chars: string)
    requires ScanSpec(chars).Some?
    ensures SegmentsTidy(ScanSpec(chars).value)
    ensures Proper(Flat(ScanSpec(chars).value)) && GapsHold(Flat(ScanSpec(chars).value), ScanGaps(chars))
  {
    hide ScanSpec, SegmentsTidy, Proper, Flat, GapsHold, ScanGaps, Separated;
    ScanKept(chars);
    var segments := ScanSpec(chars).value;
    FlatProper(segments, |segments|);
    assert segments[..|segments|] == segments;
  }

  // ----- lone backslashes are escaped blanks -----

  // A backslash of `chars` escapes the character at position `i`.
  predicate EscapedAt(chars: string, i: nat) {
    i < |chars| && Read(OPEN, chars[..i]).mode.Escaped?
  }

  // Where the `k`-th stage ends in the command.
  function StageEnd(flat: seq<Ended>, gaps: seq<Gap>, k: nat): nat
    requires |gaps| == |flat| && k < |flat|
  {
    |Rebuilt(flat[..k], gaps[..k])| + |gaps[k].0| + |flat[k].0|
  }

  lemma {:induction false} RebuiltFront(flat: seq<Ended>, gaps: seq<Gap>, k: nat)
    requires |gaps| == |flat| && k <= |flat|
    ensures Rebuilt(flat[..k], gaps[..k]) <= Rebuilt(flat, gaps)
    decreases |flat| - k
  {
    hide Rebuilt, Own;
    if k < |flat| {
      RebuiltFront(flat, gaps, k + 1);
      RebuiltLast(flat[..k + 1], gaps[..k + 1]);
      assert flat[..k + 1][..k] == flat[..k] && gaps[..k + 1][..k] == gaps[..k];
    } else {
      assert flat[..k] == flat && gaps[..k] == gaps;
    }
  }

  lemma {:induction false} OwnFollows(flat: seq<Ended>, gaps: seq<Gap>, k: nat)
    requires |gaps| == |flat| && k < |flat|
    ensures Rebuilt(flat[..k], gaps[..k]) + Own(flat[k], gaps[k]) <= Rebuilt(flat, gaps)
  {
    hide Rebuilt, Own;
    RebuiltFront(flat, gaps, k + 1);
    RebuiltLast(flat[..k + 1], gaps[..k + 1]);
    assert flat[..k + 1][..k] == flat[..k] && gaps[..k + 1][..k] == gaps[..k];
  }

  // The command up to the end of a stage, and the first blank behind it.
  lemma {:induction false} StageEndAt(front: string, ended: Ended, gap: Gap, chars: string)
    requires front + Own(ended, gap) <= chars
    ensures var end := |front| + |gap.0| + |ended.0|;
            && end <= |chars| && chars[..end] == front + (gap.0 + ended.0)
            && (gap.1 != "" ==> end < |chars| && chars[end] == gap.1[0])
  {
    hide Mark;
    var own := front + Own(ended, gap);
    var end := |front| + |gap.0| + |ended.0|;
    assert chars[..|own|] == own;
    assert own == front + (gap.0 + ended.0) + (gap.1 + Mark(ended.1));
    assert chars[..end] == own[..end];
    if gap.1 != "" {
      assert own[end] == gap.1[0];
    }
  }

  lemma {:induction false} EndRead(front: string, lead: string, text: string)
    requires Read(OPEN, front) == OPEN && AllPlain(lead) && TextTidy(text)
    ensures LoneEnd(text) <==> Read(OPEN, front + (lead + text)).mode.Escaped?
  {
    ReadPlain(OPEN, lead);
    LoneIffWaiting(text);
    hide Read, Escapes, LoneEnd, AllPlain;
    ReadConcat(OPEN, front, lead + text);
    ReadConcat(OPEN, lead, text);
  }

  lemma {:induction false} ProperFront(flat: seq<Ended>, gaps: seq<Gap>, k: nat)
    requires Proper(flat) && GapsHold(flat, gaps) && Blank(gaps) && k < |flat|
    ensures Proper(flat[..k]) && GapsHold(flat[..k], gaps[..k]) && Blank(gaps[..k])
    ensures Read(OPEN, Rebuilt(flat[..k], gaps[..k])) == OPEN
  {
    hide Read, Escapes, TextTidy, LoneEnd, AllSpace, Rebuilt;
    RebuiltEscapes(flat[..k], gaps[..k]);
  }

  // A stage of a command ends in a lone backslash exactly when the command escapes the blank behind it.
  lemma {:induction false} LoneIffEscapedBlank(chars: string, k: nat)
    requires ScanSpec(chars).Some? && k < |Flat(ScanSpec(chars).value)|
    ensures |ScanGaps(chars)| == |Flat(ScanSpec(chars).value)|
    ensures var flat, gaps := Flat(ScanSpec(chars).value), ScanGaps(chars);
            var end := StageEnd(flat, gaps, k);
            && (LoneEnd(flat[k].0) <==> gaps[k].1 != "" && EscapedAt(chars, end))
            && (gaps[k].1 != "" ==> end < |chars| && chars[end] == gaps[k].1[0] && IsSpace(chars[end]))
  {
    hide ScanSpec, Proper, Flat, GapsHold, ScanGaps, Rebuilt, Blank, Read, LoneEnd, AllSpace, AllPlain, Own, SegmentsTidy, TextTidy;
    var tail := ScanKeepsText(chars);
    ScanProper(chars);
    var flat, gaps := Flat(ScanSpec(chars).value), ScanGaps(chars);
    var front := Rebuilt(flat[..k], gaps[..k]);
    OwnFollows(flat, gaps, k);
    StageEndAt(front, flat[k], gaps[k], chars);
    ProperFront(flat, gaps, k);
    AtStage(flat, gaps, k);
    BlankIsPlain(gaps[k].0);
    EndRead(front, gaps[k].0, flat[k].0);
  }

  lemma {:induction false} AtStage(flat: seq<Ended>, gaps: seq<Gap>, k: nat)
    requires Proper(flat) && GapsHold(flat, gaps) && Blank(gaps) && k < |flat|
    ensures TextTidy(flat[k].0) && (LoneEnd(flat[k].0) ==> gaps[k].1 != "")
    ensures AllSpace(gaps[k].0) && AllSpace(gaps[k].1) && (gaps[k].1 != "" ==> IsSpace(gaps[k].1[0]))
  {
    hide TextTidy, LoneEnd, IsSpace;
  }

  // ----- when the escapes stay -----

  // Only in front of an operator that the layout sets off with a blank is an escaped blank replaced
  // by another one; and it is the same only if it was a space.
  predicate KeptAt(ended: Ended, gap: Gap) {
    LoneEnd(ended.0) ==> ended.1 != NoSep && ended.1 != Semi && gap.1 != "" && gap.1[0] == ' '
  }

  // What the layout's own text behind a lone backslash makes of the blank.
  function EscapedInstead(sep: Sep): string {
    match sep
    case NoSep => ""
    case Semi => ";"
    case _ => " "
  }

  lemma {:induction false} StageReads(text: string, x: string)
    requires TextTidy(text) && AllPlain(x)
    ensures Escapes(OPEN, text + x) == Escapes(OPEN, text) + if LoneEnd(text) && x != "" then [x[0]] else ""
  {
    hide Read, Escapes, LoneEnd, TextTidy;
    StageBehind("", text, x);
    assert "" + text + x == text + x;
  }

  lemma {:induction false} SuffixStart(sep: Sep)
    ensures var s := Suffix(sep, true); (if s != "" then [s[0]] else "") == EscapedInstead(sep)
  {
  }

  lemma {:induction false} EscapeReplaced(ended: Ended, gap: Gap)
    requires TextTidy(ended.0) && AllSpace(gap.1) && (LoneEnd(ended.0) ==> gap.1 != "")
    ensures var own := Escapes(OPEN, ended.0);
            && PrintedEscapes(ended) == own + (if LoneEnd(ended.0) then EscapedInstead(ended.1) else "")
            && TypedEscapes(ended, gap) == own + (if LoneEnd(ended.0) then [gap.1[0]] else "")
  {
    hide Read, Escapes, LoneEnd, TextTidy, AllSpace, AllPlain, Suffix, Mark, EscapedInstead;
    SuffixPlain(ended.1);
    SuffixStart(ended.1);
    BlankIsPlain(gap.1);
    PlainJoins(gap.1, Mark(ended.1));
    StageReads(ended.0, Suffix(ended.1, true));
    StageReads(ended.0, gap.1 + Mark(ended.1));
    Glued(ended.0, gap.1, Mark(ended.1));
  }

  lemma {:induction false} SameAt(ended: Ended, gap: Gap)
    requires TextTidy(ended.0) && AllSpace(gap.1) && (LoneEnd(ended.0) ==> gap.1 != "")
    ensures PrintedEscapes(ended) == TypedEscapes(ended, gap) <==> KeptAt(ended, gap)
    ensures ended.1 != NoSep ==> |PrintedEscapes(ended)| == |TypedEscapes(ended, gap)|
  {
    EscapeReplaced(ended, gap);
    assert !IsSpace(';');
    hide Escapes, LoneEnd, TextTidy, PrintedEscapes, TypedEscapes;
    var own := Escapes(OPEN, ended.0);
    if LoneEnd(ended.0) {
      assert IsSpace(gap.1[0]);
      var instead := EscapedInstead(ended.1);
      BothParts(own, instead, own, [gap.1[0]]);
      assert instead == [gap.1[0]] <==> KeptAt(ended, gap);
    }
  }

  lemma {:induction false} BothParts(a: string, x: string, b: string, y: string)
    requires |a| == |b|
    ensures a + x == b + y <==> a == b && x == y
  {
    if a + x == b + y {
      assert (a + x)[..|a|] == a && (b + y)[..|a|] == b;
      assert (a + x)[|a|..] == x && (b + y)[|a|..] == y;
    }
  }

  lemma {:induction false} SameIff(flat: seq<Ended>, gaps: seq<Gap>)
    requires Proper(flat) && GapsHold(flat, gaps) && Blank(gaps)
    ensures FlatEscapes(flat) == CommandEscapes(flat, gaps) <==> forall k :: 0 <= k < |flat| ==> KeptAt(flat[k], gaps[k])
    ensures flat == [] || flat[|flat| - 1].1 != NoSep ==> |FlatEscapes(flat)| == |CommandEscapes(flat, gaps)|
  {
    hide PrintedEscapes, TypedEscapes, KeptAt, LoneEnd, TextTidy, AllSpace;
    if flat != [] {
      var n := |flat| - 1;
      SameIff(flat[..n], gaps[..n]);
      assert n > 0 ==> flat[..n][n - 1].1 != NoSep;
      SameAt(flat[n], gaps[n]);
      BothParts(FlatEscapes(flat[..n]), PrintedEscapes(flat[n]), CommandEscapes(flat[..n], gaps[..n]), TypedEscapes(flat[n], gaps[n]));
      AllButLast(flat, gaps);
    }
  }

  lemma {:induction false} AllButLast(flat: seq<Ended>, gaps: seq<Gap>)
    requires |gaps| == |flat| > 0
    ensures var n := |flat| - 1;
            (forall k :: 0 <= k < |flat| ==> KeptAt(flat[k], gaps[k])) <==>
            (forall k :: 0 <= k < n ==> KeptAt(flat[..n][k], gaps[..n][k])) && KeptAt(flat[n], gaps[n])
  {
    hide KeptAt;
    var n := |flat| - 1;
    assert forall k :: 0 <= k < n ==> flat[..n][k] == flat[k] && gaps[..n][k] == gaps[k];
  }

  // Formatting a fence line keeps what backslashes escape exactly when every escaped blank behind a
  // stage is a space in front of `&&`, `||`, `&` or `|`.
  lemma {:induction false} EscapesKeptIff(command: string, width: nat)
    requires FormatSpec(command, width, true).Some?
    ensures ScanSpec(command).Some?
    ensures var flat, gaps := Flat(ScanSpec(command).value), ScanGaps(command);
            && |gaps| == |flat|
            && (Escapes(OPEN, Unfold(FormatSpec(command, width, true).value)) == Escapes(OPEN, command) <==>
                forall k :: 0 <= k < |flat| ==> KeptAt(flat[k], gaps[k]))
  {
    hide ScanSpec, Proper, Flat, GapsHold, ScanGaps, Rebuilt, Blank, Read, Escapes, AllSpace, KeptAt, SegmentsTidy;
    hide LayUpTo, SegmentsOk, GoodLine, Unfold, LinesText, HasSequence, Ink, LinesInk, FlatEscapes, CommandEscapes, HaveStages;
    ScanShaped(command);
    ScanProper(command);
    var segments := ScanSpec(command).value;
    var flat, gaps := Flat(segments), ScanGaps(command);
    CommandReads(command);
    ScanKeepsInk(command, true);
    FormatLinesInk(command, width, true);
    var lines := FormatLines(command, width, true).value;
    GoodPlain(lines);
    UnfoldIsText(lines);
    LayUpToEscapes(segments, |segments|, width);
    assert segments[..|segments|] == segments;
    var tail := ScanKeepsText(command);
    SameIff(flat, gaps);
  }

  lemma {:induction false} CommandReads(command: string)
    requires ScanSpec(command).Some?
    ensures |ScanGaps(command)| == |Flat(ScanSpec(command).value)|
    ensures Escapes(OPEN, command) == CommandEscapes(Flat(ScanSpec(command).value), ScanGaps(command))
  {
    hide ScanSpec, Proper, Flat, GapsHold, ScanGaps, Rebuilt, Blank, Read, Escapes, AllSpace, AllPlain, SegmentsTidy, CommandEscapes;
    ScanProper(command);
    var tail := ScanKeepsText(command);
    var flat, gaps := Flat(ScanSpec(command).value), ScanGaps(command);
    RebuiltEscapes(flat, gaps);
    BlankIsPlain(tail);
    ReadPlain(Read(OPEN, Rebuilt(flat, gaps)), tail);
    ReadConcat(OPEN, Rebuilt(flat, gaps), tail);
    assert CommandEscapes(flat, gaps) + "" == CommandEscapes(flat, gaps);
  }

  // A command that is scanned leaves every quote and nested command it opens.
  lemma {:induction false} ScannedIsLevel(command: string)
    requires ScanSpec(command).Some?
    ensures Level(Read(OPEN, command))
  {
    hide ScanSpec, Proper, Flat, GapsHold, ScanGaps, Rebuilt, Blank, Read, Escapes, AllSpace, AllPlain, SegmentsTidy, CommandEscapes;
    ScanProper(command);
    var tail := ScanKeepsText(command);
    var flat, gaps := Flat(ScanSpec(command).value), ScanGaps(command);
    RebuiltEscapes(flat, gaps);
    BlankIsPlain(tail);
    ReadPlain(Read(OPEN, Rebuilt(flat, gaps)), tail);
    ReadConcat(OPEN, Rebuilt(flat, gaps), tail);
  }

  // ----- an example -----

  // The command of the example: `a\ ;b`.
  const COMMAND := "a\\ ;b"

  const STAGE_A := Stage("a\\", [])
  const STAGE_B := Stage("b", [])
  const SEGMENT_A := Segment([STAGE_A], Semi)
  const SEGMENT_B := Segment([STAGE_B], NoSep)

  function After(i: nat, sc: Scan): Pos {
    Pos(i, [], 0, sc)
  }

  const READ_A := Scan([], [], "a", [], false)
  const READ_BLANK := Scan([], [], "a\\ ", [], false)
  const CUT := Scan([SEGMENT_A], [], "", [], false)
  const READ_B := Scan([SEGMENT_A], [], "b", [], false)

  lemma {:induction false} Blanks()
    ensures IsSpace(' ') && !IsSpace('a') && !IsSpace('\\') && !IsSpace('b')
  {
  }

  lemma {:induction false} ReadsBlank()
    ensures Ok(COMMAND, After(0, START)) && Step(COMMAND, After(0, START)) == Some(After(1, READ_A))
    ensures Ok(COMMAND, After(1, READ_A)) && Step(COMMAND, After(1, READ_A)) == Some(After(3, READ_BLANK))
  {
    Blanks();
    hide IsSpace;
    assert NextAct(COMMAND, 0, [], 0) == Copy(1, [], 0, true);
    assert COMMAND[0..1] == "a" && "" + "a" == "a";
    assert Copied(COMMAND, 0, 1, true, START) == READ_A;
    assert NextAct(COMMAND, 1, [], 0) == Copy(2, [], 0, false);
    assert COMMAND[1..3] == "\\ " && "a" + "\\ " == "a\\ ";
    assert Copied(COMMAND, 1, 2, false, READ_A) == READ_BLANK;
  }

  lemma {:induction false} TrimsA()
    ensures LeadEnd("a\\ ", 0) == 0 && Trim("a\\ ") == "a\\"
  {
    Blanks();
    hide IsSpace;
    var s := "a\\ ";
    assert s[0..] == s;
    assert TailStart(s, 2) == 2;
    assert TailStart(s, 3) == 2;
    assert s[..2] == "a\\";
  }

  lemma {:induction false} TrimsB()
    ensures LeadEnd("b", 0) == 0 && Trim("b") == "b"
  {
    Blanks();
    hide IsSpace;
    assert "b"[0..] == "b" && TailStart("b", 1) == 1 && "b"[..1] == "b";
  }

  lemma {:induction false} Takes(sc: Scan, text: string, sep: Sep)
    requires Trim(sc.current) == text != ""
    requires sc.stages == [] && sc.flags == [] && !sc.optionsEnded
    ensures TakeReady(sc)
    ensures SegmentEnded(sc, sep) == Some(Scan(sc.segments + [Segment([Stage(text, [])], sep)], [], "", [], false))
  {
    hide Trim, LeadEnd;
    assert Shift([], LeadEnd(sc.current, 0)) == [];
    assert [] + [Stage(text, [])] == [Stage(text, [])];
  }

  lemma {:induction false} CutsA()
    ensures Ok(COMMAND, After(3, READ_BLANK)) && Step(COMMAND, After(3, READ_BLANK)) == Some(After(4, CUT))
  {
    TrimsA();
    hide Trim, LeadEnd, IsSpace;
    Takes(READ_BLANK, "a\\", Semi);
    assert NextAct(COMMAND, 3, [], 0) == Cut(Semi, 1);
    assert [] + [SEGMENT_A] == [SEGMENT_A];
  }

  lemma {:induction false} ReadsB()
    ensures Ok(COMMAND, After(4, CUT)) && Step(COMMAND, After(4, CUT)) == Some(After(5, READ_B))
    ensures Ok(COMMAND, After(5, READ_B)) && TakeReady(READ_B) && Finished(READ_B) == Some([SEGMENT_A, SEGMENT_B])
  {
    Blanks();
    TrimsB();
    hide Trim, LeadEnd, IsSpace;
    assert NextAct(COMMAND, 4, [], 0) == Copy(1, [], 0, true);
    assert COMMAND[4..5] == "b" && "" + "b" == "b";
    Takes(READ_B, "b", NoSep);
    assert [SEGMENT_A] + [SEGMENT_B] == [SEGMENT_A, SEGMENT_B];
  }

  lemma {:induction false} Scanned()
    ensures ScanSpec(COMMAND) == Some([SEGMENT_A, SEGMENT_B])
  {
    hide Step, Finished, Ok;
    ReadsBlank();
    CutsA();
    ReadsB();
    assert ScanFrom(COMMAND, After(5, READ_B)) == Some([SEGMENT_A, SEGMENT_B]);
    assert ScanFrom(COMMAND, After(3, READ_BLANK)) == ScanFrom(COMMAND, After(4, CUT)) == ScanFrom(COMMAND, After(5, READ_B));
    assert ScanFrom(COMMAND, After(0, START)) == ScanFrom(COMMAND, After(1, READ_A)) == ScanFrom(COMMAND, After(3, READ_BLANK));
  }

  lemma {:induction false} OneWord(text: string)
    requires text == "a\\" || text == "b"
    ensures FirstWord(text) == text && StagesOk([Stage(text, [])]) && ParseKeyword(text).None?
  {
    Blanks();
    hide IsSpace;
    assert WordEnd(text, |text|) == |text|;
    assert |text| == 2 ==> WordEnd(text, 1) == 2;
    assert WordEnd(text, 0) == |text|;
  }

  // A stage alone in its segment, without flags and keywords, is one more line.
  lemma {:induction false} Placed(before: seq<string>, text: string, sep: Sep, width: nat)
    requires StagesOk([Stage(text, [])]) && ParseKeyword(FirstWord(text)).None? && sep != Pipe
    ensures SegmentOk(Segment([Stage(text, [])], sep))
    ensures PlaceSegment(Lay(before, [], false), Segment([Stage(text, [])], sep), Semi, width, true) ==
            Some(Lay(before + [text + Suffix(sep, true)], [], false))
  {
    hide FirstWord, ParseKeyword, IsSpace, FlagsOk, Suffix, StageOk;
    var stages, lay, line := [Stage(text, [])], Lay(before, [], false), text + Suffix(sep, true);
    assert SegmentOk(Segment(stages, sep));
    assert FlagsOk(text, []) by { StageFlags(stages, 0); }
    assert Repeat(' ', 0) == "" && "" + text == text;
    assert Line(0, "" + text, sep, true) == line;
    assert StatementLines(0, stages, sep, width, true) == [line];
    assert StatementIndent(lay, false) == 0;
    assert Stated(lay, stages, sep, false, width, true) == Lay(before + [line], [], false);
    assert Place(lay, stages, sep, Semi, false, width, true) == Some(Stated(lay, stages, sep, false, width, true));
    hide Place, Stated, StatementLines, StatementIndent, SegmentOk, Line;
    assert SegmentOk(Segment(stages, sep));
    assert PlaceSegment(lay, Segment(stages, sep), Semi, width, true) == Place(lay, stages, sep, Semi, IsChain(Semi), width, true);
  }

  // Two such stages with a `;` between them are two lines.
  lemma {:induction false} TwoLaidOut(a: string, b: string, width: nat)
    requires StagesOk([Stage(a, [])]) && ParseKeyword(FirstWord(a)).None?
    requires StagesOk([Stage(b, [])]) && ParseKeyword(FirstWord(b)).None?
    ensures var segments := [Segment([Stage(a, [])], Semi), Segment([Stage(b, [])], NoSep)];
            SegmentsOk(segments) && LayoutSpec(segments, width, true) == Some([a + ";", b])
  {
    var segments := [Segment([Stage(a, [])], Semi), Segment([Stage(b, [])], NoSep)];
    assert Suffix(Semi, true) == ";" && Suffix(NoSep, true) == "" && b + "" == b;
    hide FirstWord, ParseKeyword, StagesOk, PlaceSegment, SegmentOk, Suffix;
    Placed([], a, Semi, width);
    Placed([a + ";"], b, NoSep, width);
    assert SegmentsOk(segments);
    assert [] + [a + ";"] == [a + ";"] && [a + ";"] + [b] == [a + ";", b];
    assert LayUpTo(segments, 0, width, true) == Some(Lay([], [], false));
    assert LayUpTo(segments, 1, width, true) == Some(Lay([a + ";"], [], false));
    assert LayUpTo(segments, 2, width, true) == Some(Lay([a + ";", b], [], false));
  }

  lemma {:induction false} LaidOut()
    ensures SegmentsOk([SEGMENT_A, SEGMENT_B])
    ensures LayoutSpec([SEGMENT_A, SEGMENT_B], 1, true) == Some(["a\\;", "b"])
  {
    OneWord("a\\");
    OneWord("b");
    hide FirstWord, ParseKeyword, StagesOk, LayoutSpec, SegmentsOk;
    TwoLaidOut("a\\", "b", 1);
    assert "a\\" + ";" == "a\\;";
  }

  // The fence formatter turns `a\ ;b` into the lines `a\;` and `b`: the escaped blank is gone and
  // the separator is escaped in its place.
  lemma {:induction false} EscapedBlankIsLost()
    ensures FormatSpec(COMMAND, 1, true) == Some("a\\;\nb")
  {
    Scanned();
    LaidOut();
    hide ScanSpec, LayoutSpec, SegmentsOk, HasSequence;
    assert PlainLine(COMMAND);
    assert FormatLines(COMMAND, 1, true) == Some(["a\\;", "b"]);
    assert ["a\\;", "b"][1..] == ["b"];
    assert Join(["a\\;", "b"], "\n") == "a\\;\nb";
  }
}
