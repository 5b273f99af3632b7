// The layout prints the pieces of a command in order, and blanks; so fence formatting changes
// the command's blanks between pieces and nothing else.
module ShellSpacing {
  import opened Text
  import opened ShellScan
  import opened ShellShape
  import opened ShellInk
  import opened ShellLayout
  import opened ShellConserve
  import opened ShellFormat
  import opened ShellTokens
  import opened ShellExact

  // ----- pipelines -----

  lemma {:induction false} OneStageToks(stages: seq<Stage>, sep: Sep, after: bool)
    requires StagesOk(stages) && |stages| == 1
    ensures FlagsOk(stages[0].text, stages[0].flags)
    ensures StagesToks(stages, sep, after) == WholeStage(stages[0], after) + SepToks(sep)
  {
    hide WholeStage, SepToks, StageOk, FlagsOk;
    StagesToksLast(stages, sep, after);
    assert stages[..0] == [];
    assert StagesToks([], Pipe, after) == [];
    assert [] + WholeStage(stages[0], after) == WholeStage(stages[0], after);
  }

  // What the `k`-th stage adds to the pieces of those before it.
  lemma {:induction false} OneMoreStage(stages: seq<Stage>, k: nat, sep: Sep, after: bool)
    requires StagesOk(stages) && k < |stages|
    ensures StagesOk(stages[..k]) && StagesOk(stages[..k + 1]) && FlagsOk(stages[k].text, stages[k].flags)
    ensures StagesToks(stages[..k + 1], sep, after) ==
            StagesToks(stages[..k], Pipe, after) + (WholeStage(stages[k], k == 0 && after) + SepToks(sep))
  {
    hide WholeStage, SepToks, StageOk, FlagsOk, StagesToks;
    assert stages[..k + 1][..k] == stages[..k];
    StagesToksLast(stages[..k + 1], sep, after);
  }

  lemma {:induction false} PipeFlows(indent: nat, stages: seq<Stage>, sep: Sep, width: nat, after: bool,
                                     gap: string, lead: string, k: nat)
    requires StagesOk(stages) && 0 < k <= |stages| && AllSpace(lead) && AllSpace(gap) && (after ==> gap != "")
    ensures StagesOk(stages[..k])
    ensures var last := if k == |stages| then sep else Pipe;
            Spaced(StagesToks(stages[..k], last, after), gap + LinesUnder(lead, PipeLines(indent, stages, sep, width, true, k)))
  {
    hide Spaced, StageOk, FlagsOk, AllSpace, WholeStage, SepToks, StagesToks, AllUnder, LinesUnder, StageLines, Settled, GoodLine;
    var last := if k == |stages| then sep else Pipe;
    var at := if k == 1 then indent else indent + INDENT;
    OneMoreStage(stages, k - 1, last, after);
    var before := PipeLines(indent, stages, sep, width, true, k - 1);
    var own := StageLines(at, "", stages[k - 1], last, width, true);
    SpaceIsBlank();
    StageFlows(at, stages[k - 1], last, width, k == 1 && after, if k == 1 then gap else "\n", lead);
    AllUnderAppend(lead, before, own);
    if k == 1 {
      NothingUnder(lead);
      assert "" + LinesUnder(lead, own) == LinesUnder(lead, own);
      assert stages[..0] == [] && StagesToks([], Pipe, after) == [] by { NoStagesToks(after); }
      assert [] + (WholeStage(stages[0], after) + SepToks(last)) == WholeStage(stages[0], after) + SepToks(last);
    } else {
      PipeFlows(indent, stages, sep, width, after, gap, lead, k - 1);
      PipeLinesInk(indent, stages, sep, width, true, k - 1);
      SettledUnder(lead, before);
      SpacedConcat(StagesToks(stages[..k - 1], Pipe, after), gap + LinesUnder(lead, before),
                   WholeStage(stages[k - 1], false) + SepToks(last), "\n" + LinesUnder(lead, own));
      PipeGlue(gap, LinesUnder(lead, before), LinesUnder(lead, own));
    }
  }

  lemma {:induction false} NoStagesToks(after: bool)
    ensures StagesOk([]) && StagesToks([], Pipe, after) == []
  {
  }

  lemma {:induction false} PipeGlue(gap: string, a: string, b: string)
    ensures (gap + a) + ("\n" + b) == gap + ((a + "\n") + b)
  {
  }

  lemma {:induction false} SepLast(stages: seq<Stage>, sep: Sep, after: bool)
    requires StagesOk(stages) && stages != []
    ensures StagesToks(stages, sep, after) == StagesToks(stages, NoSep, after) + SepToks(sep)
  {
    hide WholeStage, StageOk, FlagsOk, StagesToks;
    StagesToksLast(stages, sep, after);
    StagesToksLast(stages, NoSep, after);
    var n := |stages| - 1;
    var front := StagesToks(stages[..n], Pipe, after) + WholeStage(stages[n], n == 0 && after);
    assert front + [] == front;
  }

  lemma {:induction false} JoinLast(lines: seq<string>, last: string)
    requires lines != []
    ensures Join(lines + [last], " | ") == Join(lines, " | ") + " | " + last
  {
    var more := lines + [last];
    if |lines| == 1 {
      assert more[1..] == [last];
    } else {
      assert more[1..] == lines[1..] + [last];
      JoinLast(lines[1..], last);
      JoinGlue(lines[0], Join(lines[1..], " | "), last);
    }
  }

  lemma {:induction false} JoinGlue(a: string, b: string, c: string)
    ensures a + " | " + (b + " | " + c) == (a + " | " + b) + " | " + c
    ensures a + " | " + c == (a + " |") + (" " + c)
  {
  }

  lemma {:induction false} JoinStagesLast(stages: seq<Stage>)
    requires |stages| > 1
    ensures var n := |stages| - 1; JoinStages(stages) == JoinStages(stages[..n]) + " | " + stages[n].text
  {
    hide Join;
    var n := |stages| - 1;
    assert Texts(stages) == Texts(stages[..n]) + [stages[n].text];
    JoinLast(Texts(stages[..n]), stages[n].text);
  }

  lemma {:induction false} JoinFlows(stages: seq<Stage>, after: bool, gap: string)
    requires StagesOk(stages) && stages != [] && AllSpace(gap) && (after ==> gap != "")
    ensures Spaced(StagesToks(stages, NoSep, after), gap + JoinStages(stages))
    decreases |stages|
  {
    hide Spaced, StageOk, FlagsOk, AllSpace, WholeStage, StagesToks, JoinStages;
    var n := |stages| - 1;
    StagesToksLast(stages, NoSep, after);
    if n == 0 {
      OneStageToks(stages, NoSep, after);
      StageInText(stages[0], after, gap);
      JoinOne(stages);
      assert WholeStage(stages[0], after) + [] == WholeStage(stages[0], after);
    } else {
      var front := stages[..n];
      JoinFlows(front, after, gap);
      SepLast(front, Pipe, after);
      var s := gap + JoinStages(front);
      SuffixSpaced(StagesToks(front, NoSep, after), s, Pipe);
      SpaceIsBlank();
      StageInText(stages[n], false, " ");
      SpacedConcat(StagesToks(front, Pipe, after), s + " |", WholeStage(stages[n], false), " " + stages[n].text);
      JoinStagesLast(stages);
      JoinGlue(s, "", stages[n].text);
      assert gap + (JoinStages(front) + " | " + stages[n].text) == s + " | " + stages[n].text;
      var toks := StagesToks(front, Pipe, after) + WholeStage(stages[n], false);
      assert toks + [] == toks;
    }
  }

  lemma {:induction false} JoinOne(stages: seq<Stage>)
    requires |stages| == 1
    ensures JoinStages(stages) == stages[0].text
  {
  }

  lemma {:induction false} JoinedFlows(indent: nat, stages: seq<Stage>, sep: Sep, after: bool, gap: string, lead: string)
    requires StagesOk(stages) && stages != [] && AllSpace(lead) && AllSpace(gap) && (after ==> gap != "")
    ensures Spaced(StagesToks(stages, sep, after), gap + LinesUnder(lead, [Line(indent, JoinStages(stages), sep, true)]))
  {
    hide Spaced, StageOk, AllSpace, StagesToks, JoinStages, Suffix, LinesUnder;
    AllSpaceJoins(gap, lead);
    var wide := gap + lead + Repeat(' ', indent);
    IndentedGap(gap + lead, indent);
    JoinFlows(stages, after, wide);
    SuffixSpaced(StagesToks(stages, NoSep, after), wide + JoinStages(stages), sep);
    SepLast(stages, sep, after);
    OneLineUnder(lead, Line(indent, JoinStages(stages), sep, true));
    WideGlue(gap, lead, Repeat(' ', indent), JoinStages(stages), Suffix(sep, true));
  }

  lemma {:induction false} WideGlue(gap: string, lead: string, pad: string, text: string, end: string)
    ensures gap + lead + pad + text + end == gap + (lead + (pad + text + end))
  {
  }

  lemma {:induction false} StatementFlows(indent: nat, stages: seq<Stage>, sep: Sep, width: nat, after: bool,
                                          gap: string, lead: string)
    requires StagesOk(stages) && stages != [] && AllSpace(lead) && AllSpace(gap) && (after ==> gap != "")
    ensures Spaced(StagesToks(stages, sep, after), gap + LinesUnder(lead, StatementLines(indent, stages, sep, width, true)))
  {
    hide Spaced, StageOk, FlagsOk, AllSpace, StagesToks, JoinStages, Suffix, LinesUnder, PipeLines, StageLines, Line;
    if |stages| > 1 && indent + |JoinStages(stages)| + |Suffix(sep, true)| > width {
      PipeFlows(indent, stages, sep, width, after, gap, lead, |stages|);
      assert stages[..|stages|] == stages;
    } else if |stages| == 1 {
      OneStageToks(stages, sep, after);
      StageFlows(indent, stages[0], sep, width, after, gap, lead);
    } else {
      JoinedFlows(indent, stages, sep, after, gap, lead);
    }
  }

  // ----- segments -----

  // `after` prints the pieces behind what `before` prints, with `lead` in front of every line.
  ghost predicate Printed(lead: string, before: seq<string>, after: seq<string>, toks: seq<Tok>) {
    exists x :: LinesUnder(lead, after) == LinesUnder(lead, before) + x && Spaced(toks, x)
  }

  // The blank in front of a new line.
  function BreakOf(before: seq<string>): string {
    if before == [] then "" else "\n"
  }

  lemma {:induction false} PrintedLines(lead: string, before: seq<string>, more: seq<string>, toks: seq<Tok>)
    requires AllSpace(lead) && Settled(before, true) && more != [] && Spaced(toks, BreakOf(before) + LinesUnder(lead, more))
    ensures Printed(lead, before, before + more, toks)
  {
    hide Spaced, LinesUnder, AllUnder, Settled, AllSpace;
    AllUnderAppend(lead, before, more);
    var x := BreakOf(before) + LinesUnder(lead, more);
    if before == [] {
      NothingUnder(lead);
      assert "" + LinesUnder(lead, more) == LinesUnder(lead, more) && "" + x == x;
    } else {
      SettledUnder(lead, before);
      Glued(LinesUnder(lead, before), "\n", LinesUnder(lead, more));
    }
    assert LinesUnder(lead, before + more) == LinesUnder(lead, before) + x;
  }

  lemma {:induction false} PrintedTail(lead: string, before: seq<string>, more: string, toks: seq<Tok>)
    requires before != [] && Spaced(toks, more)
    ensures Printed(lead, before, AppendLast(before, more), toks)
  {
    hide Spaced, AllText;
    var after := AppendLast(before, more);
    var n := |before| - 1;
    assert Indented(lead, after)[..n] == Indented(lead, before)[..n];
    Glued(lead, before[n], more);
    Glued(AllText(Indented(lead, before)[..n]), lead + before[n], more);
    assert LinesUnder(lead, after) == LinesUnder(lead, before) + more;
  }

  lemma {:induction false} PrintedTwice(lead: string, a: seq<string>, b: seq<string>, c: seq<string>, s: seq<Tok>, t: seq<Tok>)
    requires Printed(lead, a, b, s) && Printed(lead, b, c, t)
    ensures Printed(lead, a, c, s + t)
  {
    hide Spaced, LinesUnder;
    var x :| LinesUnder(lead, b) == LinesUnder(lead, a) + x && Spaced(s, x);
    var y :| LinesUnder(lead, c) == LinesUnder(lead, b) + y && Spaced(t, y);
    SpacedConcat(s, x, t, y);
    Glued(LinesUnder(lead, a), x, y);
    assert LinesUnder(lead, c) == LinesUnder(lead, a) + (x + y);
  }

  lemma {:induction false} WordSpaced(word: string, after: bool, gap: string)
    requires AllSpace(gap) && (after ==> gap != "")
    ensures Spaced([Tok(word, after)], gap + word)
  {
    hide Spaced, AllSpace;
    NothingSpaced();
    SpacedPush([], "", gap, Tok(word, after));
    assert [] + [Tok(word, after)] == [Tok(word, after)] && "" + gap + word == gap + word;
  }

  lemma {:induction false} BreakIsBlank(before: seq<string>)
    ensures AllSpace(BreakOf(before)) && (before != [] ==> BreakOf(before) != "")
  {
    SpaceIsBlank();
  }

  lemma {:induction false} ElseFlows(lead: string, before: seq<string>, indent: nat, after: bool)
    requires AllSpace(lead) && Settled(before, true) && (after ==> before != [])
    ensures Printed(lead, before, before + [Line(indent, "else", NoSep, true)], [Tok("else", after)])
  {
    hide Spaced, AllSpace, LinesUnder, Settled, Printed;
    BreakIsBlank(before);
    AllSpaceJoins(BreakOf(before), lead);
    var wide := BreakOf(before) + lead + Repeat(' ', indent);
    IndentedGap(BreakOf(before) + lead, indent);
    WordSpaced("else", after, wide);
    var line := Line(indent, "else", NoSep, true);
    OneLineUnder(lead, line);
    WideGlue(BreakOf(before), lead, Repeat(' ', indent), "else", "");
    assert wide + "else" + "" == wide + "else";
    PrintedLines(lead, before, [line], [Tok("else", after)]);
  }

  lemma {:induction false} KeywordFlows(lead: string, lay: Lay, keyword: Keyword, word: string, stages: seq<Stage>, sep: Sep, after: bool)
    requires LayOk(lay) && StagesOk(stages) && stages != [] && ParseKeyword(word) == Some(keyword)
    requires AllSpace(lead) && Settled(lay.lines, true) && (after ==> lay.lines != [])
    requires KeywordDone(lay, keyword, word, JoinStages(stages), sep, true).Some?
    ensures var (lay', more) := KeywordDone(lay, keyword, word, JoinStages(stages), sep, true).value;
            && more == Goes(Some(keyword))
            && Printed(lead, lay.lines, lay'.lines, if more then [Tok(word, after)] else StagesToks(stages, sep, after))
  {
    hide Spaced, AllSpace, LinesUnder, Settled, Printed, ParseKeyword, JoinStages, StageOk, StagesToks, Line, SepToks;
    BreakIsBlank(lay.lines);
    match keyword
    case Do | Then =>
      SpaceIsBlank();
      WordSpaced(word, after, " ");
      PrintedTail(lead, lay.lines, " " + word, [Tok(word, after)]);
    case Else =>
      KeywordPlain(word);
      ElseFlows(lead, lay.lines, INDENT * (|lay.stack| - 1), after);
    case Header =>
      StatementLine(lead, lay.lines, INDENT * |lay.stack|, stages, sep, after);
    case Elif =>
      StatementLine(lead, lay.lines, INDENT * (|lay.stack| - 1), stages, sep, after);
    case Done | Fi =>
      StatementLine(lead, lay.lines, INDENT * (|lay.stack| - 1), stages, sep, after);
  }

  lemma {:induction false} StatementLine(lead: string, before: seq<string>, indent: nat, stages: seq<Stage>, sep: Sep, after: bool)
    requires StagesOk(stages) && stages != [] && AllSpace(lead) && Settled(before, true) && (after ==> before != [])
    ensures Printed(lead, before, before + [Line(indent, JoinStages(stages), sep, true)], StagesToks(stages, sep, after))
  {
    hide Spaced, AllSpace, LinesUnder, Settled, Printed, JoinStages, StageOk, StagesToks, Line;
    BreakIsBlank(before);
    JoinedFlows(indent, stages, sep, after, BreakOf(before), lead);
    PrintedLines(lead, before, [Line(indent, JoinStages(stages), sep, true)], StagesToks(stages, sep, after));
  }

  // A stage that is one word has no flags.
  lemma {:induction false} WordAlone(stage: Stage, after: bool)
    requires StageOk(stage) && AfterWord(stage).text == ""
    ensures FlagsOk(stage.text, stage.flags)
    ensures stage.text == FirstWord(stage.text) && WholeStage(stage, after) == [Tok(stage.text, after)]
  {
    var blank := BlankAfterWord(stage);
    FullWord(stage, blank);
    FlagsNeedBlanks(stage.text, stage.flags);
    hide FlagsOk, IsSpace;
    assert StageToks(stage, after, 0) == [];
    assert stage.text[0..|stage.text|] == stage.text;
  }

  lemma {:induction false} FullWord(stage: Stage, blank: string)
    requires StageOk(stage) && AllSpace(blank) && stage.text == FirstWord(stage.text) + blank + ""
    ensures stage.text == FirstWord(stage.text)
    ensures forall k :: 0 <= k < |stage.text| ==> !IsSpace(stage.text[k])
  {
    hide IsSpace, FlagsOk;
    var text := stage.text;
    assert LeadEnd(text, 0) == 0;
    WordStops(text, 0);
    if blank != "" {
      BlankEnd(FirstWord(text), blank);
    }
  }

  lemma {:induction false} BlankEnd(word: string, blank: string)
    requires blank != "" && AllSpace(blank)
    ensures var text := word + blank + ""; IsSpace(text[|text| - 1])
  {
    hide IsSpace;
    assert (word + blank + "")[|word| + |blank| - 1] == blank[|blank| - 1];
  }

  lemma {:induction false} FlagsNeedBlanks(text: string, flags: seq<nat>)
    requires FlagsOk(text, flags) && forall k :: 0 <= k < |text| ==> !IsSpace(text[k])
    ensures flags == []
  {
    hide IsSpace, FlagsOk;
    if flags != [] {
      BlankBeforeFlag(text, flags);
    }
  }

  lemma {:induction false} BlankBeforeFlag(text: string, flags: seq<nat>)
    requires FlagsOk(text, flags) && flags != []
    ensures exists k :: 0 <= k < |text| && IsSpace(text[k])
  {
    hide IsSpace;
    assert IsSpace(text[flags[0] - 1]);
  }

  lemma {:induction false} PlaceFlows(lead: string, lay: Lay, stages: seq<Stage>, sep: Sep, prev: Sep, chain: bool, width: nat, after: bool)
    requires LayOk(lay) && StagesOk(stages) && stages != []
    requires AllSpace(lead) && GoodLines(lay.lines) && Settled(lay.lines, true) && (after ==> lay.lines != [])
    requires Place(lay, stages, sep, prev, chain, width, true).Some?
    ensures Printed(lead, lay.lines, Place(lay, stages, sep, prev, chain, width, true).value.lines, SegmentToks(stages, sep, after))
    decreases |stages[0].text|, 1
  {
    hide ParseKeyword, JoinStages, StageOk, Printed, GoodLine, KeywordDone, StatementLines, StatementIndent,
         FirstWord, Settled, PlaceRest, StagesToks, AfterWord, Grew;
    StageFlags(stages, 0);
    assert StageOk(stages[0]);
    AfterWordOk(stages[0]);
    var word := FirstWord(stages[0].text);
    var keyword := ParseKeyword(word);
    if keyword.None? {
      var indent := StatementIndent(lay, chain);
      BreakIsBlank(lay.lines);
      StatementFlows(indent, stages, sep, width, after, BreakOf(lay.lines), lead);
      StatementInk(indent, stages, sep, width, true);
      PrintedLines(lead, lay.lines, StatementLines(indent, stages, sep, width, true), StagesToks(stages, sep, after));
    } else {
      KeywordFlows(lead, lay, keyword.value, word, stages, sep, after);
      var (lay', more) := KeywordDone(lay, keyword.value, word, JoinStages(stages), sep, true).value;
      if more {
        KeywordInk(lay, keyword.value, word, stages, sep, true);
        GrewFacts(lay.lines, lay'.lines, Ink(word, true), true, true);
        PlaceRestFlows(lead, lay', stages, sep, prev, width, word, after, lay.lines);
      }
    }
  }

  lemma {:induction false} PlaceRestFlows(lead: string, lay: Lay, stages: seq<Stage>, sep: Sep, prev: Sep, width: nat,
                                          word: string, after: bool, before: seq<string>)
    requires LayOk(lay) && lay.lines != [] && StagesOk(stages) && stages != []
    requires AllSpace(lead) && GoodLines(lay.lines) && Settled(lay.lines, true)
    requires word == FirstWord(stages[0].text) && Goes(ParseKeyword(word)) && Printed(lead, before, lay.lines, [Tok(word, after)])
    requires PlaceRest(lay, stages, sep, prev, width, true).Some?
    ensures Printed(lead, before, PlaceRest(lay, stages, sep, prev, width, true).value.lines, SegmentToks(stages, sep, after))
    decreases |stages[0].text|, 0
  {
    hide AllSpace, ParseKeyword, StageOk, Printed, GoodLine, FirstWord, Settled, Place, StagesToks, AfterWord, Spaced, SepToks, Goes;
    assert StageOk(stages[0]);
    AfterWordOk(stages[0]);
    var rest := AfterWord(stages[0]);
    var last := PlaceRest(lay, stages, sep, prev, width, true).value.lines;
    if rest.text == "" {
      WordAlone(stages[0], after);
      OneStageToks(stages, sep, after);
      NothingSpaced();
      SuffixSpaced([], "", sep);
      assert [] + SepToks(sep) == SepToks(sep) && "" + Suffix(sep, true) == Suffix(sep, true);
      PrintedTail(lead, lay.lines, Suffix(sep, true), SepToks(sep));
      PrintedTwice(lead, before, lay.lines, last, [Tok(word, after)], SepToks(sep));
    } else {
      PlaceFlows(lead, lay, stages[0 := rest], sep, prev, false, width, true);
      PrintedTwice(lead, before, lay.lines, last, [Tok(word, after)], SegmentToks(stages[0 := rest], sep, true));
    }
  }

  // ----- the whole command -----

  lemma {:induction false} LayUpToFlows(lead: string, segments: seq<Segment>, k: nat, width: nat)
    requires k <= |segments| && SegmentsOk(segments) && HaveStages(segments) && AllSpace(lead)
    requires LayUpTo(segments, k, width, true).Some?
    ensures Spaced(CommandToks(segments, k), LinesUnder(lead, LayUpTo(segments, k, width, true).value.lines))
  {
    hide Spaced, GoodLine, Place, StageOk, SegmentToks, LinesUnder, EndsOpen, Ink, LinesInk, AllSpace;
    if k == 0 {
      NothingUnder(lead);
      NothingSpaced();
    } else {
      LayUpToFlows(lead, segments, k - 1, width);
      LayUpToInk(segments, k - 1, width, true);
      var lay, seg, prev := LayUpTo(segments, k - 1, width, true).value, segments[k - 1], PrevSep(segments, k - 1);
      assert SegmentOk(seg);
      PlaceFlows(lead, lay, seg.stages, seg.sep, prev, IsChain(prev), width, false);
      var lines := LayUpTo(segments, k, width, true).value.lines;
      var x :| LinesUnder(lead, lines) == LinesUnder(lead, lay.lines) + x && Spaced(SegmentToks(seg.stages, seg.sep, false), x);
      SpacedConcat(CommandToks(segments, k - 1), LinesUnder(lead, lay.lines), SegmentToks(seg.stages, seg.sep, false), x);
    }
  }

  // The printed lines, with blanks in front of every one of them, are the command's pieces.
  lemma {:induction false} FormatLinesFlow(command: string, width: nat, lead: string)
    requires FormatLines(command, width, true).Some? && AllSpace(lead)
    ensures ScanSpec(command).Some? && SegmentsOk(ScanSpec(command).value)
    ensures var segments := ScanSpec(command).value;
            && Spaced(CommandToks(segments, |segments|), command)
            && Spaced(CommandToks(segments, |segments|), LinesUnder(lead, FormatLines(command, width, true).value))
  {
    hide ScanSpec, LayUpTo, Spaced, CommandToks, SegmentsOk, LinesUnder, HasSequence, HaveStages, AllSpace, Ink;
    CommandIsSpaced(command);
    ScanKeepsInk(command, true);
    LayUpToFlows(lead, ScanSpec(command).value, |ScanSpec(command).value|, width);
  }

  lemma {:induction false} NoLead(lines: seq<string>)
    ensures AllSpace("") && LinesUnder("", lines) == LinesText(lines)
  {
    hide LinesText;
    assert forall k :: 0 <= k < |lines| ==> "" + lines[k] == lines[k];
    assert Indented("", lines) == lines;
  }

  // Formatting a fence line keeps its pieces: the command and what the shell reads in the output
  // are the same pieces in the same order, and differ in the blanks between them only. Blanks
  // inside quotes, nested commands and words belong to a piece and stay as they were.
  lemma {:induction false} FormatKeepsPieces(command: string, width: nat) returns (pieces: seq<Tok>)
    requires FormatSpec(command, width, true).Some?
    ensures ScanSpec(command).Some? && SegmentsOk(ScanSpec(command).value)
    ensures pieces == CommandToks(ScanSpec(command).value, |ScanSpec(command).value|)
    ensures Spaced(pieces, command)
    ensures Spaced(pieces, Unfold(FormatSpec(command, width, true).value))
  {
    hide ScanSpec, FormatLines, Spaced, CommandToks, SegmentsOk, GoodLine, Unfold, LinesText, LinesUnder, AllSpace, Ink, LinesInk;
    var lines := FormatLines(command, width, true).value;
    NoLead(lines);
    FormatLinesFlow(command, width, "");
    pieces := CommandToks(ScanSpec(command).value, |ScanSpec(command).value|);
    FormatLinesInk(command, width, true);
    GoodPlain(lines);
    UnfoldIsText(lines);
  }
}
