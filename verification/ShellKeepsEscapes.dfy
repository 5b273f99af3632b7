// What the layout prints, read as the shell reads it: the characters its backslashes escape, stage by stage.
module ShellKeepsEscapes {
  import opened Text
  import opened ShellScan
  import opened ShellShape
  import opened ShellInk
  import opened ShellLayout
  import opened ShellConserve
  import opened ShellReading
  import opened ShellPieces
  import opened ShellEscapes
  import opened ShellTokens
  import opened ShellExact
  import opened ShellSpacing

  // ----- a stage and what stands behind it -----

  lemma {:induction false} PlainJoins(a: string, b: string)
    requires AllPlain(a) && AllPlain(b)
    ensures AllPlain(a + b)
  {
    hide IsPlain;
  }

  lemma {:induction false} SuffixPlain(sep: Sep)
    ensures AllPlain(Suffix(sep, true)) && AllPlain(Mark(sep))
    ensures sep != NoSep ==> Suffix(sep, true) != "" && Mark(sep) != ""
  {
  }

  // What is printed behind a stage is escaped, in its first character, by a lone backslash before it.
  lemma {:induction false} StageBehind(lead: string, text: string, x: string)
    requires AllPlain(lead) && TextTidy(text) && AllPlain(x)
    ensures Escapes(OPEN, lead + text + x) == Escapes(OPEN, text) + if LoneEnd(text) && x != "" then [x[0]] else ""
    ensures x != "" ==> Read(OPEN, lead + text + x) == OPEN
    ensures !LoneEnd(text) ==> Level(Read(OPEN, lead + text + x))
  {
    LoneIffWaiting(text);
    ReadPlain(OPEN, lead);
    hide Read, Escapes, LoneEnd, AllPlain;
    ReadConcat(OPEN, lead + text, x);
    ReadConcat(OPEN, lead, text);
    ReadPlainBehind(Read(OPEN, text), x);
    if x == "" {
      ReadNone(Read(OPEN, text));
    }
    assert "" + Escapes(OPEN, text) == Escapes(OPEN, text);
  }

  // What a stage's backslashes escape in the output, and in the command.
  function PrintedEscapes(ended: Ended): string {
    Escapes(OPEN, ended.0 + Suffix(ended.1, true))
  }

  function TypedEscapes(ended: Ended, gap: Gap): string {
    Escapes(OPEN, ended.0 + gap.1 + Mark(ended.1))
  }

  // ----- the command -----

  function CommandEscapes(flat: seq<Ended>, gaps: seq<Gap>): string
    requires |gaps| == |flat|
  {
    if flat == [] then "" else
      var n := |flat| - 1;
      CommandEscapes(flat[..n], gaps[..n]) + TypedEscapes(flat[n], gaps[n])
  }

  // Tidy texts, only the last without a separator.
  predicate Proper(flat: seq<Ended>) {
    && (forall k :: 0 <= k < |flat| ==> TextTidy(flat[k].0))
    && (forall k :: 0 <= k < |flat| - 1 ==> flat[k].1 != NoSep)
  }

  lemma {:induction false} RebuiltEscapes(flat: seq<Ended>, gaps: seq<Gap>)
    requires Proper(flat) && GapsHold(flat, gaps) && Blank(gaps)
    ensures Escapes(OPEN, Rebuilt(flat, gaps)) == CommandEscapes(flat, gaps)
    ensures Level(Read(OPEN, Rebuilt(flat, gaps)))
    ensures flat != [] && flat[|flat| - 1].1 != NoSep ==> Read(OPEN, Rebuilt(flat, gaps)) == OPEN
    ensures flat == [] ==> Read(OPEN, Rebuilt(flat, gaps)) == OPEN
  {
    hide Read, Escapes, LoneEnd, AllSpace, AllPlain, TextTidy, Mark, Rebuilt;
    if flat == [] {
      NothingRebuilt();
      ReadNone(OPEN);
    } else {
      var n := |flat| - 1;
      RebuiltEscapes(flat[..n], gaps[..n]);
      RebuiltLast(flat, gaps);
      var (ended, gap) := (flat[n], gaps[n]);
      var front := Rebuilt(flat[..n], gaps[..n]);
      var x := gap.1 + Mark(ended.1);
      SuffixPlain(ended.1);
      BlankIsPlain(gap.0);
      BlankIsPlain(gap.1);
      PlainJoins(gap.1, Mark(ended.1));
      Own3(gap.0, ended.0, gap.1, Mark(ended.1));
      StageBehind(gap.0, ended.0, x);
      StageBehind("", ended.0, x);
      ReadConcat(OPEN, front, gap.0 + ended.0 + x);
      assert n > 0 ==> flat[..n][n - 1] == flat[n - 1];
    }
  }

  lemma {:induction false} Own3(a: string, b: string, c: string, d: string)
    ensures a + b + c + d == a + b + (c + d) && "" + b + (c + d) == b + c + d
    ensures AllPlain("")
  {
  }

  // ----- what the layout prints -----

  // `x` escapes `escaped`, and leaves the reader where it started if a separator ends it.
  predicate Gains(x: string, escaped: string, sep: Sep) {
    Escapes(OPEN, x) == escaped && (sep != NoSep ==> Read(OPEN, x) == OPEN)
  }

  lemma {:induction false} GainsTwice(a: string, s: string, b: string, t: string, sep: Sep)
    requires Gains(a, s, Semi) && Gains(b, t, sep)
    ensures Gains(a + b, s + t, sep)
  {
    hide Read, Escapes;
    ReadConcat(OPEN, a, b);
  }

  lemma {:induction false} PlainGains(x: string)
    requires AllPlain(x)
    ensures Gains(x, "", Semi)
  {
    hide Read, Escapes;
    ReadPlain(OPEN, x);
  }

  lemma {:induction false} StageGains(lead: string, text: string, sep: Sep)
    requires AllPlain(lead) && TextTidy(text)
    ensures Gains(lead + text + Suffix(sep, true), PrintedEscapes((text, sep)), sep)
  {
    hide Read, Escapes, LoneEnd, AllPlain, TextTidy, Suffix;
    SuffixPlain(sep);
    Own3("", text, Suffix(sep, true), "");
    StageBehind(lead, text, Suffix(sep, true));
    StageBehind("", text, Suffix(sep, true));
    assert "" + text == text;
  }

  lemma {:induction false} PaddedPlain(gap: string, indent: nat)
    requires AllSpace(gap)
    ensures AllPlain(gap + Repeat(' ', indent)) && AllPlain(Repeat(' ', indent))
  {
    hide AllSpace, AllPlain;
    RepeatIsBlank(indent);
    IndentedGap(gap, indent);
    BlankIsPlain(gap + Repeat(' ', indent));
    BlankIsPlain(Repeat(' ', indent));
  }

  lemma {:induction false} LineGains(indent: nat, text: string, sep: Sep, gap: string)
    requires TextTidy(text) && AllSpace(gap)
    ensures Gains(gap + Line(indent, text, sep, true), PrintedEscapes((text, sep)), sep)
  {
    hide Gains, TextTidy, AllSpace, AllPlain, Suffix, PrintedEscapes;
    PaddedPlain(gap, indent);
    StageGains(gap + Repeat(' ', indent), text, sep);
    assert gap + (Repeat(' ', indent) + text + Suffix(sep, true)) == gap + Repeat(' ', indent) + text + Suffix(sep, true);
  }

  // The `k`th piece of a stage continues what the first pieces escape.
  lemma {:induction false} PieceContinues(stage: Stage, k: nat)
    requires FlagsOk(stage.text, stage.flags) && StageTidy(stage) && 0 < k <= |stage.flags|
    ensures 0 < stage.flags[k - 1] <= PieceEnd(stage, k) <= |stage.text|
    ensures var piece := stage.text[stage.flags[k - 1]..PieceEnd(stage, k)];
            var end := stage.text[..PieceEnd(stage, k)];
            && Read(OPEN, piece) == Read(OPEN, end)
            && Escapes(OPEN, end) == Escapes(OPEN, stage.text[..stage.flags[k - 1] - 1]) + Escapes(OPEN, piece)
  {
    PieceBounds(stage.text, stage.flags, k);
    BlankAtFlag(stage, k);
    hide Read, Escapes, FlagsOk, TextTidy, AllSpace, AllPlain;
    var text, start, end := stage.text, stage.flags[k - 1], PieceEnd(stage, k);
    var blank, piece := text[start - 1..start], text[start..end];
    var front := text[..start - 1];
    BlankIsPlain(blank);
    assert text[..end] == front + blank + piece;
    assert blank != "";
    ReadConcat(OPEN, front + blank, piece);
    ReadConcat(OPEN, front, blank);
    ReadPlain(Read(OPEN, front), blank);
    assert Escapes(OPEN, front) + "" == Escapes(OPEN, front);
  }

  lemma {:induction false} PiecesGain(indent: nat, stage: Stage, gap: string, k: nat)
    requires FlagsOk(stage.text, stage.flags) && StageTidy(stage) && 0 < k <= |stage.flags| && AllSpace(gap)
    ensures 0 < stage.flags[k - 1] <= |stage.text|
    ensures Gains(gap + AllText(Pieces(indent, "", stage, true, k)), Escapes(OPEN, stage.text[..stage.flags[k - 1] - 1]), Semi)
  {
    hide Read, Escapes, FlagsOk, TextTidy, AllSpace, AllPlain, PieceLine, EndsOpen, DropTail, AllText, StagePiece, Pieces, Level;
    PiecesStep(indent, stage, false, k);
    var before := Pieces(indent, "", stage, true, k - 1);
    var line := PieceLine(indent, "", stage, true, k - 1);
    AllTextAppend(before, [line]);
    OneLineText(line);
    PieceFlows(indent, stage, k - 1);
    PieceIs(stage, k - 1);
    PieceBounds(stage.text, stage.flags, k - 1);
    var at := if k == 1 then indent else indent + INDENT;
    var t := StagePiece(stage, k - 1, false).text;
    PaddedPlain(gap, at);
    SpaceIsBlank();
    BlankIsPlain(" ");
    if k == 1 {
      PiecesStep(indent, stage, false, 0);
      NoText();
      LevelBehind(gap + Repeat(' ', at), t, " ");
      PieceGlue(true, gap, "", Repeat(' ', at), t);
      assert "" + (gap + Repeat(' ', at)) == gap + Repeat(' ', at);
    } else {
      PiecesGain(indent, stage, gap, k - 1);
      PieceContinues(stage, k - 1);
      LevelBehind(Repeat(' ', at), t, " ");
      GainsTwice(gap + AllText(before), Escapes(OPEN, stage.text[..stage.flags[k - 2] - 1]),
                 Repeat(' ', at) + t + " ", Escapes(OPEN, t), Semi);
      ContinueGlue(gap, AllText(before), Repeat(' ', at), t);
    }
  }

  lemma {:induction false} ContinueGlue(gap: string, before: string, pad: string, text: string)
    ensures (gap + before) + (pad + text + " ") == gap + (before + (pad + text + " "))
  {
  }

  lemma {:induction false} PieceIs(stage: Stage, k: nat)
    requires FlagsOk(stage.text, stage.flags) && k < |stage.flags|
    ensures PieceStart(stage.flags, k) <= stage.flags[k] - 1 <= |stage.text|
    ensures PieceEnd(stage, k) == stage.flags[k] - 1
    ensures StagePiece(stage, k, false).text == stage.text[PieceStart(stage.flags, k)..stage.flags[k] - 1]
    ensures k == 0 ==> StagePiece(stage, k, false).text == stage.text[..stage.flags[0] - 1]
  {
    PieceBounds(stage.text, stage.flags, k);
    hide FlagsOk;
  }

  lemma {:induction false} LevelBehind(lead: string, text: string, x: string)
    requires AllPlain(lead) && Level(Read(OPEN, text)) && AllPlain(x) && x != ""
    ensures Gains(lead + text + x, Escapes(OPEN, text), Semi)
  {
    hide Read, Escapes, LoneEnd, AllPlain;
    LoneIffWaiting(text);
    StageBehind(lead, text, x);
    assert Escapes(OPEN, text) + "" == Escapes(OPEN, text);
  }

  lemma {:induction false} EscapesBehind(text: string, piece: string, head: string, end: string)
    requires Read(OPEN, piece) == Read(OPEN, text) && Escapes(OPEN, text) == head + Escapes(OPEN, piece)
    ensures Escapes(OPEN, text + end) == head + Escapes(OPEN, piece + end)
  {
    hide Read, Escapes;
    ReadConcat(OPEN, text, end);
    ReadConcat(OPEN, piece, end);
    Glued(head, Escapes(OPEN, piece), Escapes(Read(OPEN, piece), end));
  }

  lemma {:induction false} LastPieceAt(stage: Stage)
    requires FlagsOk(stage.text, stage.flags) && stage.flags != []
    ensures var start := stage.flags[|stage.flags| - 1];
            && 0 < start <= |stage.text| && PieceEnd(stage, |stage.flags|) == |stage.text|
            && stage.text[..|stage.text|] == stage.text && stage.text[start..|stage.text|] == stage.text[start..]
  {
    hide FlagsOk;
    PieceBounds(stage.text, stage.flags, |stage.flags|);
  }

  // What a stage escapes is what its pieces escape, one after the other.
  lemma {:induction false} LastPieceEscapes(stage: Stage, sep: Sep)
    requires FlagsOk(stage.text, stage.flags) && StageTidy(stage) && stage.flags != []
    ensures var start := stage.flags[|stage.flags| - 1];
            && 0 < start <= |stage.text| && TextTidy(stage.text[start..])
            && PrintedEscapes((stage.text, sep)) ==
               Escapes(OPEN, stage.text[..start - 1]) + PrintedEscapes((stage.text[start..], sep))
  {
    hide Suffix, Read, Escapes, FlagsOk, FlagsLevel, PieceEnd;
    LastPieceAt(stage);
    PieceContinues(stage, |stage.flags|);
    var start := stage.flags[|stage.flags| - 1];
    EscapesBehind(stage.text, stage.text[start..], Escapes(OPEN, stage.text[..start - 1]), Suffix(sep, true));
  }

  lemma {:induction false} WrappedGains(indent: nat, stage: Stage, sep: Sep, gap: string)
    requires FlagsOk(stage.text, stage.flags) && StageTidy(stage) && stage.flags != [] && AllSpace(gap)
    ensures var lines := Pieces(indent, "", stage, true, |stage.flags|) + [LastPiece(indent, stage, sep, true)];
            Gains(gap + LinesText(lines), PrintedEscapes((stage.text, sep)), sep)
  {
    hide FlagsOk, FlagsLevel, TextTidy, AllSpace, AllText, LinesText, Pieces, Suffix, EndsOpen, DropTail, Escapes, AllPlain,
         Gains, PrintedEscapes;
    var n := |stage.flags|;
    var front, last := Pieces(indent, "", stage, true, n), LastPiece(indent, stage, sep, true);
    LinesTextAppend(front, [last]);
    OneLineText(last);
    PieceBounds(stage.text, stage.flags, n);
    PiecesGain(indent, stage, gap, n);
    LastPieceEscapes(stage, sep);
    var start := stage.flags[n - 1];
    var piece, head := stage.text[start..], Escapes(OPEN, stage.text[..start - 1]);
    PaddedPlain("", indent + INDENT) by { SpaceIsBlank(); }
    StageGains(Repeat(' ', indent + INDENT), piece, sep);
    GainsTwice(gap + AllText(front), head, last, PrintedEscapes((piece, sep)), sep);
    Glued(gap, AllText(front), last);
  }

  lemma {:induction false} StageLinesGain(indent: nat, stage: Stage, sep: Sep, width: nat, gap: string)
    requires FlagsOk(stage.text, stage.flags) && StageTidy(stage) && AllSpace(gap)
    ensures Gains(gap + LinesText(StageLines(indent, "", stage, sep, width, true)), PrintedEscapes((stage.text, sep)), sep)
    ensures StageLines(indent, "", stage, sep, width, true) != []
  {
    hide FlagsOk, AllSpace, AllText, Pieces, LinesText, Line, LastPiece, Gains, TextTidy, FlagsLevel;
    if indent + |stage.text| + |Suffix(sep, true)| <= width || stage.flags == [] {
      LineGains(indent, stage.text, sep, gap);
      assert "" + stage.text == stage.text;
      OneLineText(Line(indent, stage.text, sep, true));
    } else {
      WrappedGains(indent, stage, sep, gap);
    }
  }

  // What the stages of a segment escape when printed.
  function StagesEscapes(stages: seq<Stage>, sep: Sep): string {
    if stages == [] then "" else
      var n := |stages| - 1;
      StagesEscapes(stages[..n], Pipe) + PrintedEscapes((stages[n].text, sep))
  }

  lemma {:induction false} StagesEscapesStep(stages: seq<Stage>, k: nat, sep: Sep)
    requires k < |stages|
    ensures StagesEscapes(stages[..k + 1], sep) == StagesEscapes(stages[..k], Pipe) + PrintedEscapes((stages[k].text, sep))
  {
    hide PrintedEscapes;
    assert stages[..k + 1][..k] == stages[..k];
  }

  lemma {:induction false} PipeGains(indent: nat, stages: seq<Stage>, sep: Sep, width: nat, gap: string, k: nat)
    requires StagesOk(stages) && StagesTidy(stages) && 0 < k <= |stages| && AllSpace(gap)
    ensures var last := if k == |stages| then sep else Pipe;
            Gains(gap + LinesText(PipeLines(indent, stages, sep, width, true, k)), StagesEscapes(stages[..k], last), last)
  {
    hide StageOk, FlagsOk, AllSpace, AllText, LinesText, StageLines, Settled, GoodLine, StagesEscapes, PrintedEscapes, StageTidy, Gains;
    var last := if k == |stages| then sep else Pipe;
    var at := if k == 1 then indent else indent + INDENT;
    StageFlags(stages, k - 1);
    StagesEscapesStep(stages, k - 1, last);
    var before := PipeLines(indent, stages, sep, width, true, k - 1);
    var own := StageLines(at, "", stages[k - 1], last, width, true);
    SpaceIsBlank();
    assert StageTidy(stages[k - 1]);
    StageLinesGain(at, stages[k - 1], last, width, if k == 1 then gap else "\n");
    LinesTextAppend(before, own);
    if k == 1 {
      NoText();
      assert "" + LinesText(own) == LinesText(own);
      NoStagesEscapes();
      assert stages[..0] == [];
      assert "" + PrintedEscapes((stages[0].text, last)) == PrintedEscapes((stages[0].text, last));
    } else {
      PipeGains(indent, stages, sep, width, gap, k - 1);
      PipeLinesInk(indent, stages, sep, width, true, k - 1);
      SettledText(before);
      AsSemi(gap + LinesText(before), StagesEscapes(stages[..k - 1], Pipe), Pipe);
      GainsTwice(gap + LinesText(before), StagesEscapes(stages[..k - 1], Pipe),
                 "\n" + LinesText(own), PrintedEscapes((stages[k - 1].text, last)), last);
      ShellSpacing.PipeGlue(gap, LinesText(before), LinesText(own));
    }
  }

  lemma {:induction false} AsSemi(x: string, escaped: string, sep: Sep)
    requires Gains(x, escaped, sep) && sep != NoSep
    ensures Gains(x, escaped, Semi)
  {
    hide Read, Escapes;
  }

  lemma {:induction false} NoStagesEscapes()
    ensures StagesEscapes([], Pipe) == ""
  {
  }

  lemma {:induction false} JoinGains(stages: seq<Stage>, sep: Sep, gap: string)
    requires StagesTidy(stages) && stages != [] && AllSpace(gap)
    ensures Gains(gap + JoinStages(stages) + Suffix(sep, true), StagesEscapes(stages, sep), sep)
    decreases |stages|
  {
    hide AllSpace, AllPlain, StagesEscapes, PrintedEscapes, TextTidy, FlagsLevel, Gains, JoinStages, Suffix;
    var n := |stages| - 1;
    StagesEscapesStep(stages, n, sep);
    assert stages[..n + 1] == stages;
    assert StageTidy(stages[n]);
    if n == 0 {
      BlankIsPlain(gap);
      StageGains(gap, stages[0].text, sep);
      JoinOne(stages);
      NoStagesEscapes();
      assert stages[..0] == [];
      assert "" + PrintedEscapes((stages[0].text, sep)) == PrintedEscapes((stages[0].text, sep));
    } else {
      JoinGains(stages[..n], Pipe, gap);
      JoinStagesLast(stages);
      SpaceIsBlank();
      BlankIsPlain(" ");
      StageGains(" ", stages[n].text, sep);
      var front := gap + JoinStages(stages[..n]) + Suffix(Pipe, true);
      AsSemi(front, StagesEscapes(stages[..n], Pipe), Pipe);
      GainsTwice(front, StagesEscapes(stages[..n], Pipe), " " + stages[n].text + Suffix(sep, true),
                 PrintedEscapes((stages[n].text, sep)), sep);
      PipeIs();
      BarGlue(gap, JoinStages(stages[..n]), stages[n].text, Suffix(sep, true));
    }
  }

  lemma {:induction false} PipeIs()
    ensures Suffix(Pipe, true) == " |"
  {
  }

  lemma {:induction false} BarGlue(gap: string, front: string, text: string, end: string)
    ensures (gap + front + " |") + (" " + text + end) == gap + (front + " | " + text) + end
  {
  }

  lemma {:induction false} JoinedGains(indent: nat, stages: seq<Stage>, sep: Sep, gap: string)
    requires StagesTidy(stages) && stages != [] && AllSpace(gap)
    ensures Gains(gap + LinesText([Line(indent, JoinStages(stages), sep, true)]), StagesEscapes(stages, sep), sep)
  {
    hide AllSpace, StagesEscapes, StageTidy, Gains, JoinStages, Suffix, LinesText;
    IndentedGap(gap, indent);
    JoinGains(stages, sep, gap + Repeat(' ', indent));
    OneLineText(Line(indent, JoinStages(stages), sep, true));
    assert gap + (Repeat(' ', indent) + JoinStages(stages) + Suffix(sep, true)) ==
           gap + Repeat(' ', indent) + JoinStages(stages) + Suffix(sep, true);
  }

  lemma {:induction false} StatementGains(indent: nat, stages: seq<Stage>, sep: Sep, width: nat, gap: string)
    requires StagesOk(stages) && StagesTidy(stages) && stages != [] && AllSpace(gap)
    ensures Gains(gap + LinesText(StatementLines(indent, stages, sep, width, true)), StagesEscapes(stages, sep), sep)
  {
    hide StageOk, FlagsOk, AllSpace, StagesEscapes, StageTidy, Gains, JoinStages, Suffix, LinesText, PipeLines, StageLines, Line, PrintedEscapes;
    if |stages| > 1 && indent + |JoinStages(stages)| + |Suffix(sep, true)| > width {
      PipeGains(indent, stages, sep, width, gap, |stages|);
      assert stages[..|stages|] == stages;
    } else if |stages| == 1 {
      StageFlags(stages, 0);
      assert StageTidy(stages[0]);
      StageLinesGain(indent, stages[0], sep, width, gap);
      StagesEscapesStep(stages, 0, sep);
      NoStagesEscapes();
      assert stages[..1] == stages && stages[..0] == [];
      assert "" + PrintedEscapes((stages[0].text, sep)) == PrintedEscapes((stages[0].text, sep));
    } else {
      JoinedGains(indent, stages, sep, gap);
    }
  }

  // ----- segments -----

  // `after` escapes `escaped` more than `before`.
  predicate Adds(before: seq<string>, after: seq<string>, escaped: string, sep: Sep) {
    && Escapes(OPEN, LinesText(after)) == Escapes(OPEN, LinesText(before)) + escaped
    && (sep != NoSep ==> Read(OPEN, LinesText(after)) == OPEN)
  }

  predicate Fresh(lines: seq<string>) {
    Read(OPEN, LinesText(lines)) == OPEN
  }

  lemma {:induction false} AddsText(before: seq<string>, after: seq<string>, x: string, escaped: string, sep: Sep)
    requires Fresh(before) && LinesText(after) == LinesText(before) + x && Gains(x, escaped, sep)
    ensures Adds(before, after, escaped, sep)
  {
    hide Read, Escapes, LinesText;
    ReadConcat(OPEN, LinesText(before), x);
  }

  lemma {:induction false} AddsLines(before: seq<string>, more: seq<string>, escaped: string, sep: Sep)
    requires Settled(before, true) && Fresh(before) && more != [] && Gains(BreakOf(before) + LinesText(more), escaped, sep)
    ensures Adds(before, before + more, escaped, sep)
  {
    hide LinesText, AllText, Settled, Gains, Adds, Fresh;
    LinesTextAppend(before, more);
    var x := BreakOf(before) + LinesText(more);
    if before == [] {
      NoText();
      NothingToUnfold();
      assert "" + LinesText(more) == LinesText(more) && "" + x == x;
    } else {
      SettledText(before);
      Glued(LinesText(before), "\n", LinesText(more));
    }
    AddsText(before, before + more, x, escaped, sep);
  }

  lemma {:induction false} AddsTail(before: seq<string>, more: string, escaped: string)
    requires before != [] && Fresh(before) && Gains(more, escaped, Semi)
    ensures Adds(before, AppendLast(before, more), escaped, Semi)
  {
    hide AllText, Gains, Adds, Fresh;
    var after := AppendLast(before, more);
    assert after[..|after| - 1] == before[..|before| - 1];
    Glued(AllText(before[..|before| - 1]), before[|before| - 1], more);
    AddsText(before, after, more, escaped, Semi);
  }

  lemma {:induction false} AddsTwice(a: seq<string>, b: seq<string>, c: seq<string>, s: string, t: string, sep: Sep)
    requires Adds(a, b, s, Semi) && Adds(b, c, t, sep)
    ensures Adds(a, c, s + t, sep)
  {
    hide Read, Escapes, LinesText;
    Glued(Escapes(OPEN, LinesText(a)), s, t);
  }

  lemma {:induction false} KeywordIsPlain(word: string)
    requires ParseKeyword(word).Some?
    ensures AllPlain(word) && AllPlain(" " + word)
  {
  }

  lemma {:induction false} KeywordAdds(lay: Lay, keyword: Keyword, word: string, stages: seq<Stage>, sep: Sep)
    requires LayOk(lay) && StagesTidy(stages) && stages != [] && ParseKeyword(word) == Some(keyword)
    requires Settled(lay.lines, true) && Fresh(lay.lines)
    requires KeywordDone(lay, keyword, word, JoinStages(stages), sep, true).Some?
    ensures var (lay', more) := KeywordDone(lay, keyword, word, JoinStages(stages), sep, true).value;
            && more == Goes(Some(keyword))
            && if more then Adds(lay.lines, lay'.lines, "", Semi)
               else Adds(lay.lines, lay'.lines, StagesEscapes(stages, sep), sep)
  {
    hide AllSpace, AllPlain, LinesText, Settled, Fresh, Adds, Gains, ParseKeyword, JoinStages, StageTidy, StagesEscapes, Line;
    BreakIsBlank(lay.lines);
    KeywordIsPlain(word);
    match keyword
    case Do | Then =>
      PlainGains(" " + word);
      AddsTail(lay.lines, " " + word, "");
    case Else =>
      ElseGains(lay.lines, INDENT * (|lay.stack| - 1));
    case Header =>
      JoinedGains(INDENT * |lay.stack|, stages, sep, BreakOf(lay.lines));
      AddsLines(lay.lines, [Line(INDENT * |lay.stack|, JoinStages(stages), sep, true)], StagesEscapes(stages, sep), sep);
    case Elif =>
      JoinedGains(INDENT * (|lay.stack| - 1), stages, sep, BreakOf(lay.lines));
      AddsLines(lay.lines, [Line(INDENT * (|lay.stack| - 1), JoinStages(stages), sep, true)], StagesEscapes(stages, sep), sep);
    case Done | Fi =>
      JoinedGains(INDENT * (|lay.stack| - 1), stages, sep, BreakOf(lay.lines));
      AddsLines(lay.lines, [Line(INDENT * (|lay.stack| - 1), JoinStages(stages), sep, true)], StagesEscapes(stages, sep), sep);
  }

  lemma {:induction false} ElseIsPlain(gap: string, indent: nat)
    requires AllSpace(gap)
    ensures AllPlain(gap + Line(indent, "else", NoSep, true))
  {
    KeywordIsPlain("else");
    PaddedPlain(gap, indent);
    hide AllSpace, AllPlain;
    PlainJoins(gap + Repeat(' ', indent), "else");
    assert gap + (Repeat(' ', indent) + "else" + "") == gap + Repeat(' ', indent) + "else";
  }

  lemma {:induction false} ElseGains(before: seq<string>, indent: nat)
    requires Settled(before, true) && Fresh(before)
    ensures Adds(before, before + [Line(indent, "else", NoSep, true)], "", Semi)
  {
    hide AllSpace, AllPlain, LinesText, Settled, Fresh, Adds, Gains, Line, BreakOf;
    BreakIsBlank(before);
    var line := Line(indent, "else", NoSep, true);
    OneLineText(line);
    ElseIsPlain(BreakOf(before), indent);
    PlainGains(BreakOf(before) + line);
    AddsLines(before, [line], "", Semi);
  }

  // The keyword and the blanks behind it are read without a trace.
  lemma {:induction false} KeywordRead(stage: Stage) returns (front: string)
    requires StageOk(stage) && ParseKeyword(FirstWord(stage.text)).Some?
    ensures stage.text == front + AfterWord(stage).text
    ensures front != "" && AllPlain(front) && Read(OPEN, front) == OPEN && Escapes(OPEN, front) == ""
  {
    var blank := BlankAfterWord(stage);
    AfterWordSlice(stage);
    KeywordIsPlain(FirstWord(stage.text));
    hide Read, Escapes, AllPlain, ParseKeyword, AllSpace, FirstWord, StageOk, AfterWord;
    BlankIsPlain(blank);
    front := FirstWord(stage.text) + blank;
    PlainJoins(FirstWord(stage.text), blank);
    ReadPlain(OPEN, front);
  }

  lemma {:induction false} BehindKeyword(front: string, rest: string, sep: Sep)
    requires Read(OPEN, front) == OPEN && Escapes(OPEN, front) == ""
    ensures Read(OPEN, front + rest) == Read(OPEN, rest)
    ensures PrintedEscapes((front + rest, sep)) == PrintedEscapes((rest, sep))
  {
    hide Read, Escapes, Suffix;
    ReadConcat(OPEN, front, rest);
    ReadConcat(OPEN, front, rest + Suffix(sep, true));
    Glued(front, rest, Suffix(sep, true));
    assert "" + Escapes(OPEN, rest + Suffix(sep, true)) == Escapes(OPEN, rest + Suffix(sep, true));
  }

  // Taking a keyword off the front changes nothing that is escaped.
  lemma {:induction false} KeywordTaken(stage: Stage)
    requires StageOk(stage) && StageTidy(stage) && ParseKeyword(FirstWord(stage.text)).Some?
    ensures StageTidy(AfterWord(stage))
    ensures forall sep :: PrintedEscapes((stage.text, sep)) == PrintedEscapes((AfterWord(stage).text, sep))
  {
    hide Read, Escapes, AllPlain, ParseKeyword, FirstWord, StageOk, LaterFlags, AfterWord, PrintedEscapes, FlagsLevel, Level;
    var front := KeywordRead(stage);
    var rest := AfterWord(stage).text;
    forall sep ensures PrintedEscapes((stage.text, sep)) == PrintedEscapes((rest, sep)) {
      BehindKeyword(front, rest, sep);
    }
    BehindKeyword(front, rest, NoSep);
    LaterLevel(stage, front);
  }

  lemma {:induction false} LaterLevel(stage: Stage, front: string)
    requires stage.text == front + AfterWord(stage).text && FlagsLevel(stage.text, stage.flags)
    requires StageOk(stage) && Read(OPEN, front) == OPEN
    ensures FlagsLevel(AfterWord(stage).text, AfterWord(stage).flags)
  {
    hide StageOk, FirstWord, LeadEnd, LaterFlags, Read;
    LaterFlagsLevel(stage.text, front, stage.flags);
    assert stage.text[|front|..] == AfterWord(stage).text;
    assert |stage.text| - |AfterWord(stage).text| == |front|;
  }

  lemma {:induction false} LaterFlagsLevel(text: string, front: string, flags: seq<nat>)
    requires front <= text && FlagsLevel(text, flags) && Read(OPEN, front) == OPEN
    ensures FlagsLevel(text[|front|..], LaterFlags(flags, |front|))
    decreases |flags|
  {
    if flags != [] {
      hide Read, Escapes, Level;
      assert FlagsLevel(text, flags[1..]);
      LaterFlagsLevel(text, front, flags[1..]);
      if flags[0] > |front| {
        var rest := text[|front|..];
        var f := flags[0] - |front|;
        assert text[..flags[0] - 1] == front + rest[..f - 1];
        ReadConcat(OPEN, front, rest[..f - 1]);
        var later := LaterFlags(flags[1..], |front|);
        assert LaterFlags(flags, |front|) == [f] + later;
      }
    }
  }

  lemma {:induction false} FirstEscapes(stages: seq<Stage>, rest: Stage, sep: Sep)
    requires stages != [] && forall s :: PrintedEscapes((stages[0].text, s)) == PrintedEscapes((rest.text, s))
    ensures StagesEscapes(stages, sep) == StagesEscapes(stages[0 := rest], sep)
    decreases |stages|
  {
    hide PrintedEscapes;
    var n := |stages| - 1;
    if n == 0 {
      assert stages[..0] == stages[0 := rest][..0] == [];
    } else {
      FirstEscapes(stages[..n], rest, Pipe);
      assert stages[0 := rest][..n] == stages[..n][0 := rest];
    }
  }

  lemma {:induction false} PlaceAdds(lay: Lay, stages: seq<Stage>, sep: Sep, prev: Sep, chain: bool, width: nat)
    requires LayOk(lay) && StagesOk(stages) && StagesTidy(stages) && stages != []
    requires GoodLines(lay.lines) && Settled(lay.lines, true) && Fresh(lay.lines)
    requires Place(lay, stages, sep, prev, chain, width, true).Some?
    ensures Adds(lay.lines, Place(lay, stages, sep, prev, chain, width, true).value.lines, StagesEscapes(stages, sep), sep)
    decreases |stages[0].text|, 1
  {
    hide ParseKeyword, JoinStages, StageOk, Adds, Gains, Fresh, GoodLine, KeywordDone, StatementLines, StatementIndent,
         FirstWord, Settled, PlaceRest, StagesEscapes, AfterWord, Grew, StageTidy, AllSpace;
    StageFlags(stages, 0);
    assert StageOk(stages[0]);
    AfterWordOk(stages[0]);
    var word := FirstWord(stages[0].text);
    var keyword := ParseKeyword(word);
    if keyword.None? {
      var indent := StatementIndent(lay, chain);
      BreakIsBlank(lay.lines);
      StatementGains(indent, stages, sep, width, BreakOf(lay.lines));
      StatementInk(indent, stages, sep, width, true);
      AddsLines(lay.lines, StatementLines(indent, stages, sep, width, true), StagesEscapes(stages, sep), sep);
    } else {
      KeywordAdds(lay, keyword.value, word, stages, sep);
      var (lay', more) := KeywordDone(lay, keyword.value, word, JoinStages(stages), sep, true).value;
      if more {
        KeywordInk(lay, keyword.value, word, stages, sep, true);
        GrewFacts(lay.lines, lay'.lines, Ink(word, true), true, true);
        PlaceRestAdds(lay', stages, sep, prev, width, lay.lines);
      }
    }
  }

  lemma {:induction false} PlaceRestAdds(lay: Lay, stages: seq<Stage>, sep: Sep, prev: Sep, width: nat, before: seq<string>)
    requires LayOk(lay) && lay.lines != [] && StagesOk(stages) && StagesTidy(stages) && stages != []
    requires GoodLines(lay.lines) && Settled(lay.lines, true)
    requires ParseKeyword(FirstWord(stages[0].text)).Some? && Adds(before, lay.lines, "", Semi)
    requires PlaceRest(lay, stages, sep, prev, width, true).Some?
    ensures Adds(before, PlaceRest(lay, stages, sep, prev, width, true).value.lines, StagesEscapes(stages, sep), sep)
    decreases |stages[0].text|, 0
  {
    hide ParseKeyword, StageOk, Adds, Gains, GoodLine, FirstWord, Settled, Place, StagesEscapes, AfterWord, StageTidy,
         PrintedEscapes, Suffix, Fresh;
    assert StageOk(stages[0]);
    assert StageTidy(stages[0]);
    AfterWordOk(stages[0]);
    KeywordTaken(stages[0]);
    AddsFresh(before, lay.lines, "");
    var rest := AfterWord(stages[0]);
    FirstEscapes(stages, rest, sep);
    var last := PlaceRest(lay, stages, sep, prev, width, true).value.lines;
    if rest.text == "" {
      NothingEscapes(stages[0 := rest], sep);
      SuffixPlain(sep);
      PlainGains(Suffix(sep, true));
      AddsTail(lay.lines, Suffix(sep, true), "");
      AddsTwice(before, lay.lines, last, "", "", Semi);
      assert "" + "" == "";
      AddsAny(before, last, "", sep);
    } else {
      PlaceAdds(lay, stages[0 := rest], sep, prev, false, width);
      AddsTwice(before, lay.lines, last, "", StagesEscapes(stages, sep), sep);
      assert "" + StagesEscapes(stages, sep) == StagesEscapes(stages, sep);
    }
  }

  lemma {:induction false} AddsFresh(before: seq<string>, after: seq<string>, escaped: string)
    requires Adds(before, after, escaped, Semi)
    ensures Fresh(after)
  {
  }

  lemma {:induction false} AddsAny(before: seq<string>, after: seq<string>, escaped: string, sep: Sep)
    requires Adds(before, after, escaped, Semi)
    ensures Adds(before, after, escaped, sep)
  {
    hide Read, Escapes;
  }

  lemma {:induction false} NothingEscapes(stages: seq<Stage>, sep: Sep)
    requires |stages| == 1 && stages[0].text == ""
    ensures StagesEscapes(stages, sep) == ""
  {
    SuffixPlain(sep);
    ReadPlain(OPEN, Suffix(sep, true));
    assert stages[..0] == [];
    assert "" + Suffix(sep, true) == Suffix(sep, true);
  }
}
