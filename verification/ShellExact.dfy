// Fence formatting changes blanks between the pieces of a command and nothing else.
module ShellExact {
  import opened Text
  import opened ShellScan
  import opened ShellShape
  import opened ShellLayout
  import opened ShellConserve
  import opened ShellFormat
  import opened ShellPieces
  import opened ShellTokens

  // ----- the command -----

  function EndedOf(stages: seq<Stage>, sep: Sep): seq<Ended> {
    if stages == [] then [] else Open(stages[..|stages| - 1]) + [(stages[|stages| - 1].text, sep)]
  }

  lemma {:induction false} RebuiltConcat(a: seq<Ended>, b: seq<Ended>, gaps: seq<Gap>)
    requires |gaps| == |a| + |b|
    ensures Rebuilt(a + b, gaps) == Rebuilt(a, gaps[..|a|]) + Rebuilt(b, gaps[|a|..])
    decreases |b|
  {
    if b == [] {
      assert a + b == a && gaps[..|a|] == gaps;
    } else {
      hide Rebuilt, Own;
      var n := |b| - 1;
      var front := gaps[..|gaps| - 1];
      FrontParts(gaps, |a|);
      WithoutLast(a, b);
      RebuiltConcat(a, b[..n], front);
      RebuiltLast(a + b, gaps);
      RebuiltLast(b, gaps[|a|..]);
      Glued(Rebuilt(a, gaps[..|a|]), Rebuilt(b[..n], front[|a|..]), Own(b[n], gaps[|gaps| - 1]));
    }
  }

  lemma {:induction false} FrontParts<T>(s: seq<T>, m: nat)
    requires m < |s|
    ensures var front := s[..|s| - 1];
            && front[..m] == s[..m] && front[m..] == s[m..][..|s| - m - 1]
            && s[m..][|s| - m - 1] == s[|s| - 1]
  {
  }

  lemma {:induction false} WithoutLast<T>(a: seq<T>, b: seq<T>)
    requires b != []
    ensures (a + b)[..|a + b| - 1] == a + b[..|b| - 1] && (a + b)[|a + b| - 1] == b[|b| - 1]
  {
  }

  function Own(ended: Ended, gap: Gap): string {
    gap.0 + ended.0 + gap.1 + Mark(ended.1)
  }

  lemma {:induction false} RebuiltLast(flat: seq<Ended>, gaps: seq<Gap>)
    requires |gaps| == |flat| > 0
    ensures var n := |flat| - 1; Rebuilt(flat, gaps) == Rebuilt(flat[..n], gaps[..n]) + Own(flat[n], gaps[n])
  {
    hide Mark;
  }

  lemma {:induction false} Glued(a: string, b: string, c: string)
    ensures (a + b) + c == a + (b + c)
  {
  }

  lemma {:induction false} RebuiltStages(stages: seq<Stage>, sep: Sep, gaps: seq<Gap>)
    requires |gaps| == |stages|
    ensures Rebuilt(EndedOf(stages, sep), gaps) == Portion(stages, sep, gaps)
    decreases |stages|
  {
    if stages == [] {
    } else {
      hide Mark, Rebuilt;
      var n := |stages| - 1;
      RebuiltStages(stages[..n], Pipe, gaps[..n]);
      assert EndedOf(stages[..n], Pipe) == Open(stages[..n]);
      assert gaps == gaps[..n] + [gaps[n]];
      RebuiltPush(Open(stages[..n]), gaps[..n], (stages[n].text, sep), gaps[n]);
    }
  }

  lemma {:induction false} FlatSpaced(segments: seq<Segment>, k: nat, gaps: seq<Gap>)
    requires SegmentsOk(segments) && k <= |segments| && |gaps| == |Flat(segments[..k])| && Blank(gaps)
    ensures Spaced(CommandToks(segments, k), Rebuilt(Flat(segments[..k]), gaps))
  {
    hide Spaced, Rebuilt, AllSpace, StageOk, SegmentToks;
    if k == 0 {
      NothingRebuilt();
      NothingSpaced();
      assert segments[..0] == [];
    } else {
      var seg := segments[k - 1];
      assert SegmentOk(seg);
      FlatStep(segments, k);
      var front := Flat(segments[..k - 1]);
      RebuiltConcat(front, EndedOf(seg.stages, seg.sep), gaps);
      var own := gaps[|front|..];
      RebuiltStages(seg.stages, seg.sep, own);
      FlatSpaced(segments, k - 1, gaps[..|front|]);
      SegmentInPortion(seg.stages, seg.sep, false, own);
      SpacedConcat(CommandToks(segments, k - 1), Rebuilt(front, gaps[..|front|]),
                   SegmentToks(seg.stages, seg.sep, false), Portion(seg.stages, seg.sep, own));
    }
  }

  lemma {:induction false} NothingRebuilt()
    ensures Rebuilt([], []) == "" && Flat([]) == []
  {
  }

  lemma {:induction false} FlatStep(segments: seq<Segment>, k: nat)
    requires 0 < k <= |segments|
    ensures Flat(segments[..k]) == Flat(segments[..k - 1]) + EndedOf(segments[k - 1].stages, segments[k - 1].sep)
    ensures |EndedOf(segments[k - 1].stages, segments[k - 1].sep)| == |segments[k - 1].stages|
  {
    hide Open;
    assert segments[..k][..k - 1] == segments[..k - 1];
  }

  // A scanned command is its pieces in order, with blanks.
  lemma {:induction false} CommandIsSpaced(command: string)
    requires PlainLine(command) && ScanSpec(command).Some?
    ensures SegmentsOk(ScanSpec(command).value)
    ensures Spaced(CommandToks(ScanSpec(command).value, |ScanSpec(command).value|), command)
  {
    hide ScanSpec, SegmentsOk, Spaced, Flat, Rebuilt, CommandToks, Blank, AllSpace, ScanGaps;
    ScanShaped(command);
    var segments := ScanSpec(command).value;
    var tail := ScanKeepsText(command);
    var gaps := ScanGaps(command);
    assert segments[..|segments|] == segments;
    FlatSpaced(segments, |segments|, gaps);
    SpacedBlank(CommandToks(segments, |segments|), Rebuilt(Flat(segments), gaps), tail);
  }

  // ----- the lines -----

  // Lines that another line follows, continuations undone.
  function AllText(lines: seq<string>): string {
    if lines == [] then "" else
      var last := lines[|lines| - 1];
      AllText(lines[..|lines| - 1]) + if EndsOpen(last) then DropTail(last) else last + "\n"
  }

  function LinesText(lines: seq<string>): string {
    if lines == [] then "" else AllText(lines[..|lines| - 1]) + lines[|lines| - 1]
  }

  lemma {:induction false} AllTextAppend(a: seq<string>, b: seq<string>)
    ensures AllText(a + b) == AllText(a) + AllText(b)
  {
    hide DropTail, EndsOpen;
    if b == [] {
      assert a + b == a;
    } else {
      var front, last := b[..|b| - 1], b[|b| - 1];
      assert (a + b)[..|a + b| - 1] == a + front;
      AllTextAppend(a, front);
    }
  }

  lemma {:induction false} LinesTextAppend(a: seq<string>, b: seq<string>)
    requires b != []
    ensures LinesText(a + b) == AllText(a) + LinesText(b)
  {
    hide AllText;
    var front := b[..|b| - 1];
    assert (a + b)[..|a + b| - 1] == a + front;
    AllTextAppend(a, front);
  }

  lemma {:induction false} OneLineText(line: string)
    ensures LinesText([line]) == line
    ensures AllText([line]) == if EndsOpen(line) then DropTail(line) else line + "\n"
  {
    assert [line][..0] == [];
  }

  lemma {:induction false} SettledText(lines: seq<string>)
    requires lines != [] && Settled(lines, true)
    ensures AllText(lines) == LinesText(lines) + "\n"
  {
    hide AllText, DropTail;
    AllTextLast(lines);
  }

  lemma {:induction false} AllTextLast(lines: seq<string>)
    requires lines != []
    ensures var last := lines[|lines| - 1];
            AllText(lines) == AllText(lines[..|lines| - 1]) + if EndsOpen(last) then DropTail(last) else last + "\n"
  {
  }

  // The shell reads the joined lines as this text.
  lemma {:induction false} UnfoldIsText(lines: seq<string>)
    requires forall k :: 0 <= k < |lines| ==> Without(lines[k], '\n')
    ensures Unfold(Join(lines, "\n")) == LinesText(lines)
  {
    hide LinesText, Unfold, DropTail, EndsOpen;
    if lines == [] {
      NothingToUnfold();
    } else if |lines| == 1 {
      assert lines == [lines[0]];
      OneLineText(lines[0]);
      UnfoldLine(lines[0]);
    } else {
      var rest := lines[1..];
      assert lines == [lines[0]] + rest;
      UnfoldIsText(rest);
      FirstLineText(lines[0], Join(rest, "\n"));
      LinesTextAppend([lines[0]], rest);
      OneLineText(lines[0]);
    }
  }

  lemma {:induction false} NothingToUnfold()
    ensures Unfold("") == "" && LinesText([]) == "" && Join([], "\n") == ""
  {
  }

  lemma {:induction false} FirstLineText(line: string, rest: string)
    requires Without(line, '\n')
    ensures Unfold(line + "\n" + rest) == (if EndsOpen(line) then DropTail(line) else line + "\n") + Unfold(rest)
  {
    hide Unfold;
    UnfoldContinuation(rest);
    if EndsOpen(line) {
      var front := line[..|line| - 1];
      assert line + "\n" + rest == front + ("\\\n" + rest);
      UnfoldConcat(front, "\\\n" + rest);
      UnfoldLine(front);
    } else {
      assert line + "\n" + rest == line + ("\n" + rest);
      UnfoldConcat(line, "\n" + rest);
      UnfoldLine(line);
      Glued(line, "\n", Unfold(rest));
    }
  }

  // ----- indented lines -----

  // The same, with `lead` in front of every line.
  function AllUnder(lead: string, lines: seq<string>): string {
    AllText(Indented(lead, lines))
  }

  function LinesUnder(lead: string, lines: seq<string>): string {
    LinesText(Indented(lead, lines))
  }

  lemma {:induction false} IndentedConcat(lead: string, a: seq<string>, b: seq<string>)
    ensures Indented(lead, a + b) == Indented(lead, a) + Indented(lead, b)
  {
  }

  lemma {:induction false} AllUnderAppend(lead: string, a: seq<string>, b: seq<string>)
    ensures AllUnder(lead, a + b) == AllUnder(lead, a) + AllUnder(lead, b)
    ensures b != [] ==> LinesUnder(lead, a + b) == AllUnder(lead, a) + LinesUnder(lead, b)
  {
    hide AllText, LinesText;
    IndentedConcat(lead, a, b);
    AllTextAppend(Indented(lead, a), Indented(lead, b));
    if b != [] {
      LinesTextAppend(Indented(lead, a), Indented(lead, b));
    }
  }

  lemma {:induction false} LeadKeepsEnd(lead: string, line: string)
    requires AllSpace(lead)
    ensures EndsOpen(lead + line) <==> EndsOpen(line)
    ensures DropTail(lead + line) == lead + DropTail(line)
  {
    assert !IsSpace('\\');
    hide IsSpace;
  }

  lemma {:induction false} OneLineUnder(lead: string, line: string)
    requires AllSpace(lead)
    ensures LinesUnder(lead, [line]) == lead + line
    ensures AllUnder(lead, [line]) == lead + if EndsOpen(line) then DropTail(line) else line + "\n"
  {
    hide EndsOpen, DropTail, AllSpace;
    LeadKeepsEnd(lead, line);
    assert Indented(lead, [line]) == [lead + line];
    OneLineText(lead + line);
    Glued(lead, line, "\n");
  }

  lemma {:induction false} NothingUnder(lead: string)
    ensures AllUnder(lead, []) == "" && LinesUnder(lead, []) == ""
  {
    assert Indented(lead, []) == [];
  }

  lemma {:induction false} SettledUnder(lead: string, lines: seq<string>)
    requires AllSpace(lead) && lines != [] && Settled(lines, true)
    ensures AllUnder(lead, lines) == LinesUnder(lead, lines) + "\n"
  {
    hide AllText, LinesText, DropTail, AllSpace, EndsOpen;
    LeadKeepsEnd(lead, lines[|lines| - 1]);
    SettledText(Indented(lead, lines));
  }

  // ----- one stage -----

  lemma {:induction false} RepeatIsBlank(n: nat)
    ensures AllSpace(Repeat(' ', n))
  {
  }

  // A separator as the layout prints it.
  lemma {:induction false} SuffixSpaced(toks: seq<Tok>, s: string, sep: Sep)
    requires Spaced(toks, s)
    ensures Spaced(toks + SepToks(sep), s + Suffix(sep, true))
  {
    hide Spaced, Suffix, Mark, AllSpace, SepToks;
    var gap := SuffixParts(sep);
    SepInText(toks, s, gap, sep);
    Glued(s, gap, Mark(sep));
  }

  lemma {:induction false} SuffixParts(sep: Sep) returns (gap: string)
    ensures AllSpace(gap) && Suffix(sep, true) == gap + Mark(sep)
  {
    SpaceIsBlank();
    hide AllSpace;
    gap := if sep == NoSep || sep == Semi then "" else " ";
  }

  lemma {:induction false} IndentedGap(gap: string, indent: nat)
    requires AllSpace(gap)
    ensures AllSpace(gap + Repeat(' ', indent))
  {
    hide AllSpace;
    RepeatIsBlank(indent);
    AllSpaceJoins(gap, Repeat(' ', indent));
  }

  lemma {:induction false} WholeLine(indent: nat, stage: Stage, sep: Sep, after: bool, gap: string)
    requires FlagsOk(stage.text, stage.flags) && AllSpace(gap) && (after ==> gap != "")
    ensures Spaced(WholeStage(stage, after) + SepToks(sep), gap + Line(indent, "" + stage.text, sep, true))
  {
    hide Spaced, FlagsOk, AllSpace, WholeStage, Suffix;
    var wide := gap + Repeat(' ', indent);
    IndentedGap(gap, indent);
    StageInText(stage, after, wide);
    SuffixSpaced(WholeStage(stage, after), wide + stage.text, sep);
    assert "" + stage.text == stage.text;
    assert gap + (Repeat(' ', indent) + stage.text + Suffix(sep, true)) == wide + stage.text + Suffix(sep, true);
  }

  // The line of the `k`-th piece, with its continuation undone.
  lemma {:induction false} PieceFlows(indent: nat, stage: Stage, k: nat)
    requires FlagsOk(stage.text, stage.flags) && k < |stage.flags|
    ensures var line := PieceLine(indent, "", stage, true, k);
            var at := if k == 0 then indent else indent + INDENT;
            && EndsOpen(line)
            && DropTail(line) == Repeat(' ', at) + StagePiece(stage, k, false).text + " "
  {
    PieceBounds(stage.text, stage.flags, k);
    hide FlagsOk, IsSpace;
    var at := if k == 0 then indent else indent + INDENT;
    var piece := stage.text[PieceStart(stage.flags, k)..stage.flags[k] - 1];
    var line := PieceLine(indent, "", stage, true, k);
    assert "" + piece + " \\" == piece + " \\";
    assert line == (Repeat(' ', at) + piece + " ") + "\\";
  }

  lemma {:induction false} PiecesFlow(indent: nat, stage: Stage, after: bool, gap: string, lead: string, k: nat)
    requires FlagsOk(stage.text, stage.flags) && k <= |stage.flags|
    requires AllSpace(lead) && AllSpace(gap) && (after ==> gap != "")
    ensures k > 0 ==> Spaced(StageToks(stage, after, k), gap + AllUnder(lead, Pieces(indent, "", stage, true, k)))
    ensures k == 0 ==> AllUnder(lead, Pieces(indent, "", stage, true, k)) == ""
  {
    hide Spaced, FlagsOk, AllSpace, PieceLine, EndsOpen, DropTail, AllUnder, StagePiece, Pieces, StageToks;
    PiecesStep(indent, stage, after, k);
    if k == 0 {
      NothingUnder(lead);
    } else {
      var before := Pieces(indent, "", stage, true, k - 1);
      var line := PieceLine(indent, "", stage, true, k - 1);
      PiecesFlow(indent, stage, after, gap, lead, k - 1);
      AllUnderAppend(lead, before, [line]);
      OneLineUnder(lead, line);
      PieceFlows(indent, stage, k - 1);
      var at := if k == 1 then indent else indent + INDENT;
      var pad := lead + Repeat(' ', at);
      var t := StagePiece(stage, k - 1, after);
      PieceAfter(stage, k - 1, after);
      IndentedGap(lead, at);
      AllSpaceJoins(gap, pad);
      var s := if k == 1 then "" else gap + AllUnder(lead, before);
      if k == 1 {
        PiecesStep(indent, stage, after, 0);
        NothingSpaced();
      }
      SpacedPush(StageToks(stage, after, k - 1), s, if k == 1 then gap + pad else pad, t);
      SpaceIsBlank();
      SpacedBlank(StageToks(stage, after, k), s + (if k == 1 then gap + pad else pad) + t.text, " ");
      PieceGlue(k == 1, gap, AllUnder(lead, before), pad, t.text);
      FourGlue(lead, Repeat(' ', at), t.text, " ");
    }
  }

  lemma {:induction false} PiecesStep(indent: nat, stage: Stage, after: bool, k: nat)
    requires FlagsOk(stage.text, stage.flags) && k <= |stage.flags|
    ensures Pieces(indent, "", stage, true, k) ==
            if k == 0 then []
            else Pieces(indent, "", stage, true, k - 1) + [PieceLine(indent, "", stage, true, k - 1)]
    ensures StageToks(stage, after, k) ==
            if k == 0 then [] else StageToks(stage, after, k - 1) + [StagePiece(stage, k - 1, after)]
  {
    hide FlagsOk, PieceLine, StagePiece;
  }

  lemma {:induction false} PieceAfter(stage: Stage, k: nat, after: bool)
    requires FlagsOk(stage.text, stage.flags) && k <= |stage.flags|
    ensures StagePiece(stage, k, after) == Tok(StagePiece(stage, k, false).text, k > 0 || after)
  {
    hide FlagsOk;
  }

  lemma {:induction false} PieceGlue(first: bool, gap: string, before: string, pad: string, text: string)
    ensures first && before == "" ==> "" + (gap + pad) + text + " " == gap + (before + (pad + text + " "))
    ensures (gap + before) + pad + text + " " == gap + (before + (pad + text + " "))
  {
  }

  lemma {:induction false} NoText()
    ensures AllText([]) == ""
  {
  }

  lemma {:induction false} SpaceIsBlank()
    ensures AllSpace(" ") && AllSpace("\n") && AllSpace("")
  {
  }

  lemma {:induction false} WrappedStage(indent: nat, stage: Stage, sep: Sep, after: bool, gap: string, lead: string)
    requires FlagsOk(stage.text, stage.flags) && stage.flags != []
    requires AllSpace(lead) && AllSpace(gap) && (after ==> gap != "")
    ensures var lines := Pieces(indent, "", stage, true, |stage.flags|) + [LastPiece(indent, stage, sep, true)];
            Spaced(WholeStage(stage, after) + SepToks(sep), gap + LinesUnder(lead, lines))
  {
    hide Spaced, FlagsOk, AllSpace, AllUnder, LinesUnder, Pieces, Suffix, EndsOpen, DropTail, StageToks;
    var n := |stage.flags|;
    WholeStageLast(stage, after);
    var front, last := Pieces(indent, "", stage, true, n), LastPiece(indent, stage, sep, true);
    PiecesFlow(indent, stage, after, gap, lead, n);
    AllUnderAppend(lead, front, [last]);
    OneLineUnder(lead, last);
    PieceBounds(stage.text, stage.flags, n);
    var t := StagePiece(stage, n, after);
    var pad := lead + Repeat(' ', indent + INDENT);
    IndentedGap(lead, indent + INDENT);
    SpacedPush(StageToks(stage, after, n), gap + AllUnder(lead, front), pad, t);
    SuffixSpaced(WholeStage(stage, after), gap + AllUnder(lead, front) + pad + t.text, sep);
    assert lead + last == pad + t.text + Suffix(sep, true) by {
      FourGlue(lead, Repeat(' ', indent + INDENT), t.text, Suffix(sep, true));
    }
    LastGlue(gap, AllUnder(lead, front), pad, t.text, Suffix(sep, true));
  }

  lemma {:induction false} FourGlue(lead: string, pad: string, text: string, end: string)
    ensures lead + (pad + text + end) == lead + pad + text + end
  {
  }

  lemma {:induction false} WholeStageLast(stage: Stage, after: bool)
    requires FlagsOk(stage.text, stage.flags)
    ensures var n := |stage.flags|;
            WholeStage(stage, after) == StageToks(stage, after, n) + [StagePiece(stage, n, after)]
  {
    hide FlagsOk, StagePiece;
  }

  lemma {:induction false} LastGlue(gap: string, before: string, pad: string, text: string, end: string)
    ensures gap + before + pad + text + end == gap + (before + (pad + text + end))
  {
  }

  // A stage is printed as its pieces, whatever blanks stand in front of every line.
  lemma {:induction false} StageFlows(indent: nat, stage: Stage, sep: Sep, width: nat, after: bool, gap: string, lead: string)
    requires FlagsOk(stage.text, stage.flags) && AllSpace(lead) && AllSpace(gap) && (after ==> gap != "")
    ensures Spaced(WholeStage(stage, after) + SepToks(sep),
                   gap + LinesUnder(lead, StageLines(indent, "", stage, sep, width, true)))
    ensures StageLines(indent, "", stage, sep, width, true) != []
  {
    hide Spaced, FlagsOk, AllSpace, LinesUnder, Pieces, Line, LastPiece, WholeStage;
    if indent + |stage.text| + |Suffix(sep, true)| <= width || stage.flags == [] {
      AllSpaceJoins(gap, lead);
      WholeLine(indent, stage, sep, after, gap + lead);
      OneLineUnder(lead, Line(indent, "" + stage.text, sep, true));
      Glued(gap, lead, Line(indent, "" + stage.text, sep, true));
    } else {
      WrappedStage(indent, stage, sep, after, gap, lead);
    }
  }
}
