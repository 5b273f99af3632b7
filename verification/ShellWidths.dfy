// What the width does: a statement that fits stays on one line, and a line is too wide only when it
// prints a single piece, which has no flag to be cut at.
module ShellWidths {
  import opened Text
  import opened ShellScan
  import opened ShellShape
  import opened ShellLayout
  import opened ShellIndents

  predicate IsTail(tail: string, fence: bool) {
    tail == " \\" || exists sep :: tail == Suffix(sep, fence)
  }

  // The line prints one piece of a stage and nothing else of the command.
  predicate Prints(line: string, stage: Stage, k: nat, indent: nat, bar: bool, tail: string) {
    k <= |stage.flags| && line == Repeat(' ', indent) + (if bar then "| " else "") + PieceOf(stage, k) + tail
  }

  ghost predicate OnePiece(line: string, stage: Stage, fence: bool) {
    exists k, indent, bar, tail :: IsTail(tail, fence) && Prints(line, stage, k, indent, bar, tail)
  }

  // No line is wider than `width`, unless it prints a single piece of one of the stages.
  ghost predicate NarrowOrPiece(lines: seq<string>, stages: seq<Stage>, width: nat, fence: bool) {
    forall k :: 0 <= k < |lines| && |lines[k]| > width ==> exists j :: 0 <= j < |stages| && OnePiece(lines[k], stages[j], fence)
  }

  lemma {:induction false} LineSize(indent: nat, text: string, sep: Sep, fence: bool)
    ensures |Line(indent, text, sep, fence)| == indent + |text| + |Suffix(sep, fence)|
  {
    hide Suffix;
  }

  lemma {:induction false} LinePrints(indent: nat, bar: bool, stage: Stage, k: nat, sep: Sep, fence: bool)
    requires k <= |stage.flags|
    ensures OnePiece(Line(indent, (if bar then "| " else "") + PieceOf(stage, k), sep, fence), stage, fence)
  {
    hide PieceOf, Suffix;
    var prefix := if bar then "| " else "";
    var text := PieceOf(stage, k);
    assert Repeat(' ', indent) + (prefix + text) + Suffix(sep, fence) == Repeat(' ', indent) + prefix + text + Suffix(sep, fence);
    assert IsTail(Suffix(sep, fence), fence);
    assert Prints(Line(indent, prefix + text, sep, fence), stage, k, indent, bar, Suffix(sep, fence));
  }

  lemma {:induction false} PiecePrints(indent: nat, bar: bool, stage: Stage, fence: bool, k: nat)
    requires StageOk(stage) && k < |stage.flags|
    ensures OnePiece(PieceLine(indent, if bar then "| " else "", stage, fence, k), stage, fence)
  {
    hide PieceOf, FlagsOk, IsSpace;
    var prefix := if bar then "| " else "";
    PieceText(indent, prefix, stage, fence, k);
    var line, text := PieceLine(indent, prefix, stage, fence, k), PieceOf(stage, k);
    assert IsTail(" \\", fence);
    if k == 0 {
      assert line == Repeat(' ', indent) + prefix + text + " \\" by { Regroup(Repeat(' ', indent), prefix, text, " \\"); }
      assert Prints(line, stage, k, indent, bar, " \\");
    } else {
      assert line == Repeat(' ', indent + 2) + "" + text + " \\" by { Regroup(Repeat(' ', indent + 2), "", text, " \\"); }
      assert Prints(line, stage, k, indent + 2, false, " \\");
    }
  }

  lemma {:induction false} Regroup(a: string, b: string, c: string, d: string)
    ensures a + (b + c + d) + "" == a + b + c + d
    ensures "" + c + d == c + d
  {
  }

  lemma {:induction false} PiecesPrint(indent: nat, bar: bool, stage: Stage, fence: bool, n: nat)
    requires StageOk(stage) && n <= |stage.flags|
    ensures var lines := Pieces(indent, if bar then "| " else "", stage, fence, n);
            |lines| == n && forall k :: 0 <= k < n ==> OnePiece(lines[k], stage, fence)
  {
    hide OnePiece, PieceLine, StageOk;
    if n > 0 {
      PiecesPrint(indent, bar, stage, fence, n - 1);
      PiecePrints(indent, bar, stage, fence, n - 1);
    }
  }

  lemma {:induction false} LastPrints(indent: nat, stage: Stage, sep: Sep, fence: bool)
    requires StageOk(stage) && stage.flags != []
    ensures OnePiece(LastPiece(indent, stage, sep, fence), stage, fence)
  {
    var n := |stage.flags|;
    PieceBounds(stage.text, stage.flags, n);
    assert stage.text[PieceStart(stage.flags, n)..] == PieceOf(stage, n);
    hide OnePiece, PieceOf, FlagsOk, IsSpace, Line;
    assert "" + PieceOf(stage, n) == PieceOf(stage, n);
    LinePrints(indent + INDENT, false, stage, n, sep, fence);
  }

  // A stage is on one line exactly when it fits or has no flags.
  lemma {:induction false} StageOneLine(indent: nat, prefix: string, stage: Stage, sep: Sep, width: nat, fence: bool)
    requires StageOk(stage)
    ensures var whole := Line(indent, prefix + stage.text, sep, fence);
            if |whole| <= width || stage.flags == [] then StageLines(indent, prefix, stage, sep, width, fence) == [whole]
            else |StageLines(indent, prefix, stage, sep, width, fence)| == |stage.flags| + 1
  {
    LineSize(indent, prefix + stage.text, sep, fence);
    PiecesCount(indent, prefix, stage, fence, |stage.flags|);
    hide Line, FlagsOk, Suffix, Pieces, LastPiece;
  }

  lemma {:induction false} PiecesCount(indent: nat, prefix: string, stage: Stage, fence: bool, n: nat)
    requires StageOk(stage) && n <= |stage.flags|
    ensures |Pieces(indent, prefix, stage, fence, n)| == n
  {
    hide PieceLine, StageOk;
    if n > 0 {
      PiecesCount(indent, prefix, stage, fence, n - 1);
    }
  }

  lemma {:induction false} StageNarrow(indent: nat, bar: bool, stage: Stage, sep: Sep, width: nat, fence: bool)
    requires StageOk(stage)
    ensures var lines := StageLines(indent, if bar then "| " else "", stage, sep, width, fence);
            forall k :: 0 <= k < |lines| && |lines[k]| > width ==> OnePiece(lines[k], stage, fence)
  {
    var prefix := if bar then "| " else "";
    StageOneLine(indent, prefix, stage, sep, width, fence);
    StageLinesAre(indent, prefix, stage, sep, width, fence);
    if stage.flags == [] {
      assert PieceOf(stage, 0) == stage.text;
      LinePrints(indent, bar, stage, 0, sep, fence);
    } else {
      hide OnePiece, Line, Pieces, LastPiece, StageLines, StageOk, FlagsOk;
      PiecesPrint(indent, bar, stage, fence, |stage.flags|);
      LastPrints(indent, stage, sep, fence);
    }
  }

  lemma {:induction false} PipeNarrow(indent: nat, stages: seq<Stage>, sep: Sep, width: nat, fence: bool, n: nat)
    requires StagesOk(stages) && n <= |stages|
    ensures NarrowOrPiece(PipeLines(indent, stages, sep, width, fence, n), stages, width, fence)
    ensures |PipeLines(indent, stages, sep, width, fence, n)| >= n
  {
    hide OnePiece, StageLines, StageOk, FlagsOk;
    if n > 0 {
      PipeNarrow(indent, stages, sep, width, fence, n - 1);
      PipeNext(indent, stages, sep, width, fence, n);
      var own := if n == 1 then indent else indent + INDENT;
      var suffix := if n == |stages| then sep else if fence then Pipe else NoSep;
      StageNarrow(own, !(n == 1 || fence), stages[n - 1], suffix, width, fence);
      StageOneLine(own, if n == 1 || fence then "" else "| ", stages[n - 1], suffix, width, fence);
    }
  }

  lemma {:induction false} OneJoined(stage: Stage)
    ensures JoinStages([stage]) == stage.text
  {
    assert Texts([stage]) == [stage.text];
  }

  // A statement is on one line exactly when it fits there or cannot be cut; and otherwise a line is
  // wider than the width only when it prints a single piece.
  lemma {:induction false} StatementWidth(indent: nat, stages: seq<Stage>, sep: Sep, width: nat, fence: bool)
    requires StagesOk(stages) && stages != []
    ensures var lines, whole := StatementLines(indent, stages, sep, width, fence), Line(indent, JoinStages(stages), sep, fence);
            && (|lines| == 1 <==> |whole| <= width || (|stages| == 1 && stages[0].flags == []))
            && (|lines| == 1 ==> lines == [whole])
            && NarrowOrPiece(lines, stages, width, fence)
  {
    hide OnePiece, StageLines, StageOk, FlagsOk, PipeLines, JoinStages, Line, Suffix;
    LineSize(indent, JoinStages(stages), sep, fence);
    PipeNarrow(indent, stages, sep, width, fence, |stages|);
    if |stages| == 1 {
      assert stages == [stages[0]] && StageOk(stages[0]);
      OneJoined(stages[0]);
      assert "" + stages[0].text == stages[0].text;
      StageOneLine(indent, "", stages[0], sep, width, fence);
      StageNarrow(indent, false, stages[0], sep, width, fence);
    }
  }
}
