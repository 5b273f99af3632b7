// The printed lines, exactly: two blanks for each block open around a line, counted from the command's
// keywords, two more where a statement or a chain goes on, and then the text of the line's place.
module ShellIndents {
  import opened Text
  import opened ShellScan
  import opened ShellShape
  import opened ShellLayout
  import opened ShellBlocks

  // ----- the rows of a command -----

  // Openers minus closers.
  function Around(tokens: seq<Token>): int {
    if tokens == [] then 0 else
      Around(tokens[..|tokens| - 1]) +
      match tokens[|tokens| - 1]
      case Open(_) => 1
      case Close(_) => -1
      case _ => 0
  }

  // A line that starts with a keyword, or a statement that may go on over several lines: how many blocks
  // indent it, what it says, what separates it from the next, and the keywords at the end of its last line.
  datatype Row =
    | Fixed(level: int, text: string, sep: Sep, tail: string)
    | Going(level: int, stages: seq<Stage>, sep: Sep, tail: string)

  // A separator at the end of a line: outside a fence the line break stands for `;`.
  function Ending(sep: Sep, fence: bool): string {
    match sep
    case And => " &&"
    case Or => " ||"
    case Background => " &"
    case Pipe => " |"
    case Semi => if fence then ";" else ""
    case NoSep => ""
  }

  function Piped(stages: seq<Stage>): string {
    if stages == [] then "" else
      var n := |stages| - 1;
      if n == 0 then stages[0].text else Piped(stages[..n]) + " | " + stages[n].text
  }

  function WithTail(row: Row, more: string): Row {
    match row
    case Fixed(level, text, sep, tail) => Fixed(level, text, sep, tail + more)
    case Going(level, stages, sep, tail) => Going(level, stages, sep, tail + more)
  }

  // The last row with more text at its end.
  function Tailed(rows: seq<Row>, more: string): seq<Row> {
    if rows == [] then [] else
      rows[..|rows| - 1] + [WithTail(rows[|rows| - 1], more)]
  }

  predicate Inner(t: Token) {
    t == MidDo || t == MidThen || t == MidElse
  }

  // `do` and `then` stand at the end of their header's line; closers, `elif` and `else` stand with it.
  function AddToken(rows: seq<Row>, before: seq<Token>, t: Token, stages: seq<Stage>, sep: Sep, fence: bool): seq<Row> {
    match t
    case MidDo => Tailed(rows, if fence then " do" else "; do")
    case MidThen => Tailed(rows, if fence then " then" else "; then")
    case MidElse => rows + [Fixed(Around(before) - 1, "else", NoSep, "")]
    case MidElif | Close(_) => rows + [Fixed(Around(before) - 1, Piped(stages), sep, "")]
    case Open(_) => rows + [Fixed(Around(before), Piped(stages), sep, "")]
    case Plain => rows + [Going(Around(before), stages, sep, "")]
  }

  // A segment's tokens: inner keywords, and what they stand before; one that stands alone ends with the
  // segment's separator.
  function AddTokens(rows: seq<Row>, before: seq<Token>, tokens: seq<Token>, stages: seq<Stage>, sep: Sep, fence: bool): seq<Row>
    decreases |tokens|
  {
    if tokens == [] then Tailed(rows, Ending(sep, fence))
    else
      var now := AddToken(rows, before, tokens[0], stages, sep, fence);
      if Inner(tokens[0]) then AddTokens(now, before + [tokens[0]], tokens[1..], stages, sep, fence) else now
  }

  // A stage without its leading `do`, `then` and `else`.
  function Stripped(stage: Stage): Stage
    requires StageOk(stage)
    decreases |stage.text|
  {
    AfterWordOk(stage);
    if LeadsOn(FirstKeyword(stage).GetOr(Done)) && AfterWord(stage).text != "" then Stripped(AfterWord(stage)) else stage
  }

  predicate HeaderLast(tokens: seq<Token>) {
    tokens != [] && (tokens[|tokens| - 1].Open? || tokens[|tokens| - 1] == MidElif)
  }

  // A chained statement stands one level inside what it is chained to: a header, which is outside
  // the block it opens, or a statement.
  function ChainedRow(before: seq<Token>, stages: seq<Stage>, sep: Sep): Row {
    Going(Around(before) - (if HeaderLast(before) then 1 else 0) + 1, stages, sep, "")
  }

  // The rows of the first `k` segments.
  function RowsUpTo(segments: seq<Segment>, k: nat, fence: bool): seq<Row>
    requires SegmentsOk(segments) && k <= |segments|
  {
    if k == 0 then [] else
      var (rows, before) := (RowsUpTo(segments, k - 1, fence), CommandTokens(segments, k - 1));
      var (stages, sep, prev) := (segments[k - 1].stages, segments[k - 1].sep, PrevSep(segments, k - 1));
      assert SegmentOk(segments[k - 1]) && StageOk(stages[0]);
      if prev == And || prev == Or then rows + [ChainedRow(before, stages, sep)]
      else AddTokens(rows, before, TokensOf(stages[0], false), stages[0 := Stripped(stages[0])], sep, fence)
  }

  // ----- where a line stands -----

  // Which piece of which stage of which row a line prints.
  datatype Spot = Spot(row: nat, stage: nat, piece: nat)

  predicate Adjacent(a: Spot, b: Spot) {
    || b == Spot(a.row, a.stage, a.piece + 1)
    || b == Spot(a.row, a.stage + 1, 0)
    || b == Spot(a.row + 1, 0, 0)
  }

  // Exactly `indent` blanks, and then text.
  predicate Indented(line: string, indent: int) {
    0 <= indent < |line| && (forall k :: 0 <= k < indent ==> line[k] == ' ') && !IsSpace(line[indent])
  }

  // The `k`-th piece of a stage: from one flag to the next.
  function PieceOf(stage: Stage, k: nat): string
    requires k <= |stage.flags|
  {
    var start := if k == 0 then 0 else stage.flags[k - 1];
    var next := if k == |stage.flags| then |stage.text| + 1 else stage.flags[k];
    if start < next <= |stage.text| + 1 then stage.text[start..next - 1] else ""
  }

  function IndentOf(row: Row, spot: Spot): int {
    2 * row.level + (if spot.stage > 0 then 2 else 0) + (if spot.piece > 0 then 2 else 0)
  }

  // What a line says at its place: a piece that a continuation ends, the last piece or a whole stage, or
  // the whole pipeline; the last line of a row ends with its separator and the keywords behind it.
  predicate Says(row: Row, spot: Spot, fence: bool, last: bool, text: string) {
    match row
    case Fixed(_, whole, sep, tail) =>
      spot.stage == spot.piece == 0 && last && text == whole + Ending(sep, fence) + tail
    case Going(_, stages, sep, tail) =>
      && spot.stage < |stages| && spot.piece <= |stages[spot.stage].flags|
      && var stage, n := stages[spot.stage], |stages[spot.stage].flags|;
         var bar := if spot.stage > 0 && spot.piece == 0 && !fence then "| " else "";
         var end := if spot.stage + 1 < |stages| then if fence then " |" else "" else Ending(sep, fence) + tail;
         || (!last && spot.piece < n && text == bar + PieceOf(stage, spot.piece) + " \\")
         || ((last <==> spot.stage + 1 == |stages|) && spot.piece == 0 && text == bar + stage.text + end)
         || ((last <==> spot.stage + 1 == |stages|) && 0 < spot.piece == n && text == PieceOf(stage, n) + end)
         || (last && spot.stage == spot.piece == 0 && text == Piped(stages) + (Ending(sep, fence) + tail))
  }

  // The line is its indentation and what its place says.
  predicate StandsAt(line: string, row: Row, spot: Spot, fence: bool, last: bool) {
    Indented(line, IndentOf(row, spot)) && Says(row, spot, fence, last, line[IndentOf(row, spot)..])
  }

  // The last line of its row.
  predicate EndsRow(spots: seq<Spot>, k: nat)
    requires k < |spots|
  {
    k == |spots| - 1 || spots[k + 1].row != spots[k].row
  }

  // The lines print the rows in order, piece after piece and stage after stage.
  predicate Spotted(lines: seq<string>, rows: seq<Row>, spots: seq<Spot>, fence: bool) {
    && |spots| == |lines|
    && (forall k :: 0 <= k < |lines| ==>
          spots[k].row < |rows| && StandsAt(lines[k], rows[spots[k].row], spots[k], fence, EndsRow(spots, k)))
    && (forall k :: 0 < k < |lines| ==> Adjacent(spots[k - 1], spots[k]))
    && (lines != [] ==> spots[0] == Spot(0, 0, 0))
    && (rows != [] ==> lines != [] && spots[|spots| - 1].row == |rows| - 1)
  }

  // ----- one row more -----

  // The lines of one row, or of its first stages.
  predicate RowSpotted(lines: seq<string>, row: Row, spots: seq<Spot>, at: nat, fence: bool, done: bool) {
    && |spots| == |lines| > 0 && spots[0] == Spot(at, 0, 0)
    && (forall k :: 0 <= k < |lines| ==> spots[k].row == at && StandsAt(lines[k], row, spots[k], fence, done && k == |lines| - 1))
    && (forall k :: 0 < k < |lines| ==> Adjacent(spots[k - 1], spots[k]))
  }

  // A line before the new row's.
  lemma {:induction false} OldSpot(lines: seq<string>, rows: seq<Row>, spots: seq<Spot>, row: Row, own: seq<Spot>, fence: bool, k: nat)
    requires Spotted(lines, rows, spots, fence) && k < |lines| && own != [] && own[0].row == |rows|
    ensures var (allSpots, allRows) := (spots + own, rows + [row]);
            && k < |allSpots| && allSpots[k].row < |allRows|
            && StandsAt(lines[k], allRows[allSpots[k].row], allSpots[k], fence, EndsRow(allSpots, k))
            && (k > 0 ==> Adjacent(allSpots[k - 1], allSpots[k]))
  {
    hide StandsAt, Adjacent;
    var all := spots + own;
    assert all[k] == spots[k] && (rows + [row])[spots[k].row] == rows[spots[k].row];
    assert all[k + 1] == if k + 1 < |lines| then spots[k + 1] else own[0];
    assert EndsRow(all, k) <==> EndsRow(spots, k);
    if k > 0 {
      assert all[k - 1] == spots[k - 1];
    }
  }

  // A line of the new row.
  lemma {:induction false} NewSpot(lines: seq<string>, rows: seq<Row>, spots: seq<Spot>, more: seq<string>, row: Row, own: seq<Spot>,
                                   fence: bool, j: nat)
    requires Spotted(lines, rows, spots, fence) && (rows == [] ==> lines == []) && RowSpotted(more, row, own, |rows|, fence, true)
    requires j < |more|
    ensures var (k, allSpots, allRows) := (|spots| + j, spots + own, rows + [row]);
            && k < |allSpots| && allSpots[k].row < |allRows|
            && StandsAt(more[j], allRows[allSpots[k].row], allSpots[k], fence, EndsRow(allSpots, k))
            && (k > 0 ==> Adjacent(allSpots[k - 1], allSpots[k]))
  {
    hide StandsAt;
    var k, all := |spots| + j, spots + own;
    assert all[k] == own[j] && (rows + [row])[|rows|] == row;
    assert j < |more| - 1 ==> all[k + 1] == own[j + 1];
    assert EndsRow(all, k) <==> j == |more| - 1;
    if j > 0 {
      assert all[k - 1] == own[j - 1];
    } else if k > 0 {
      assert all[k - 1] == spots[|spots| - 1];
    }
  }

  lemma {:induction false} AddRow(lines: seq<string>, rows: seq<Row>, spots: seq<Spot>, more: seq<string>, row: Row, own: seq<Spot>,
                                  fence: bool)
    requires Spotted(lines, rows, spots, fence) && (rows == [] ==> lines == []) && RowSpotted(more, row, own, |rows|, fence, true)
    ensures Spotted(lines + more, rows + [row], spots + own, fence)
  {
    hide StandsAt, Adjacent, EndsRow;
    var all, allSpots, allRows := lines + more, spots + own, rows + [row];
    forall k | 0 <= k < |all|
      ensures allSpots[k].row < |allRows| && StandsAt(all[k], allRows[allSpots[k].row], allSpots[k], fence, EndsRow(allSpots, k))
      ensures k > 0 ==> Adjacent(allSpots[k - 1], allSpots[k])
    {
      if k < |lines| {
        OldSpot(lines, rows, spots, row, own, fence, k);
      } else {
        NewSpot(lines, rows, spots, more, row, own, fence, k - |lines|);
      }
    }
  }

  lemma {:induction false} EndMore(x: string, ending: string, tail: string, more: string)
    ensures x + (ending + tail) + more == x + (ending + (tail + more))
    ensures x + ending + tail + more == x + ending + (tail + more)
  {
  }

  lemma {:induction false} SaysMore(row: Row, spot: Spot, fence: bool, text: string, more: string)
    requires Says(row, spot, fence, true, text)
    ensures Says(WithTail(row, more), spot, fence, true, text + more)
  {
    hide PieceOf, Piped, Ending;
    var ending := Ending(row.sep, fence);
    if row.Fixed? {
      EndMore(row.text, ending, row.tail, more);
    } else {
      var stage := row.stages[spot.stage];
      var bar := if spot.stage > 0 && spot.piece == 0 && !fence then "| " else "";
      EndMore(bar + stage.text, ending, row.tail, more);
      EndMore(PieceOf(stage, |stage.flags|), ending, row.tail, more);
      EndMore(Piped(row.stages), ending, row.tail, more);
    }
  }

  lemma {:induction false} SaysSame(row: Row, spot: Spot, fence: bool, text: string, more: string)
    requires Says(row, spot, fence, false, text)
    ensures Says(WithTail(row, more), spot, fence, false, text)
  {
    hide PieceOf, Piped, Ending;
  }

  lemma {:induction false} StandsMore(line: string, row: Row, spot: Spot, fence: bool, more: string)
    requires StandsAt(line, row, spot, fence, true)
    ensures StandsAt(line + more, WithTail(row, more), spot, fence, true)
  {
    hide Says, IsSpace;
    var at := IndentOf(row, spot);
    assert (line + more)[at..] == line[at..] + more;
    SaysMore(row, spot, fence, line[at..], more);
  }

  lemma {:induction false} StandsSame(line: string, row: Row, spot: Spot, fence: bool, more: string)
    requires StandsAt(line, row, spot, fence, false)
    ensures StandsAt(line, WithTail(row, more), spot, fence, false)
  {
    hide Says, IsSpace;
    SaysSame(row, spot, fence, line[IndentOf(row, spot)..], more);
  }

  // What a keyword appends to the last line is the last row's.
  lemma {:induction false} AppendSpotted(lines: seq<string>, rows: seq<Row>, spots: seq<Spot>, more: string, fence: bool)
    requires lines != [] && Spotted(lines, rows, spots, fence)
    ensures rows != [] && Spotted(AppendLast(lines, more), Tailed(rows, more), spots, fence)
  {
    hide StandsAt, Adjacent;
    var n, m := |lines| - 1, |rows| - 1;
    var all, tailed := AppendLast(lines, more), Tailed(rows, more);
    assert forall k :: 0 <= k < n ==> all[k] == lines[k];
    assert forall r :: 0 <= r < m ==> tailed[r] == rows[r];
    forall k | 0 <= k < |all|
      ensures StandsAt(all[k], tailed[spots[k].row], spots[k], fence, EndsRow(spots, k))
    {
      if k == n {
        StandsMore(lines[n], rows[m], spots[n], fence, more);
      } else if spots[k].row == m {
        RowsClimb(spots, k, n);
        assert !EndsRow(spots, k);
        StandsSame(lines[k], rows[m], spots[k], fence, more);
      }
    }
  }

  // The places go on in the rows' order.
  lemma {:induction false} RowsClimb(spots: seq<Spot>, j: nat, k: nat)
    requires j < k < |spots| && forall i :: 0 < i < |spots| ==> Adjacent(spots[i - 1], spots[i])
    ensures spots[j].row <= spots[j + 1].row <= spots[k].row
  {
    if j + 1 < k {
      RowsClimb(spots, j, k - 1);
    }
  }

  // ----- the lines of a row -----

  // The line is so many blanks and the text, which starts with none.
  predicate Cut(line: string, at: int, text: string) {
    Indented(line, at) && line[at..] == text
  }

  lemma {:induction false} EndingIs(sep: Sep, fence: bool)
    ensures Suffix(sep, fence) == Ending(sep, fence)
  {
  }

  lemma {:induction false} LineCut(indent: nat, text: string, sep: Sep, fence: bool)
    requires text != "" && !IsSpace(text[0])
    ensures Cut(Line(indent, text, sep, fence), indent, text + Ending(sep, fence))
  {
    EndingIs(sep, fence);
    hide IsSpace, Suffix, Ending;
    var line := Line(indent, text, sep, fence);
    assert forall k :: 0 <= k < indent ==> line[k] == Repeat(' ', indent)[k];
    assert line[indent..] == text + Ending(sep, fence);
    assert line[indent] == text[0];
  }

  lemma {:induction false} DashStarts(text: string, flags: seq<nat>, k: nat)
    requires FlagsOk(text, flags) && 0 < k <= |flags|
    ensures PieceStart(flags, k) < |text| && text[PieceStart(flags, k)] == '-' && !IsSpace('-')
  {
    hide FlagsOk;
    PieceBounds(text, flags, k);
    DashAt(text, flags, k - 1);
  }

  lemma {:induction false} DashAt(text: string, flags: seq<nat>, k: nat)
    requires FlagsOk(text, flags) && k < |flags|
    ensures flags[k] < |text| && text[flags[k]] == '-'
  {
    hide IsSpace;
  }

  lemma {:induction false} FrontBar(prefix: string, text: string)
    requires (prefix == "" || prefix == "| ") && text != "" && !IsSpace(text[0])
    ensures prefix + text != "" && !IsSpace((prefix + text)[0])
  {
    assert !IsSpace('|');
    hide IsSpace;
    if prefix == "" {
      assert prefix + text == text;
    } else {
      assert (prefix + text)[0] == '|';
    }
  }

  lemma {:induction false} Regrouped(a: string, b: string, c: string)
    ensures a + (b + c) == (a + b) + c
  {
  }

  lemma {:induction false} PieceText(indent: nat, prefix: string, stage: Stage, fence: bool, k: nat)
    requires StageOk(stage) && k < |stage.flags|
    ensures PieceOf(stage, k) != "" && !IsSpace(PieceOf(stage, k)[0])
    ensures k == 0 ==> PieceLine(indent, prefix, stage, fence, k) == Line(indent, prefix + PieceOf(stage, k) + " \\", NoSep, fence)
    ensures k > 0 ==> PieceLine(indent, prefix, stage, fence, k) == Line(indent + 2, PieceOf(stage, k) + " \\", NoSep, fence)
  {
    PieceBounds(stage.text, stage.flags, k);
    FlagsFar(stage, k);
    if k > 0 {
      DashStarts(stage.text, stage.flags, k);
      FlagsApart(stage, k);
    }
    hide FlagsOk, IsSpace, Line;
  }

  lemma {:induction false} FlagsFar(stage: Stage, k: nat)
    requires StageOk(stage) && k < |stage.flags|
    ensures 2 <= stage.flags[k] < |stage.text|
  {
    hide IsSpace;
  }

  // Two flags have a word between them.
  lemma {:induction false} FlagsApart(stage: Stage, k: nat)
    requires StageOk(stage) && 0 < k < |stage.flags|
    ensures stage.flags[k - 1] + 1 < stage.flags[k]
  {
    assert stage.text[stage.flags[k] - 1] != '-' by { assert !IsSpace('-'); }
    hide IsSpace;
  }

  // A line that a continuation ends.
  lemma {:induction false} ContinuedCut(indent: nat, bar: string, text: string, fence: bool)
    requires (bar == "" || bar == "| ") && text != "" && !IsSpace(text[0])
    ensures Cut(Line(indent, bar + text + " \\", NoSep, fence), indent, bar + text + " \\")
  {
    assert Ending(NoSep, fence) == "";
    hide *;
    FrontBar(bar, text);
    var whole := bar + text + " \\";
    assert whole[0] == (bar + text)[0];
    assert whole + "" == whole;
    LineCut(indent, whole, NoSep, fence);
  }

  lemma {:induction false} PieceLineIs(indent: nat, prefix: string, stage: Stage, fence: bool, k: nat)
    requires StageOk(stage) && k < |stage.flags|
    ensures PieceOf(stage, k) != "" && !IsSpace(PieceOf(stage, k)[0])
    ensures PieceLine(indent, prefix, stage, fence, k) ==
            Line(if k == 0 then indent else indent + 2, (if k == 0 then prefix else "") + PieceOf(stage, k) + " \\", NoSep, fence)
  {
    PieceText(indent, prefix, stage, fence, k);
    hide *;
    assert "" + PieceOf(stage, k) == PieceOf(stage, k);
  }

  lemma {:induction false} PieceCut(indent: nat, prefix: string, stage: Stage, fence: bool, k: nat)
    requires StageOk(stage) && k < |stage.flags| && (prefix == "" || prefix == "| ")
    ensures Cut(PieceLine(indent, prefix, stage, fence, k), if k == 0 then indent else indent + 2,
                (if k == 0 then prefix else "") + PieceOf(stage, k) + " \\")
  {
    hide *;
    PieceLineIs(indent, prefix, stage, fence, k);
    ContinuedCut(if k == 0 then indent else indent + 2, if k == 0 then prefix else "", PieceOf(stage, k), fence);
  }

  lemma {:induction false} PiecesCut(indent: nat, prefix: string, stage: Stage, fence: bool, n: nat)
    requires StageOk(stage) && n <= |stage.flags| && (prefix == "" || prefix == "| ")
    ensures |Pieces(indent, prefix, stage, fence, n)| == n
    ensures forall k :: 0 <= k < n ==>
              Cut(Pieces(indent, prefix, stage, fence, n)[k], indent + (if k == 0 then 0 else 2),
                  (if k == 0 then prefix else "") + PieceOf(stage, k) + " \\")
  {
    hide Cut, PieceLine, StageOk, PieceOf;
    if n > 0 {
      PiecesCut(indent, prefix, stage, fence, n - 1);
      PieceCut(indent, prefix, stage, fence, n - 1);
    }
  }

  lemma {:induction false} LastCut(indent: nat, stage: Stage, sep: Sep, fence: bool)
    requires StageOk(stage) && stage.flags != []
    ensures Cut(LastPiece(indent, stage, sep, fence), indent + 2, PieceOf(stage, |stage.flags|) + Ending(sep, fence))
  {
    var n := |stage.flags|;
    DashStarts(stage.text, stage.flags, n);
    PieceBounds(stage.text, stage.flags, n);
    var last := stage.text[PieceStart(stage.flags, n)..];
    assert last[0] == '-' && last == PieceOf(stage, n);
    hide Cut, IsSpace, FlagsOk, Ending;
    LineCut(indent + INDENT, last, sep, fence);
  }

  lemma {:induction false} WholeCut(indent: nat, prefix: string, stage: Stage, sep: Sep, fence: bool)
    requires StageOk(stage) && (prefix == "" || prefix == "| ")
    ensures Cut(Line(indent, prefix + stage.text, sep, fence), indent, prefix + stage.text + Ending(sep, fence))
  {
    assert stage.text != "" && !IsSpace(stage.text[0]);
    hide *;
    FrontBar(prefix, stage.text);
    LineCut(indent, prefix + stage.text, sep, fence);
  }

  // The lines of a stage: one, or one for each piece.
  predicate StageCut(lines: seq<string>, indent: nat, prefix: string, stage: Stage, end: string) {
    var n := |stage.flags|;
    || (|lines| == 1 && Cut(lines[0], indent, prefix + stage.text + end))
    || (&& 0 < n && |lines| == n + 1
        && (forall k :: 0 <= k < n ==>
              Cut(lines[k], indent + (if k == 0 then 0 else 2), (if k == 0 then prefix else "") + PieceOf(stage, k) + " \\"))
        && Cut(lines[n], indent + 2, PieceOf(stage, n) + end))
  }

  lemma {:induction false} WrappedCut(indent: nat, prefix: string, stage: Stage, sep: Sep, fence: bool)
    requires StageOk(stage) && stage.flags != [] && (prefix == "" || prefix == "| ")
    ensures StageCut(Pieces(indent, prefix, stage, fence, |stage.flags|) + [LastPiece(indent, stage, sep, fence)], indent, prefix, stage,
                     Ending(sep, fence))
  {
    hide Cut, StageOk, PieceOf, LastPiece, Pieces, Ending;
    PiecesCut(indent, prefix, stage, fence, |stage.flags|);
    LastCut(indent, stage, sep, fence);
  }

  lemma {:induction false} StageIsCut(indent: nat, prefix: string, stage: Stage, sep: Sep, width: nat, fence: bool)
    requires StageOk(stage) && (prefix == "" || prefix == "| ")
    ensures StageCut(StageLines(indent, prefix, stage, sep, width, fence), indent, prefix, stage, Ending(sep, fence))
  {
    StageLinesAre(indent, prefix, stage, sep, width, fence);
    hide Cut, StageOk, PieceOf, LastPiece, Pieces, Ending, StageLines, Line, FlagsOk;
    WholeCut(indent, prefix, stage, sep, fence);
    if stage.flags != [] {
      hide StageCut;
      WrappedCut(indent, prefix, stage, sep, fence);
    }
  }

  lemma {:induction false} StageLinesAre(indent: nat, prefix: string, stage: Stage, sep: Sep, width: nat, fence: bool)
    requires StageOk(stage)
    ensures var lines := StageLines(indent, prefix, stage, sep, width, fence);
            || lines == [Line(indent, prefix + stage.text, sep, fence)]
            || (stage.flags != [] && lines == Pieces(indent, prefix, stage, fence, |stage.flags|) + [LastPiece(indent, stage, sep, fence)])
  {
    hide Line, FlagsOk, Suffix, Pieces, LastPiece;
  }

  function StageSpots(at: nat, stage: nat, n: nat): (spots: seq<Spot>)
    ensures |spots| == n && forall k :: 0 <= k < n ==> spots[k] == Spot(at, stage, k)
  {
    seq(n, k requires 0 <= k < n => Spot(at, stage, k))
  }

  // Stage `index` of a row, in a split pipeline or alone.
  predicate StageSpotted(lines: seq<string>, row: Row, at: nat, index: nat, fence: bool) {
    && lines != [] && row.Going? && index < |row.stages|
    && forall k :: 0 <= k < |lines| ==>
         StandsAt(lines[k], row, StageSpots(at, index, |lines|)[k], fence, index + 1 == |row.stages| && k == |lines| - 1)
  }

  lemma {:induction false} CutStands(lines: seq<string>, indent: nat, row: Row, at: nat, index: nat, fence: bool, end: string)
    requires row.Going? && index < |row.stages| && row.tail == ""
    requires StageCut(lines, indent, if index > 0 && !fence then "| " else "", row.stages[index], end)
    requires indent == 2 * row.level + if index > 0 then 2 else 0
    requires end == if index + 1 < |row.stages| then if fence then " |" else "" else Ending(row.sep, fence)
    ensures StageSpotted(lines, row, at, index, fence)
  {
    hide PieceOf, Ending, Indented, Piped;
    assert end + "" == end;
    var n := |row.stages[index].flags|;
    forall k | 0 <= k < |lines|
      ensures StandsAt(lines[k], row, StageSpots(at, index, |lines|)[k], fence, index + 1 == |row.stages| && k == |lines| - 1)
    {
      assert StageSpots(at, index, |lines|)[k] == Spot(at, index, k);
    }
  }

  lemma {:induction false} StageStands(indent: nat, row: Row, at: nat, index: nat, sep: Sep, width: nat, fence: bool)
    requires row.Going? && index < |row.stages| && StageOk(row.stages[index]) && row.tail == ""
    requires indent == 2 * row.level + if index > 0 then 2 else 0
    requires sep == if index + 1 < |row.stages| then if fence then Pipe else NoSep else row.sep
    ensures StageSpotted(StageLines(indent, if index > 0 && !fence then "| " else "", row.stages[index], sep, width, fence),
                         row, at, index, fence)
  {
    assert FlagsOk(row.stages[index].text, row.stages[index].flags);
    hide StageOk, StageLines, FlagsOk, StageCut, StageSpotted;
    var prefix := if index > 0 && !fence then "| " else "";
    StageIsCut(indent, prefix, row.stages[index], sep, width, fence);
    CutStands(StageLines(indent, prefix, row.stages[index], sep, width, fence), indent, row, at, index, fence, Ending(sep, fence));
  }

  lemma {:induction false} PipeNext(indent: nat, stages: seq<Stage>, sep: Sep, width: nat, fence: bool, n: nat)
    requires StagesOk(stages) && 0 < n <= |stages|
    ensures StageOk(stages[n - 1]) && FlagsOk(stages[n - 1].text, stages[n - 1].flags) && INDENT == 2
    ensures PipeLines(indent, stages, sep, width, fence, n) ==
            PipeLines(indent, stages, sep, width, fence, n - 1) +
            StageLines(if n == 1 then indent else indent + INDENT, if n == 1 || fence then "" else "| ", stages[n - 1],
                       if n == |stages| then sep else if fence then Pipe else NoSep, width, fence)
    ensures PipeLines(indent, stages, sep, width, fence, 0) == []
  {
    hide StageLines, StageOk, FlagsOk;
    StageFlags(stages, n - 1);
    assert StageOk(stages[n - 1]);
  }

  lemma {:induction false} FirstSpotted(lines: seq<string>, row: Row, at: nat, fence: bool)
    requires StageSpotted(lines, row, at, 0, fence)
    ensures RowSpotted(lines, row, StageSpots(at, 0, |lines|), at, fence, |row.stages| == 1)
  {
    hide StandsAt;
  }

  // The first stages of a split pipeline: the later ones stand two blanks further in.
  lemma {:induction false} PipeSpotted(indent: nat, row: Row, at: nat, width: nat, fence: bool, n: nat)
    returns (spots: seq<Spot>)
    requires row.Going? && row.tail == "" && StagesOk(row.stages) && 0 < n <= |row.stages| && indent == 2 * row.level
    ensures RowSpotted(PipeLines(indent, row.stages, row.sep, width, fence, n), row, spots, at, fence, n == |row.stages|)
    ensures |spots| > 0 && spots[|spots| - 1].stage == n - 1
  {
    hide *;
    var stages, sep := row.stages, row.sep;
    PipeNext(indent, stages, sep, width, fence, n);
    var own := if n == 1 then indent else indent + INDENT;
    var prefix := if n == 1 || fence then "" else "| ";
    var suffix := if n == |stages| then sep else if fence then Pipe else NoSep;
    StageStands(own, row, at, n - 1, suffix, width, fence);
    var lines := StageLines(own, prefix, stages[n - 1], suffix, width, fence);
    var mine := StageSpots(at, n - 1, |lines|);
    SpottedSome(lines, row, at, n - 1, fence);
    if n == 1 {
      assert [] + lines == lines;
      spots := mine;
      FirstSpotted(lines, row, at, fence);
    } else {
      var before := PipeSpotted(indent, row, at, width, fence, n - 1);
      spots := before + mine;
      JoinSpotted(PipeLines(indent, stages, sep, width, fence, n - 1), before, lines, row, at, n - 1, fence);
    }
  }

  lemma {:induction false} SpottedSome(lines: seq<string>, row: Row, at: nat, index: nat, fence: bool)
    requires StageSpotted(lines, row, at, index, fence)
    ensures lines != []
  {
    hide StandsAt;
  }

  lemma {:induction false} JoinSpotted(a: seq<string>, before: seq<Spot>, b: seq<string>, row: Row, at: nat, index: nat, fence: bool)
    requires RowSpotted(a, row, before, at, fence, false) && before[|before| - 1].stage + 1 == index
    requires StageSpotted(b, row, at, index, fence)
    ensures RowSpotted(a + b, row, before + StageSpots(at, index, |b|), at, fence, index + 1 == |row.stages|)
  {
    hide StandsAt;
    var mine := StageSpots(at, index, |b|);
    var all, spots := a + b, before + mine;
    forall k | 0 <= k < |all|
      ensures spots[k].row == at && StandsAt(all[k], row, spots[k], fence, index + 1 == |row.stages| && k == |all| - 1)
      ensures k > 0 ==> Adjacent(spots[k - 1], spots[k])
    {
      if k < |a| {
        assert all[k] == a[k] && spots[k] == before[k];
        assert k > 0 ==> spots[k - 1] == before[k - 1];
      } else {
        assert all[k] == b[k - |a|] && spots[k] == mine[k - |a|];
        assert k > |a| ==> spots[k - 1] == mine[k - 1 - |a|];
        assert k == |a| ==> spots[k - 1] == before[|before| - 1];
      }
    }
  }

  // Joining forwards or backwards.
  lemma {:induction false} JoinLast(texts: seq<string>, text: string)
    requires texts != []
    ensures Join(texts + [text], " | ") == Join(texts, " | ") + " | " + text
  {
    var all := texts + [text];
    if |texts| > 1 {
      JoinLast(texts[1..], text);
      assert all[1..] == texts[1..] + [text];
      Regrouped4(texts[0], " | ", Join(texts[1..], " | "), " | " + text);
    } else {
      assert all[1..] == [text];
    }
  }

  lemma {:induction false} Regrouped4(a: string, b: string, c: string, d: string)
    ensures a + b + (c + d) == (a + b + c) + d
  {
  }

  lemma {:induction false} PipedIsJoined(stages: seq<Stage>)
    requires stages != []
    ensures Piped(stages) == JoinStages(stages)
  {
    var n := |stages| - 1;
    if n == 0 {
      assert Texts(stages) == [stages[0].text];
    } else {
      PipedIsJoined(stages[..n]);
      assert Texts(stages) == Texts(stages[..n]) + [stages[n].text];
      JoinLast(Texts(stages[..n]), stages[n].text);
    }
  }

  lemma {:induction false} KeywordText(stages: seq<Stage>)
    requires StagesOk(stages) && stages != []
    ensures StageOk(stages[0]) && Piped(stages) == JoinStages(stages) != "" && !IsSpace(JoinStages(stages)[0])
  {
    PipedIsJoined(stages);
    assert StageOk(stages[0]);
    hide IsSpace, FlagsOk, PlainLine, Piped;
    assert Texts(stages)[0] == stages[0].text;
    assert JoinStages(stages)[0] == stages[0].text[0];
  }

  lemma {:induction false} StatementSpotted(indent: nat, row: Row, at: nat, width: nat, fence: bool) returns (spots: seq<Spot>)
    requires row.Going? && row.tail == "" && StagesOk(row.stages) && row.stages != [] && indent == 2 * row.level
    ensures RowSpotted(StatementLines(indent, row.stages, row.sep, width, fence), row, spots, at, fence, true)
  {
    hide StandsAt, StageLines, StageOk, FlagsOk, PipeLines, JoinStages, Line, Suffix, RowSpotted, StageSpotted;
    var stages, sep := row.stages, row.sep;
    var lines := StatementLines(indent, stages, sep, width, fence);
    StageFlags(stages, 0);
    assert StageOk(stages[0]);
    if |stages| > 1 && indent + |JoinStages(stages)| + |Suffix(sep, fence)| > width {
      spots := PipeSpotted(indent, row, at, width, fence, |stages|);
    } else if |stages| == 1 {
      StageStands(indent, row, at, 0, sep, width, fence);
      spots := StageSpots(at, 0, |lines|);
      FirstSpotted(lines, row, at, fence);
    } else {
      spots := OneGoing(indent, row, at, fence);
    }
  }

  // A pipeline on one line.
  lemma {:induction false} OneGoing(indent: nat, row: Row, at: nat, fence: bool) returns (spots: seq<Spot>)
    requires row.Going? && row.tail == "" && StagesOk(row.stages) && row.stages != [] && indent == 2 * row.level
    ensures RowSpotted([Line(indent, JoinStages(row.stages), row.sep, fence)], row, spots, at, fence, true)
  {
    spots := [Spot(at, 0, 0)];
    KeywordText(row.stages);
    hide StageOk, JoinStages, Line, IsSpace, Piped;
    LineCut(indent, JoinStages(row.stages), row.sep, fence);
    hide Indented, Ending;
    assert Ending(row.sep, fence) + "" == Ending(row.sep, fence);
  }

  lemma {:induction false} OneFixed(indent: nat, row: Row, at: nat, fence: bool) returns (spots: seq<Spot>)
    requires row.Fixed? && row.tail == "" && row.text != "" && !IsSpace(row.text[0]) && indent == 2 * row.level
    ensures RowSpotted([Line(indent, row.text, row.sep, fence)], row, spots, at, fence, true)
  {
    spots := [Spot(at, 0, 0)];
    LineCut(indent, row.text, row.sep, fence);
    hide Indented, Line, Ending;
    var text := row.text + Ending(row.sep, fence);
    assert text + "" == text;
  }

  // ----- the machine's stack is what is open around -----

  // A state of the machine stands behind the tokens.
  predicate Behind(st: State, tokens: seq<Token>) {
    |st.stack| == Around(tokens) && (st.header <==> HeaderLast(tokens))
  }

  lemma {:induction false} AroundOne(tokens: seq<Token>, t: Token)
    ensures Around(tokens + [t]) == Around(tokens) + (if t.Open? then 1 else if t.Close? then -1 else 0)
    ensures HeaderLast(tokens + [t]) <==> t.Open? || t == MidElif
  {
    assert (tokens + [t])[..|tokens|] == tokens;
  }

  lemma {:induction false} BehindOne(st: State, tokens: seq<Token>, t: Token)
    requires Behind(st, tokens) && StepToken(st, t).Some?
    ensures Behind(StepToken(st, t).value, tokens + [t])
  {
    AroundOne(tokens, t);
    hide Around, HeaderLast;
  }

  // ----- placing a segment -----

  // The lines so far stand where the tokens so far say.
  ghost predicate Laid(lay: Lay, rows: seq<Row>, tokens: seq<Token>, fence: bool) {
    && LayOk(lay) && Behind(StateOf(lay), tokens) && (rows == [] ==> lay.lines == [])
    && exists spots :: Spotted(lay.lines, rows, spots, fence)
  }

  lemma {:induction false} RowAdded(lay: Lay, rows: seq<Row>, more: seq<string>, row: Row, own: seq<Spot>, fence: bool)
    requires (rows == [] ==> lay.lines == []) && (exists spots :: Spotted(lay.lines, rows, spots, fence))
    requires RowSpotted(more, row, own, |rows|, fence, true)
    ensures exists spots :: Spotted(lay.lines + more, rows + [row], spots, fence)
  {
    hide Spotted, RowSpotted;
    var spots :| Spotted(lay.lines, rows, spots, fence);
    AddRow(lay.lines, rows, spots, more, row, own, fence);
  }

  lemma {:induction false} StatementLaid(lay: Lay, rows: seq<Row>, tokens: seq<Token>, stages: seq<Stage>, sep: Sep, chain: bool,
                                         width: nat, fence: bool)
    requires Laid(lay, rows, tokens, fence) && StagesOk(stages) && stages != []
    ensures var row := if chain then ChainedRow(tokens, stages, sep) else Going(Around(tokens), stages, sep, "");
            Laid(Stated(lay, stages, sep, chain, width, fence), rows + [row], tokens + (if chain then [] else [Plain]), fence)
  {
    hide Spotted, RowSpotted, StatementLines, Around, HeaderLast, StagesOk;
    var row := if chain then ChainedRow(tokens, stages, sep) else Going(Around(tokens), stages, sep, "");
    var indent := StatementIndent(lay, chain);
    var spots := StatementSpotted(indent, row, |rows|, width, fence);
    RowAdded(lay, rows, StatementLines(indent, stages, sep, width, fence), row, spots, fence);
    AroundOne(tokens, Plain);
    assert tokens + [] == tokens;
  }

  // A row of its own for a keyword.
  lemma {:induction false} KeywordRow(lay: Lay, rows: seq<Row>, tokens: seq<Token>, indent: nat, row: Row, fence: bool, st: State, t: Token)
    requires Laid(lay, rows, tokens, fence) && row.Fixed? && row.tail == "" && row.text != "" && !IsSpace(row.text[0]) && indent == 2 * row.level
    requires StepToken(StateOf(lay), t) == Some(st) && (st.header ==> st.stack != [])
    ensures Laid(Lay(lay.lines + [Line(indent, row.text, row.sep, fence)], st.stack, st.header), rows + [row], tokens + [t], fence)
  {
    hide Spotted, RowSpotted, Behind, IsSpace, Line, StepToken;
    var spots := OneFixed(indent, row, |rows|, fence);
    RowAdded(lay, rows, [Line(indent, row.text, row.sep, fence)], row, spots, fence);
    BehindOne(StateOf(lay), tokens, t);
  }

  lemma {:induction false} Appended(lines: seq<string>, rows: seq<Row>, more: string, fence: bool)
    requires lines != [] && exists spots :: Spotted(lines, rows, spots, fence)
    ensures rows != [] && Tailed(rows, more) != [] && exists spots :: Spotted(AppendLast(lines, more), Tailed(rows, more), spots, fence)
  {
    var spots :| Spotted(lines, rows, spots, fence);
    hide Spotted;
    AppendSpotted(lines, rows, spots, more, fence);
  }

  // `do` and `then` print at the end of the last line.
  lemma {:induction false} InnerLaid(lay: Lay, rows: seq<Row>, tokens: seq<Token>, more: string, st: State, t: Token, fence: bool)
    requires Laid(lay, rows, tokens, fence) && lay.lines != []
    requires StepToken(StateOf(lay), t) == Some(st) && (st.header ==> st.stack != [])
    ensures Laid(Lay(AppendLast(lay.lines, more), st.stack, st.header), Tailed(rows, more), tokens + [t], fence)
  {
    hide Spotted, Behind, StepToken, Tailed, AppendLast;
    BehindOne(StateOf(lay), tokens, t);
    Appended(lay.lines, rows, more, fence);
  }

  lemma {:induction false} SuffixLaid(lay: Lay, rows: seq<Row>, tokens: seq<Token>, sep: Sep, fence: bool)
    requires Laid(lay, rows, tokens, fence) && lay.lines != []
    ensures Laid(lay.(lines := AppendLast(lay.lines, Suffix(sep, fence))), Tailed(rows, Ending(sep, fence)), tokens, fence)
  {
    EndingIs(sep, fence);
    hide Spotted, Behind, Suffix, Ending, Tailed, AppendLast;
    Appended(lay.lines, rows, Suffix(sep, fence), fence);
  }

  // What a keyword that starts a line prints, and how far it stands in.
  function OwnRow(lay: Lay, keyword: Keyword, joined: string, sep: Sep): Row {
    match keyword
    case Header => Fixed(|lay.stack|, joined, sep, "")
    case Else => Fixed(|lay.stack| - 1, "else", NoSep, "")
    case _ => Fixed(|lay.stack| - 1, joined, sep, "")
  }

  lemma {:induction false} KeywordLine(lay: Lay, keyword: Keyword, word: string, joined: string, sep: Sep, fence: bool)
    requires LayOk(lay) && KeywordDone(lay, keyword, word, joined, sep, fence).Some? && keyword != Do && keyword != Then
    ensures var row := OwnRow(lay, keyword, joined, sep);
            var lay' := KeywordDone(lay, keyword, word, joined, sep, fence).value.0;
            row.level >= 0 && lay'.lines == lay.lines + [Line(2 * row.level, row.text, row.sep, fence)]
  {
    hide Line, BlockOf;
  }

  lemma {:induction false} KeywordInner(lay: Lay, keyword: Keyword, word: string, joined: string, sep: Sep, fence: bool)
    requires LayOk(lay) && KeywordDone(lay, keyword, word, joined, sep, fence).Some? && (keyword == Do || keyword == Then)
    ensures var lay' := KeywordDone(lay, keyword, word, joined, sep, fence).value.0;
            lay.lines != [] && lay'.lines == AppendLast(lay.lines, (if fence then " " else "; ") + word)
  {
    hide Line, BlockOf, AppendLast;
  }

  lemma {:induction false} InnerWord(keyword: Keyword, word: string)
    requires ParseKeyword(word) == Some(keyword) && (keyword == Do || keyword == Then)
    ensures word == if keyword == Do then "do" else "then"
  {
  }

  lemma {:induction false} TokenAdds(lay: Lay, keyword: Keyword, word: string, rows: seq<Row>, tokens: seq<Token>, stages: seq<Stage>,
                                     sep: Sep, fence: bool)
    requires |lay.stack| == Around(tokens) && ParseKeyword(word) == Some(keyword)
    ensures AddToken(rows, tokens, TokenOf(keyword, word), stages, sep, fence) ==
            if keyword == Do || keyword == Then then Tailed(rows, (if fence then " " else "; ") + word)
            else rows + [OwnRow(lay, keyword, Piped(stages), sep)]
  {
    if keyword == Do || keyword == Then {
      InnerWord(keyword, word);
      assert " " + "do" == " do" && "; " + "do" == "; do" && " " + "then" == " then" && "; " + "then" == "; then";
    }
    hide Around, BlockOf, Piped, ParseKeyword, Tailed;
  }

  // One keyword.
  lemma {:induction false} KeywordLaid(lay: Lay, rows: seq<Row>, tokens: seq<Token>, keyword: Keyword, word: string, stages: seq<Stage>,
                                       sep: Sep, fence: bool)
    requires Laid(lay, rows, tokens, fence) && ParseKeyword(word) == Some(keyword)
    requires Piped(stages) == JoinStages(stages) != "" && !IsSpace(JoinStages(stages)[0])
    requires KeywordDone(lay, keyword, word, JoinStages(stages), sep, fence).Some?
    ensures var t := TokenOf(keyword, word);
            Laid(KeywordDone(lay, keyword, word, JoinStages(stages), sep, fence).value.0, AddToken(rows, tokens, t, stages, sep, fence),
                 tokens + [t], fence)
  {
    var t, joined := TokenOf(keyword, word), JoinStages(stages);
    KeywordRuns(lay, keyword, word, joined, sep, fence);
    assert |lay.stack| == Around(tokens);
    TokenAdds(lay, keyword, word, rows, tokens, stages, sep, fence);
    ElseText();
    var row := OwnRow(lay, keyword, joined, sep);
    assert row.Fixed? && row.tail == "" && (row.text == "else" || row.text == joined);
    hide *;
    var lay' := KeywordDone(lay, keyword, word, joined, sep, fence).value.0;
    var st := StateOf(lay');
    StateParts(lay');
    if keyword == Do || keyword == Then {
      KeywordInner(lay, keyword, word, joined, sep, fence);
      InnerLaid(lay, rows, tokens, (if fence then " " else "; ") + word, st, t, fence);
    } else {
      KeywordLine(lay, keyword, word, joined, sep, fence);
      KeywordRow(lay, rows, tokens, 2 * row.level, row, fence, st, t);
    }
  }

  lemma {:induction false} ElseText()
    ensures "else" != "" && !IsSpace("else"[0])
  {
  }

  lemma {:induction false} StateParts(lay: Lay)
    ensures lay == Lay(lay.lines, StateOf(lay).stack, StateOf(lay).header)
    ensures LayOk(lay) <==> StateOf(lay).header ==> StateOf(lay).stack != []
  {
  }

  lemma {:induction false} KeywordRuns(lay: Lay, keyword: Keyword, word: string, joined: string, sep: Sep, fence: bool)
    requires LayOk(lay) && ParseKeyword(word) == Some(keyword)
    requires KeywordDone(lay, keyword, word, joined, sep, fence).Some?
    ensures var lay' := KeywordDone(lay, keyword, word, joined, sep, fence).value.0;
            LayOk(lay') && StepToken(StateOf(lay), TokenOf(keyword, word)) == Some(StateOf(lay'))
  {
    hide ParseKeyword, KeywordDone, StepToken, BlockOf;
    KeywordToken(lay, keyword, word, joined, sep, fence);
  }

  lemma {:induction false} AddFirst(rows: seq<Row>, before: seq<Token>, t: Token, rest: seq<Token>, stages: seq<Stage>, sep: Sep, fence: bool)
    ensures var now := AddToken(rows, before, t, stages, sep, fence);
            AddTokens(rows, before, [t] + rest, stages, sep, fence) ==
            if Inner(t) then AddTokens(now, before + [t], rest, stages, sep, fence) else now
  {
    hide AddToken;
    assert ([t] + rest)[1..] == rest;
  }

  lemma {:induction false} AddNone(rows: seq<Row>, before: seq<Token>, stages: seq<Stage>, sep: Sep, fence: bool)
    ensures AddTokens(rows, before, [], stages, sep, fence) == Tailed(rows, Ending(sep, fence))
  {
  }

  function AllStripped(stages: seq<Stage>): seq<Stage>
    requires stages != [] && StageOk(stages[0])
  {
    stages[0 := Stripped(stages[0])]
  }

  lemma {:induction false} StrippedAdds(rows: seq<Row>, tokens: seq<Token>, t: Token, stages: seq<Stage>, sep: Sep, fence: bool)
    requires stages != [] && StageOk(stages[0]) && (Inner(t) || !LeadsOn(FirstKeyword(stages[0]).GetOr(Done)))
    ensures AddToken(rows, tokens, t, AllStripped(stages), sep, fence) == AddToken(rows, tokens, t, stages, sep, fence)
  {
    hide StageOk, FirstKeyword, AfterWord, Around, Piped, Tailed;
    if !LeadsOn(FirstKeyword(stages[0]).GetOr(Done)) {
      assert AllStripped(stages) == stages;
    }
  }

  lemma {:induction false} KeywordKind(stage: Stage)
    requires FirstKeyword(stage).Some?
    ensures var keyword := FirstKeyword(stage).value;
            (LeadsOn(keyword) <==> Inner(TokenOf(keyword, FirstWord(stage.text)))) && FirstKeyword(stage).GetOr(Done) == keyword
  {
    hide FirstKeyword, FirstWord, BlockOf;
  }

  // A segment that is not chained adds the rows of its tokens.
  lemma {:induction false} PlaceLaid(lay: Lay, rows: seq<Row>, tokens: seq<Token>, stages: seq<Stage>, sep: Sep, prev: Sep,
                                     width: nat, fence: bool)
    requires Laid(lay, rows, tokens, fence) && StagesOk(stages) && stages != [] && StageOk(stages[0])
    requires LayOk(lay) && Place(lay, stages, sep, prev, false, width, fence).Some?
    ensures var own := TokensOf(stages[0], false);
            Laid(Place(lay, stages, sep, prev, false, width, fence).value,
                 AddTokens(rows, tokens, own, AllStripped(stages), sep, fence), tokens + own, fence)
    decreases |stages[0].text|, 1
  {
    hide Laid, StageOk, FirstWord, ParseKeyword, KeywordDone, PlaceRest, JoinStages, Stated, TokensOf, RestTokens, AddTokens, AddToken,
         TokenOf, AllStripped, Inner, Piped;
    var stage, all := stages[0], AllStripped(stages);
    if FirstKeyword(stage).None? {
      StatementLaid(lay, rows, tokens, stages, sep, false, width, fence);
      PlainRows(stages, rows, tokens, sep, fence);
    } else {
      var word, keyword := FirstWord(stage.text), FirstKeyword(stage).value;
      var t, rest := TokenOf(keyword, word), RestTokens(stage);
      var now := AddToken(rows, tokens, t, all, sep, fence);
      KeywordText(stages);
      KeywordLaid(lay, rows, tokens, keyword, word, stages, sep, fence);
      KeywordMore(lay, keyword, word, JoinStages(stages), sep, fence);
      TokensFirst(stage, false);
      KeywordKind(stage);
      StrippedAdds(rows, tokens, t, stages, sep, fence);
      AddFirst(rows, tokens, t, rest, all, sep, fence);
      assert tokens + ([t] + rest) == tokens + [t] + rest;
      var (lay', more) := KeywordDone(lay, keyword, word, JoinStages(stages), sep, fence).value;
      if more {
        RestLaid(lay', now, tokens + [t], stages, sep, prev, width, fence);
      } else {
        RestMeans(stage, true, sep, prev);
        assert tokens + [t] + [] == tokens + [t];
      }
    }
  }

  lemma {:induction false} PlainRows(stages: seq<Stage>, rows: seq<Row>, tokens: seq<Token>, sep: Sep, fence: bool)
    requires stages != [] && StageOk(stages[0]) && FirstKeyword(stages[0]).None?
    ensures TokensOf(stages[0], false) == [Plain]
    ensures AddTokens(rows, tokens, [Plain], AllStripped(stages), sep, fence) == rows + [Going(Around(tokens), stages, sep, "")]
  {
    hide StageOk, Around, FirstWord, ParseKeyword, AfterWord;
    assert AllStripped(stages) == stages;
  }

  lemma {:induction false} KeywordMore(lay: Lay, keyword: Keyword, word: string, joined: string, sep: Sep, fence: bool)
    requires LayOk(lay) && KeywordDone(lay, keyword, word, joined, sep, fence).Some?
    ensures var (lay', more) := KeywordDone(lay, keyword, word, joined, sep, fence).value;
            (more <==> LeadsOn(keyword)) && lay'.lines != [] && LayOk(lay')
  {
    hide Line;
  }

  lemma {:induction false} StrippedNext(stages: seq<Stage>)
    requires stages != [] && StageOk(stages[0]) && LeadsOn(FirstKeyword(stages[0]).GetOr(Done))
    ensures var first := AfterWord(stages[0]);
            first.text != "" ==> StageOk(first) && AllStripped(stages[0 := first]) == AllStripped(stages)
  {
    hide StageOk, AfterWord, FirstKeyword;
    AfterWordOk(stages[0]);
  }

  lemma {:induction false} RestLaid(lay: Lay, rows: seq<Row>, tokens: seq<Token>, stages: seq<Stage>, sep: Sep, prev: Sep,
                                    width: nat, fence: bool)
    requires Laid(lay, rows, tokens, fence) && StagesOk(stages) && stages != [] && StageOk(stages[0])
    requires FirstKeyword(stages[0]).Some? && LeadsOn(FirstKeyword(stages[0]).value)
    requires LayOk(lay) && lay.lines != [] && PlaceRest(lay, stages, sep, prev, width, fence).Some?
    ensures var own := RestTokens(stages[0]);
            Laid(PlaceRest(lay, stages, sep, prev, width, fence).value,
                 AddTokens(rows, tokens, own, AllStripped(stages), sep, fence), tokens + own, fence)
    decreases |stages[0].text|, 0
  {
    hide Laid, StageOk, AfterWord, TokensOf, Place, Suffix, FirstKeyword, AddTokens, AllStripped;
    AfterWordOk(stages[0]);
    StrippedNext(stages);
    var first := AfterWord(stages[0]);
    if first.text == "" {
      SuffixLaid(lay, rows, tokens, sep, fence);
      AddNone(rows, tokens, AllStripped(stages), sep, fence);
      assert tokens + [] == tokens;
    } else {
      PlaceLaid(lay, rows, tokens, stages[0 := first], sep, prev, width, fence);
    }
  }

  // ----- the flags behind leading keywords -----

  lemma {:induction false} LaterFlagsIff(flags: seq<nat>, removed: nat, flag: nat)
    ensures flag in LaterFlags(flags, removed) <==> 0 < flag && flag + removed in flags
  {
    if flags != [] {
      LaterFlagsIff(flags[1..], removed, flag);
      assert flags == [flags[0]] + flags[1..];
    }
  }

  // The text is the end of another, and has the flags that lie there.
  ghost predicate EndsIn(text: Stage, whole: Stage, removed: nat) {
    && removed <= |whole.text| && text.text == whole.text[removed..]
    && forall flag: nat :: flag in text.flags <==> 0 < flag && flag + removed in whole.flags
  }

  lemma {:induction false} EndOfEnd(a: Stage, b: Stage, c: Stage, j: nat, k: nat)
    requires EndsIn(a, b, j) && EndsIn(b, c, k)
    ensures EndsIn(a, c, j + k)
  {
    assert c.text[k..][j..] == c.text[j + k..];
    forall flag: nat ensures flag in a.flags <==> 0 < flag && flag + (j + k) in c.flags {
      assert (flag + j) + k == flag + (j + k);
    }
  }

  lemma {:induction false} StrippedIs(stage: Stage)
    requires StageOk(stage)
    ensures |AfterWord(stage).text| < |stage.text| && (AfterWord(stage).text != "" ==> StageOk(AfterWord(stage)))
    ensures Stripped(stage) == stage || (AfterWord(stage).text != "" && Stripped(stage) == Stripped(AfterWord(stage)))
  {
    AfterWordOk(stage);
    hide StageOk, FirstKeyword, AfterWord;
  }

  // A stage behind its leading `do`, `then` and `else` is the end of its text, with every flag there.
  lemma {:induction false} StrippedEnds(stage: Stage) returns (removed: nat)
    requires StageOk(stage)
    ensures StageOk(Stripped(stage)) && EndsIn(Stripped(stage), stage, removed)
    decreases |stage.text|
  {
    hide *;
    StrippedIs(stage);
    if Stripped(stage) == stage {
      removed := 0;
      NothingRemoved(stage);
    } else {
      var j := StrippedEnds(AfterWord(stage));
      var k := AfterEnds(stage);
      EndOfEnd(Stripped(AfterWord(stage)), AfterWord(stage), stage, j, k);
      removed := j + k;
    }
  }

  lemma {:induction false} NothingRemoved(stage: Stage)
    requires StageOk(stage)
    ensures EndsIn(stage, stage, 0)
  {
    FlagsPositive(stage);
    hide StageOk;
  }

  lemma {:induction false} FlagsPositive(stage: Stage)
    requires StageOk(stage)
    ensures forall flag :: flag in stage.flags ==> flag > 0
  {
    hide IsSpace;
  }

  lemma {:induction false} AfterIs(stage: Stage)
    requires |AfterWord(stage).text| <= |stage.text|
    ensures AfterWord(stage).flags == LaterFlags(stage.flags, |stage.text| - |AfterWord(stage).text|)
  {
    hide FirstWord, TrimStart, LaterFlags;
  }

  lemma {:induction false} AfterEnds(stage: Stage) returns (removed: nat)
    requires StageOk(stage)
    ensures EndsIn(AfterWord(stage), stage, removed)
  {
    hide LaterFlags, StageOk, FirstWord, AfterWord;
    AfterWordSlice(stage);
    AfterIs(stage);
    removed := |stage.text| - |AfterWord(stage).text|;
    forall flag: nat ensures flag in AfterWord(stage).flags <==> 0 < flag && flag + removed in stage.flags {
      LaterFlagsIff(stage.flags, removed, flag);
    }
  }

  // ----- whole commands -----

  lemma {:induction false} ChainedPlace(lay: Lay, stages: seq<Stage>, sep: Sep, prev: Sep, width: nat, fence: bool)
    requires LayOk(lay) && StagesOk(stages) && stages != [] && StageOk(stages[0]) && Place(lay, stages, sep, prev, true, width, fence).Some?
    ensures Place(lay, stages, sep, prev, true, width, fence) == Some(Stated(lay, stages, sep, true, width, fence))
    ensures TokensOf(stages[0], true) == []
  {
    hide StageOk, FirstWord, ParseKeyword, KeywordDone, PlaceRest, JoinStages, Stated;
  }

  lemma {:induction false} LayUpToLaid(segments: seq<Segment>, k: nat, width: nat, fence: bool)
    requires k <= |segments| && SegmentsOk(segments) && LayUpTo(segments, k, width, fence).Some?
    ensures Laid(LayUpTo(segments, k, width, fence).value, RowsUpTo(segments, k, fence), CommandTokens(segments, k), fence)
  {
    hide Laid, Place, TokensOf, StageOk, AddTokens, Stated;
    if k == 0 {
      NothingLaid(fence);
    } else {
      LayUpToLaid(segments, k - 1, width, fence);
      var seg, prev := segments[k - 1], PrevSep(segments, k - 1);
      assert SegmentOk(seg) && StageOk(seg.stages[0]);
      var lay, tokens := LayUpTo(segments, k - 1, width, fence).value, CommandTokens(segments, k - 1);
      if IsChain(prev) {
        ChainedPlace(lay, seg.stages, seg.sep, prev, width, fence);
        StatementLaid(lay, RowsUpTo(segments, k - 1, fence), tokens, seg.stages, seg.sep, true, width, fence);
        assert tokens + [] == tokens;
      } else {
        PlaceLaid(lay, RowsUpTo(segments, k - 1, fence), tokens, seg.stages, seg.sep, prev, width, fence);
      }
    }
  }

  lemma {:induction false} NothingLaid(fence: bool)
    ensures Laid(Lay([], [], false), [], [], fence)
  {
    assert Spotted([], [], [], fence);
  }

  // Every printed line stands where its place says and says what its place says: the rows are the
  // command's, in order, and a row that goes on has its later stages and pieces further in.
  lemma {:induction false} LayoutIndents(segments: seq<Segment>, width: nat, fence: bool) returns (spots: seq<Spot>)
    requires SegmentsOk(segments) && LayoutSpec(segments, width, fence).Some?
    ensures Spotted(LayoutSpec(segments, width, fence).value, RowsUpTo(segments, |segments|, fence), spots, fence)
  {
    hide LayUpTo, RowsUpTo, CommandTokens, Spotted, Behind, SegmentOk;
    LayUpToLaid(segments, |segments|, width, fence);
    spots :| Spotted(LayUpTo(segments, |segments|, width, fence).value.lines, RowsUpTo(segments, |segments|, fence), spots, fence);
  }
}
