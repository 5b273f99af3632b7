// Where a command is cut and where its flags start, read off its characters: which operators stand
// outside every quote, nested command and brace group. The scan's answer, said without its rounds.
module ShellCuts {
  import opened Text
  import opened ShellScan
  import opened ShellReading
  import opened ShellPieces

  // ----- what stands where -----

  function ReadAt(chars: string, i: nat): Reading
    requires i <= |chars|
  {
    Read(OPEN, chars[..i])
  }

  predicate Stands(chars: string, i: nat, mark: string) {
    i + |mark| <= |chars| && chars[i..i + |mark|] == mark
  }

  predicate BlankAt(chars: string, i: nat) {
    i < |chars| && IsSpace(chars[i])
  }

  predicate OneOf(chars: string, i: nat, set': string) {
    i < |chars| && chars[i] in set'
  }

  // A brace stands apart from the word before it.
  predicate Apart(chars: string, i: nat) {
    i == 0 || BlankAt(chars, i - 1) || OneOf(chars, i - 1, ";")
  }

  predicate BraceOpens(chars: string, i: nat) {
    Stands(chars, i, "{") && Apart(chars, i) && BlankAt(chars, i + 1)
  }

  predicate BraceCloses(chars: string, i: nat) {
    Stands(chars, i, "}") && Apart(chars, i) && (i + 1 >= |chars| || BlankAt(chars, i + 1) || OneOf(chars, i + 1, ";&|)"))
  }

  // How many brace groups are open before position `i`.
  function Groups(chars: string, i: nat): nat
    requires i <= |chars|
  {
    if i == 0 then 0 else
      var before := Groups(chars, i - 1);
      if !Level(ReadAt(chars, i - 1)) then before
      else if BraceOpens(chars, i - 1) then before + 1
      else if BraceCloses(chars, i - 1) && before > 0 then before - 1
      else before
  }

  // Position `i` is outside every quote, nested command and brace group.
  predicate Top(chars: string, i: nat) {
    i < |chars| && Level(ReadAt(chars, i)) && Groups(chars, i) == 0
  }

  // The `&` or `|` at `i` belongs to a redirection.
  predicate Redirects(chars: string, i: nat) {
    || Stands(chars, i, "&>")
    || (i > 0 && (Stands(chars, i - 1, ">&") || Stands(chars, i - 1, "<&") || Stands(chars, i - 1, ">|")))
  }

  // The operator at `i`, the longest first.
  function OperatorAt(chars: string, i: nat): Sep {
    if Stands(chars, i, "&&") then And
    else if Stands(chars, i, "||") then Or
    else if Redirects(chars, i) then NoSep
    else if Stands(chars, i, ";") then Semi
    else if Stands(chars, i, "&") then Background
    else if Stands(chars, i, "|") then Pipe
    else NoSep
  }

  // No operator of two characters covers position `i` with its second one.
  predicate Begins(chars: string, i: nat) {
    i > 0 ==> !(Begins(chars, i - 1) && Top(chars, i - 1) && (Stands(chars, i - 1, "&&") || Stands(chars, i - 1, "||")))
  }

  // The separator that cuts the command at `i`, if any.
  function CutAt(chars: string, i: nat): Sep {
    if Top(chars, i) && Begins(chars, i) then OperatorAt(chars, i) else NoSep
  }

  // ----- what is never scanned -----

  // Position `i` is in no quote, but perhaps in a nested command.
  predicate Free(r: Reading) {
    (r.mode.Bare? || r.mode.Dollar?) && Last(r.stack) != Some(Double)
  }

  predicate Comment(chars: string, i: nat) {
    && Stands(chars, i, "#") && Free(ReadAt(chars, i))
    && (i == 0 || BlankAt(chars, i - 1) || OneOf(chars, i - 1, ";&|("))
  }

  predicate StrayParen(chars: string, i: nat) {
    Stands(chars, i, ")") && Free(ReadAt(chars, i)) && Last(ReadAt(chars, i).stack) != Some(Paren)
  }

  predicate Unknown(chars: string, i: nat) {
    Top(chars, i) && Begins(chars, i) && (Stands(chars, i, ";;") || Stands(chars, i, "|&"))
  }

  predicate Bad(chars: string, i: nat) {
    Comment(chars, i) || StrayParen(chars, i) || Unknown(chars, i)
  }

  // ----- the pieces between the cuts -----

  datatype Piece = Piece(start: nat, end: nat, sep: Sep)

  function RestStart(pieces: seq<Piece>): nat {
    if pieces == [] then 0 else
      var last := pieces[|pieces| - 1];
      last.end + |Mark(last.sep)|
  }

  function PiecesUpTo(chars: string, i: nat): seq<Piece> {
    if i == 0 then [] else
      var before := PiecesUpTo(chars, i - 1);
      var sep := CutAt(chars, i - 1);
      if sep == NoSep then before else before + [Piece(RestStart(before), i - 1, sep)]
  }

  function Part(chars: string, start: nat, end: nat): string {
    if start <= end <= |chars| then chars[start..end] else ""
  }

  function PieceText(chars: string, piece: Piece): string {
    Trim(Part(chars, piece.start, piece.end))
  }

  // ----- flags -----

  predicate Letter(chars: string, i: nat) {
    i < |chars| && ('a' <= chars[i] <= 'z' || 'A' <= chars[i] <= 'Z')
  }

  // A word that starts like a flag stands at `i`, behind a one-byte blank and behind some text.
  predicate LooksLikeFlag(chars: string, start: nat, i: nat) {
    && 0 < i && start < i && Top(chars, i - 1) && OneOf(chars, i - 1, " \t")
    && (Stands(chars, i, "--") || (Stands(chars, i, "-") && Letter(chars, i + 1)))
    && Trim(Part(chars, start, i - 1)) != ""
  }

  predicate LoneDashes(chars: string, i: nat) {
    Stands(chars, i, "--") && (i + 2 >= |chars| || BlankAt(chars, i + 2))
  }

  // A lone `--` stands at or before `i`, in the piece that starts at `start`.
  predicate FlagsEnded(chars: string, start: nat, i: nat) {
    exists k :: start < k <= i && LooksLikeFlag(chars, start, k) && LoneDashes(chars, k)
  }

  predicate FlagAt(chars: string, start: nat, i: nat) {
    LooksLikeFlag(chars, start, i) && !FlagsEnded(chars, start, i - 1)
  }

  // The flags up to position `i`, as offsets into the text from `base` on.
  function FlagsUpTo(chars: string, start: nat, base: nat, i: nat): seq<nat> {
    if i <= start then [] else
      FlagsUpTo(chars, start, base, i - 1) + if FlagAt(chars, start, i) && base <= i then [i - base] else []
  }

  // ----- the stages and segments -----

  function StageOf(chars: string, piece: Piece): Stage {
    var lead := LeadEnd(Part(chars, piece.start, piece.end), 0);
    Stage(PieceText(chars, piece), FlagsUpTo(chars, piece.start, piece.start + lead, piece.end))
  }

  datatype Collected = Collected(segments: seq<Segment>, stages: seq<Stage>)

  // The pieces in order, a segment closed behind each one that is not followed by `|`.
  function Collect(chars: string, pieces: seq<Piece>): Collected {
    if pieces == [] then Collected([], []) else
      var before := Collect(chars, pieces[..|pieces| - 1]);
      var last := pieces[|pieces| - 1];
      var stages := before.stages + [StageOf(chars, last)];
      if last.sep == Pipe then Collected(before.segments, stages)
      else Collected(before.segments + [Segment(stages, last.sep)], [])
  }

  predicate NoneBlank(chars: string, pieces: seq<Piece>) {
    forall k :: 0 <= k < |pieces| ==> PieceText(chars, pieces[k]) != ""
  }

  function Cuts(chars: string): seq<Piece> {
    PiecesUpTo(chars, |chars|)
  }

  function RestPiece(chars: string): Piece {
    Piece(RestStart(Cuts(chars)), |chars|, NoSep)
  }

  // All pieces: blanks behind a last `;` or `&` are none.
  function AllPieces(chars: string): seq<Piece> {
    if PieceText(chars, RestPiece(chars)) == "" then Cuts(chars) else Cuts(chars) + [RestPiece(chars)]
  }

  // A list of pieces that a command may end with.
  predicate MayEnd(pieces: seq<Piece>) {
    pieces != [] && var last := pieces[|pieces| - 1]; last.sep == NoSep || last.sep == Semi || last.sep == Background
  }

  // Every quote, nested command and group is closed, no piece is empty, and nothing in the command
  // is beyond the scanner.
  predicate Scannable(chars: string) {
    && Level(ReadAt(chars, |chars|)) && Groups(chars, |chars|) == 0
    && (forall i :: 0 <= i < |chars| ==> !Bad(chars, i))
    && NoneBlank(chars, Cuts(chars))
    && MayEnd(AllPieces(chars))
  }
}
