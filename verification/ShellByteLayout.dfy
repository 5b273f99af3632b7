// The layout as the code runs it, cutting stages with byte offsets, where a slice that is out of
// bounds or inside a character panics: it never panics, and prints the same lines.
module ShellByteLayout {
  import opened Text
  import opened Utf8
  import opened ShellScan
  import opened ShellShape
  import opened ShellLayout
  import opened ShellFormat
  import opened ShellByteScan
  import B = ShellBytes

  // `&text[start..end]`.
  function Slice(text: string, start: int, end: int): Outcome<string> {
    var bytes := EncodeAll(text);
    if 0 <= start <= end <= |bytes| && Boundary(bytes, start) && Boundary(bytes, end)
    then Returned(Decode(bytes[start..end]).0)
    else Panicked
  }

  // A slice between the places of two characters is the text between them.
  lemma {:induction false} SliceIs(text: string, a: nat, b: nat)
    requires a <= b <= |text|
    ensures Slice(text, B.Place(text, a), B.Place(text, b)) == Returned(text[a..b])
    ensures B.Place(text, |text|) == Size(text)
  {
    hide EncodeAll, Decode, Boundary, B.Place;
    B.SlicePlaces(text, a, b);
    B.PlaceCuts(text, a);
    B.PlaceCuts(text, b);
    DecodeEncoded(text[a..b]);
    PlaceOfEnd(text);
  }

  lemma {:induction false} PlaceOfEnd(text: string)
    ensures B.Place(text, |text|) == Size(text) && B.Place(text, 0) == 0
  {
    assert text[..|text|] == text && text[..0] == "";
  }

  // Every character boundary is the place of a character.
  lemma {:induction false} BoundaryIsPlace(text: string, i: nat) returns (k: nat)
    requires i <= Size(text) && Boundary(EncodeAll(text), i)
    ensures k <= |text| && B.Place(text, k) == i
    decreases |text|
  {
    if i == 0 {
      k := 0;
      PlaceOfEnd(text);
    } else {
      hide Encode, Continues, B.Place;
      var first, rest := Encode(text[0]), text[1..];
      assert EncodeAll(text) == first + EncodeAll(rest);
      EncodedBytes(text[0]);
      BehindFirst(first, EncodeAll(rest), i);
      var j := BoundaryIsPlace(rest, i - |first|);
      k := j + 1;
      B.PlaceBehind(text, 1, j);
      FirstPlace(text);
    }
  }

  lemma {:induction false} FirstPlace(text: string)
    requires text != ""
    ensures B.Place(text, 1) == |Encode(text[0])|
  {
    hide Encode, B.Place;
    PlaceOfEnd(text);
    B.PlaceNext(text, 0);
  }

  lemma {:induction false} BehindFirst(first: seq<byte>, rest: seq<byte>, i: nat)
    requires first != [] && (forall j :: 0 < j < |first| ==> Continues(first[j]))
    requires 0 < i <= |first + rest| && Boundary(first + rest, i)
    ensures |first| <= i && Boundary(rest, i - |first|)
  {
    hide Continues;
    assert |first| <= i < |first + rest| ==> (first + rest)[i] == rest[i - |first|];
  }

  // What is left behind a slice that took something is shorter.
  lemma {:induction false} TailIsShorter(text: string, start: nat)
    requires 0 < start && Slice(text, start, Size(text)).Returned?
    ensures |Slice(text, start, Size(text)).value| < |text|
  {
    var k := BoundaryIsPlace(text, start);
    hide Slice, EncodeAll, Boundary, B.Place, Size;
    PlaceOfEnd(text);
    SliceIs(text, k, |text|);
    assert k > 0;
    assert |text[k..|text|]| == |text| - k;
  }

  // ----- lines -----

  function CutLine(indent: nat, prefix: string, first: bool, text: string, fence: bool): string {
    if first then Line(indent, prefix + text + " \\", NoSep, fence) else Line(indent + INDENT, text + " \\", NoSep, fence)
  }

  // The first `k` lines of a wrapped stage.
  function BytePieces(indent: nat, prefix: string, stage: Stage, fence: bool, k: nat): Outcome<seq<string>>
    requires k <= |stage.flags|
  {
    if k == 0 then Returned([]) else
      match BytePieces(indent, prefix, stage, fence, k - 1)
      case Panicked => Panicked
      case Returned(lines) =>
        var start := if k == 1 then 0 else stage.flags[k - 2];
        match Slice(stage.text, start, stage.flags[k - 1] as int - 1)
        case Panicked => Panicked
        case Returned(text) =>
          Returned(lines + [CutLine(indent, prefix, start == 0, text, fence)])
  }

  function ByteStageLines(indent: nat, prefix: string, stage: Stage, sep: Sep, width: nat, fence: bool): Outcome<seq<string>> {
    var total := indent + |prefix| + |stage.text| + |Suffix(sep, fence)|;
    if total <= width || stage.flags == [] then Returned([Line(indent, prefix + stage.text, sep, fence)])
    else
      match BytePieces(indent, prefix, stage, fence, |stage.flags|)
      case Panicked => Panicked
      case Returned(lines) =>
        match Slice(stage.text, stage.flags[|stage.flags| - 1], Size(stage.text))
        case Panicked => Panicked
        case Returned(text) => Returned(lines + [Line(indent + INDENT, text, sep, fence)])
  }

  function BytePipeLines(indent: nat, stages: seq<Stage>, sep: Sep, width: nat, fence: bool, k: nat): Outcome<seq<string>>
    requires k <= |stages|
  {
    if k == 0 then Returned([]) else
      match BytePipeLines(indent, stages, sep, width, fence, k - 1)
      case Panicked => Panicked
      case Returned(lines) =>
        var at := if k == 1 then indent else indent + INDENT;
        var prefix := if k == 1 || fence then "" else "| ";
        var suffix := if k == |stages| then sep else if fence then Pipe else NoSep;
        match ByteStageLines(at, prefix, stages[k - 1], suffix, width, fence)
        case Panicked => Panicked
        case Returned(more) => Returned(lines + more)
  }

  function ByteStatementLines(indent: nat, stages: seq<Stage>, sep: Sep, width: nat, fence: bool): Outcome<seq<string>>
    requires stages != []
  {
    var joined := JoinStages(stages);
    if |stages| > 1 && indent + |joined| + |Suffix(sep, fence)| > width then
      BytePipeLines(indent, stages, sep, width, fence, |stages|)
    else if |stages| == 1 then ByteStageLines(indent, "", stages[0], sep, width, fence)
    else Returned([Line(indent, joined, sep, fence)])
  }

  lemma {:induction false} WordHasSize(word: string)
    requires word != ""
    ensures Size(word) > 0
  {
    hide Encode;
    EncodedBytes(word[0]);
  }

  // The first stage without its first word.
  function ByteAfterWord(stage: Stage): (r: Outcome<Stage>)
    requires FirstWord(stage.text) != ""
    ensures r.Returned? ==> |r.value.text| < |stage.text|
  {
    var start := Size(FirstWord(stage.text));
    WordHasSize(FirstWord(stage.text));
    match Slice(stage.text, start, Size(stage.text))
    case Panicked => Panicked
    case Returned(rest) =>
      TailIsShorter(stage.text, start);
      var remaining := TrimStart(rest);
      var removed := Size(stage.text) - Size(remaining);
      if removed < 0 then Panicked else Returned(Stage(remaining, LaterFlags(stage.flags, removed)))
  }

  function BytePlace(lay: Lay, stages: seq<Stage>, sep: Sep, prev: Sep, chain: bool, width: nat, fence: bool)
    : (r: Outcome<Option<Lay>>)
    requires LayOk(lay) && stages != []
    ensures r.Returned? && r.value.Some? ==> LayOk(r.value.value)
    decreases |stages[0].text|, 1
  {
    var word := FirstWord(stages[0].text);
    var keyword := ParseKeyword(word);
    if keyword.None? then
      match ByteStatementLines(StatementIndent(lay, chain), stages, sep, width, fence)
      case Panicked => Panicked
      case Returned(lines) => Returned(Some(lay.(lines := lay.lines + lines, headerOpen := lay.headerOpen && chain)))
    else if chain || (prev == Background && keyword.value != Header) then Returned(None)
    else
      match KeywordDone(lay, keyword.value, word, JoinStages(stages), sep, fence)
      case None => Returned(None)
      case Some((lay', more)) => if more then BytePlaceRest(lay', stages, sep, prev, width, fence) else Returned(Some(lay'))
  }

  function BytePlaceRest(lay: Lay, stages: seq<Stage>, sep: Sep, prev: Sep, width: nat, fence: bool)
    : (r: Outcome<Option<Lay>>)
    requires LayOk(lay) && lay.lines != [] && stages != [] && FirstWord(stages[0].text) != ""
    ensures r.Returned? && r.value.Some? ==> LayOk(r.value.value)
    decreases |stages[0].text|, 0
  {
    match ByteAfterWord(stages[0])
    case Panicked => Panicked
    case Returned(first) =>
      if first.text == "" then
        Returned(if |stages| > 1 || (sep != NoSep && sep != Semi) then None
                 else Some(lay.(lines := AppendLast(lay.lines, Suffix(sep, fence)))))
      else BytePlace(lay, stages[0 := first], sep, prev, false, width, fence)
  }

  predicate Stocked(segments: seq<Segment>) {
    forall j :: 0 <= j < |segments| ==> segments[j].stages != []
  }

  // The machine after the first `k` segments.
  function ByteLayUpTo(segments: seq<Segment>, k: nat, width: nat, fence: bool): (r: Outcome<Option<Lay>>)
    requires k <= |segments| && Stocked(segments)
    ensures r.Returned? && r.value.Some? ==> LayOk(r.value.value)
  {
    if k == 0 then Returned(Some(Lay([], [], false))) else
      match ByteLayUpTo(segments, k - 1, width, fence)
      case Panicked => Panicked
      case Returned(None) => Returned(None)
      case Returned(Some(lay)) =>
        var seg, prev := segments[k - 1], PrevSep(segments, k - 1);
        BytePlace(lay, seg.stages, seg.sep, prev, IsChain(prev), width, fence)
  }

  function ByteLayout(segments: seq<Segment>, width: nat, fence: bool): Outcome<Option<seq<string>>>
    requires Stocked(segments)
  {
    match ByteLayUpTo(segments, |segments|, width, fence)
    case Panicked => Panicked
    case Returned(None) => Returned(None)
    case Returned(Some(lay)) => Returned(if lay.stack != [] || lay.headerOpen then None else Some(lay.lines))
  }

  // The formatter on byte offsets; a segment without stages would panic.
  function ByteFormat(command: string, width: nat, fence: bool): Outcome<Option<string>> {
    if !PlainLine(command) then Returned(None)
    else
      match ByteScanFrom(command, Pos(0, [], 0, START))
      case Panicked => Panicked
      case Returned(None) => Returned(None)
      case Returned(Some(segments)) =>
        if |command| <= width && !HasSequence(segments) then Returned(None)
        else if !Stocked(segments) then Panicked
        else
          match ByteLayout(segments, width, fence)
          case Panicked => Panicked
          case Returned(None) => Returned(None)
          case Returned(Some(lines)) => Returned(if |lines| < 2 then None else Some(Join(lines, "\n")))
  }

  // ----- the same lines -----

  lemma {:induction false} FlagSame(b: Stage, s: Stage, k: nat)
    requires SameStage(b, s) && k < |s.flags|
    ensures |b.flags| == |s.flags| && s.flags[k] <= |s.text| && b.flags[k] == B.Place(s.text, s.flags[k])
  {
    hide B.Place;
  }

  lemma {:induction false} StartSame(b: Stage, s: Stage, k: nat)
    requires SameStage(b, s) && k < |s.flags| && FlagsOk(s.text, s.flags)
    ensures |b.flags| == |s.flags| && PieceStart(s.flags, k) <= |s.text|
    ensures ByteStart(b.flags, k) == B.Place(s.text, PieceStart(s.flags, k))
    ensures ByteStart(b.flags, k) == 0 <==> k == 0
  {
    PieceBounds(s.text, s.flags, k);
    PlaceOfEnd(s.text);
    hide FlagsOk, B.Place, Size;
    B.PlaceGrows(s.text, 0, PieceStart(s.flags, k));
  }

  // The slice of the `k`-th piece of a wrapped stage.
  lemma {:induction false} PieceSlice(b: Stage, s: Stage, k: nat)
    requires SameStage(b, s) && FlagsOk(s.text, s.flags) && k < |s.flags|
    ensures |b.flags| == |s.flags| && PieceStart(s.flags, k) <= s.flags[k] - 1 <= |s.text|
    ensures ByteStart(b.flags, k) == 0 <==> k == 0
    ensures Slice(b.text, ByteStart(b.flags, k), b.flags[k] as int - 1) ==
            Returned(s.text[PieceStart(s.flags, k)..s.flags[k] - 1])
  {
    hide *;
    SameText(b, s);
    PieceBounds(s.text, s.flags, k);
    FlagSame(b, s, k);
    StartSame(b, s, k);
    B.FlagIsBoundary(s.text, s.flags, k);
    SliceIs(s.text, PieceStart(s.flags, k), s.flags[k] - 1);
  }

  lemma {:induction false} LastSlice(b: Stage, s: Stage)
    requires SameStage(b, s) && FlagsOk(s.text, s.flags) && s.flags != []
    ensures |b.flags| == |s.flags| && PieceStart(s.flags, |s.flags|) <= |s.text|
    ensures Slice(b.text, b.flags[|b.flags| - 1], Size(b.text)) == Returned(s.text[PieceStart(s.flags, |s.flags|)..])
  {
    PieceBounds(s.text, s.flags, |s.flags|);
    hide Slice, FlagsOk, B.Place, Size;
    PlaceOfEnd(s.text);
    var start := PieceStart(s.flags, |s.flags|);
    SliceIs(s.text, start, |s.text|);
    assert s.text[start..|s.text|] == s.text[start..];
  }

  function ByteStart(flags: seq<nat>, k: nat): nat
    requires k <= |flags|
  {
    if k == 0 then 0 else flags[k - 1]
  }

  lemma {:induction false} BytePiecesStep(indent: nat, prefix: string, b: Stage, fence: bool, k: nat, lines: seq<string>, text: string)
    requires k < |b.flags| && BytePieces(indent, prefix, b, fence, k) == Returned(lines)
    requires Slice(b.text, ByteStart(b.flags, k), b.flags[k] as int - 1) == Returned(text)
    ensures BytePieces(indent, prefix, b, fence, k + 1) ==
            Returned(lines + [CutLine(indent, prefix, ByteStart(b.flags, k) == 0, text, fence)])
  {
    hide Slice, CutLine;
  }

  lemma {:induction false} PieceLineIs(indent: nat, prefix: string, s: Stage, fence: bool, k: nat)
    requires FlagsOk(s.text, s.flags) && k < |s.flags|
    ensures PieceStart(s.flags, k) <= s.flags[k] - 1 <= |s.text|
    ensures PieceLine(indent, prefix, s, fence, k) ==
            CutLine(indent, prefix, k == 0, s.text[PieceStart(s.flags, k)..s.flags[k] - 1], fence)
    ensures Pieces(indent, prefix, s, fence, k + 1) == Pieces(indent, prefix, s, fence, k) + [PieceLine(indent, prefix, s, fence, k)]
  {
    PieceBounds(s.text, s.flags, k);
    hide FlagsOk, Line;
  }

  lemma {:induction false} PiecesGrow(indent: nat, prefix: string, b: Stage, s: Stage, fence: bool, k: nat)
    requires SameStage(b, s) && FlagsOk(s.text, s.flags) && k < |s.flags| == |b.flags|
    requires BytePieces(indent, prefix, b, fence, k) == Returned(Pieces(indent, prefix, s, fence, k))
    ensures BytePieces(indent, prefix, b, fence, k + 1) == Returned(Pieces(indent, prefix, s, fence, k + 1))
  {
    hide *;
    PieceSlice(b, s, k);
    PieceLineIs(indent, prefix, s, fence, k);
    BytePiecesStep(indent, prefix, b, fence, k, Pieces(indent, prefix, s, fence, k), s.text[PieceStart(s.flags, k)..s.flags[k] - 1]);
  }

  lemma {:induction false} PiecesSame(indent: nat, prefix: string, b: Stage, s: Stage, fence: bool, k: nat)
    requires SameStage(b, s) && FlagsOk(s.text, s.flags) && k <= |s.flags|
    ensures |b.flags| == |s.flags|
    ensures BytePieces(indent, prefix, b, fence, k) == Returned(Pieces(indent, prefix, s, fence, k))
  {
    hide *;
    SameText(b, s);
    if k == 0 {
      NoPieces(indent, prefix, b, s, fence);
    } else {
      PiecesSame(indent, prefix, b, s, fence, k - 1);
      PiecesGrow(indent, prefix, b, s, fence, k - 1);
    }
  }

  lemma {:induction false} NoPieces(indent: nat, prefix: string, b: Stage, s: Stage, fence: bool)
    requires SameStage(b, s) && FlagsOk(s.text, s.flags)
    ensures |b.flags| == |s.flags|
    ensures BytePieces(indent, prefix, b, fence, 0) == Returned(Pieces(indent, prefix, s, fence, 0))
  {
    hide FlagsOk, B.Place;
  }

  lemma {:induction false} ByteStageIs(indent: nat, prefix: string, b: Stage, sep: Sep, width: nat, fence: bool, lines: seq<string>, text: string)
    requires BytePieces(indent, prefix, b, fence, |b.flags|) == Returned(lines)
    requires b.flags != [] ==> Slice(b.text, b.flags[|b.flags| - 1], Size(b.text)) == Returned(text)
    ensures ByteStageLines(indent, prefix, b, sep, width, fence) ==
            Returned(if indent + |prefix| + |b.text| + |Suffix(sep, fence)| <= width || b.flags == []
                     then [Line(indent, prefix + b.text, sep, fence)]
                     else lines + [Line(indent + INDENT, text, sep, fence)])
  {
    hide Slice, Line, BytePieces, Suffix, Size;
  }

  lemma {:induction false} StageIs(indent: nat, prefix: string, s: Stage, sep: Sep, width: nat, fence: bool)
    requires FlagsOk(s.text, s.flags)
    ensures PieceStart(s.flags, |s.flags|) <= |s.text|
    ensures StageLines(indent, prefix, s, sep, width, fence) ==
            if indent + |prefix| + |s.text| + |Suffix(sep, fence)| <= width || s.flags == []
            then [Line(indent, prefix + s.text, sep, fence)]
            else Pieces(indent, prefix, s, fence, |s.flags|)
                 + [Line(indent + INDENT, s.text[PieceStart(s.flags, |s.flags|)..], sep, fence)]
  {
    PieceBounds(s.text, s.flags, |s.flags|);
    hide FlagsOk, Line, Pieces, Suffix;
  }

  lemma {:induction false} SameText(b: Stage, s: Stage)
    requires SameStage(b, s)
    ensures b.text == s.text && |b.flags| == |s.flags|
  {
    hide B.Place;
  }

  lemma {:induction false} StageLinesSame(indent: nat, prefix: string, b: Stage, s: Stage, sep: Sep, width: nat, fence: bool)
    requires SameStage(b, s) && FlagsOk(s.text, s.flags)
    ensures ByteStageLines(indent, prefix, b, sep, width, fence) == Returned(StageLines(indent, prefix, s, sep, width, fence))
  {
    hide *;
    var n := |s.flags|;
    SameText(b, s);
    PiecesSame(indent, prefix, b, s, fence, n);
    StageIs(indent, prefix, s, sep, width, fence);
    var text := s.text[PieceStart(s.flags, n)..];
    if n > 0 {
      LastSlice(b, s);
    }
    ByteStageIs(indent, prefix, b, sep, width, fence, Pieces(indent, prefix, s, fence, n), text);
  }

  // The lines of the `k`-th of `n` stages.
  function OwnLines(indent: nat, s: Stage, sep: Sep, width: nat, fence: bool, k: nat, n: nat): seq<string>
    requires FlagsOk(s.text, s.flags)
  {
    StageLines(if k == 0 then indent else indent + INDENT, if k == 0 || fence then "" else "| ", s,
               if k + 1 == n then sep else if fence then Pipe else NoSep, width, fence)
  }

  lemma {:induction false} BytePipeIs(indent: nat, bs: seq<Stage>, s: Stage, sep: Sep, width: nat, fence: bool, k: nat, lines: seq<string>)
    requires k < |bs| && SameStage(bs[k], s) && FlagsOk(s.text, s.flags)
    requires BytePipeLines(indent, bs, sep, width, fence, k) == Returned(lines)
    ensures BytePipeLines(indent, bs, sep, width, fence, k + 1) == Returned(lines + OwnLines(indent, s, sep, width, fence, k, |bs|))
  {
    hide SameStage, FlagsOk, ByteStageLines, StageLines;
    StageLinesSame(if k == 0 then indent else indent + INDENT, if k == 0 || fence then "" else "| ", bs[k], s,
                   if k + 1 == |bs| then sep else if fence then Pipe else NoSep, width, fence);
  }

  lemma {:induction false} PipeLinesIs(indent: nat, ss: seq<Stage>, sep: Sep, width: nat, fence: bool, k: nat)
    requires StagesOk(ss) && k < |ss|
    ensures FlagsOk(ss[k].text, ss[k].flags)
    ensures PipeLines(indent, ss, sep, width, fence, k + 1) ==
            PipeLines(indent, ss, sep, width, fence, k) + OwnLines(indent, ss[k], sep, width, fence, k, |ss|)
  {
    StageFlags(ss, k);
    hide StageOk, FlagsOk, StageLines;
  }

  lemma {:induction false} StageAt(bs: seq<Stage>, ss: seq<Stage>, k: nat)
    requires SameStages(bs, ss)
    ensures |bs| == |ss| && (k < |ss| ==> SameStage(bs[k], ss[k]))
  {
    hide SameStage;
  }

  lemma {:induction false} PipeGrows(indent: nat, bs: seq<Stage>, ss: seq<Stage>, sep: Sep, width: nat, fence: bool, k: nat)
    requires SameStages(bs, ss) && StagesOk(ss) && k < |ss| == |bs|
    requires BytePipeLines(indent, bs, sep, width, fence, k) == Returned(PipeLines(indent, ss, sep, width, fence, k))
    ensures BytePipeLines(indent, bs, sep, width, fence, k + 1) == Returned(PipeLines(indent, ss, sep, width, fence, k + 1))
  {
    hide *;
    PipeLinesIs(indent, ss, sep, width, fence, k);
    StageAt(bs, ss, k);
    BytePipeIs(indent, bs, ss[k], sep, width, fence, k, PipeLines(indent, ss, sep, width, fence, k));
  }

  lemma {:induction false} PipeLinesSame(indent: nat, bs: seq<Stage>, ss: seq<Stage>, sep: Sep, width: nat, fence: bool, k: nat)
    requires SameStages(bs, ss) && StagesOk(ss) && k <= |ss|
    ensures |bs| == |ss|
    ensures BytePipeLines(indent, bs, sep, width, fence, k) == Returned(PipeLines(indent, ss, sep, width, fence, k))
  {
    hide *;
    StageAt(bs, ss, k);
    if k == 0 {
      NothingPiped(indent, bs, ss, sep, width, fence);
    } else {
      PipeLinesSame(indent, bs, ss, sep, width, fence, k - 1);
      PipeGrows(indent, bs, ss, sep, width, fence, k - 1);
    }
  }

  lemma {:induction false} NothingPiped(indent: nat, bs: seq<Stage>, ss: seq<Stage>, sep: Sep, width: nat, fence: bool)
    requires StagesOk(ss)
    ensures BytePipeLines(indent, bs, sep, width, fence, 0) == Returned(PipeLines(indent, ss, sep, width, fence, 0))
  {
    hide StageOk;
  }

  lemma {:induction false} SameJoined(bs: seq<Stage>, ss: seq<Stage>)
    requires SameStages(bs, ss)
    ensures JoinStages(bs) == JoinStages(ss)
  {
    hide SameFlags;
    assert forall k :: 0 <= k < |ss| ==> SameStage(bs[k], ss[k]);
    assert Texts(bs) == Texts(ss);
  }

  lemma {:induction false} StatementSame(indent: nat, bs: seq<Stage>, ss: seq<Stage>, sep: Sep, width: nat, fence: bool)
    requires SameStages(bs, ss) && StagesOk(ss) && ss != []
    ensures ByteStatementLines(indent, bs, sep, width, fence) == Returned(StatementLines(indent, ss, sep, width, fence))
  {
    SameJoined(bs, ss);
    StageFlags(ss, 0);
    assert SameStage(bs[0], ss[0]);
    hide SameStage, StageOk, FlagsOk, ByteStageLines, StageLines, JoinStages, BytePipeLines, PipeLines, Line, Suffix;
    PipeLinesSame(indent, bs, ss, sep, width, fence, |ss|);
    StageLinesSame(indent, "", bs[0], ss[0], sep, width, fence);
  }

  lemma {:induction false} RestSlice(s: Stage)
    requires StageOk(s)
    ensures var word := FirstWord(s.text);
            && |word| <= |s.text|
            && Slice(s.text, Size(word), Size(s.text)) == Returned(s.text[|word|..])
  {
    AfterWordSlice(s);
    var word := FirstWord(s.text);
    hide Slice, StageOk, B.Place, Size, FirstWord, AfterWord;
    SliceIs(s.text, |word|, |s.text|);
    WordPlace(s.text, |word|);
    assert s.text[..|word|] == word && s.text[|word|..|s.text|] == s.text[|word|..];
  }

  lemma {:induction false} FlagsArePlaces(text: string, bytes: seq<nat>, flags: seq<nat>)
    requires forall k :: 0 <= k < |flags| ==> flags[k] <= |text|
    ensures SameFlags(text, bytes, flags) <==> bytes == B.Places(text, flags)
  {
    hide B.Place;
  }

  lemma {:induction false} FlagsInside(text: string, bytes: seq<nat>, flags: seq<nat>)
    requires SameFlags(text, bytes, flags)
    ensures forall k :: 0 <= k < |flags| ==> flags[k] <= |text|
  {
    hide B.Place;
  }

  lemma {:induction false} RestFlags(text: string, bytes: seq<nat>, flags: seq<nat>, removed: nat)
    requires SameFlags(text, bytes, flags) && removed <= |text|
    ensures SameFlags(text[removed..], LaterFlags(bytes, B.Place(text, removed)), LaterFlags(flags, removed))
  {
    hide *;
    FlagsInside(text, bytes, flags);
    FlagsArePlaces(text, bytes, flags);
    B.LaterPlaces(text, flags, removed);
    FlagsArePlaces(text[removed..], LaterFlags(bytes, B.Place(text, removed)), LaterFlags(flags, removed));
  }

  lemma {:induction false} ByteAfterIs(stage: Stage, rest: string)
    requires FirstWord(stage.text) != "" && Slice(stage.text, Size(FirstWord(stage.text)), Size(stage.text)) == Returned(rest)
    requires Size(TrimStart(rest)) <= Size(stage.text)
    ensures ByteAfterWord(stage) ==
            Returned(Stage(TrimStart(rest), LaterFlags(stage.flags, Size(stage.text) - Size(TrimStart(rest)))))
  {
    hide Slice, Size, FirstWord, TrimStart, LaterFlags;
  }

  lemma {:induction false} AfterIs(stage: Stage)
    requires |FirstWord(stage.text)| <= |stage.text|
    ensures var rest := TrimStart(stage.text[|FirstWord(stage.text)|..]);
            && AfterWord(stage).text == rest
            && (|rest| <= |stage.text| ==> AfterWord(stage).flags == LaterFlags(stage.flags, |stage.text| - |rest|))
  {
    hide FirstWord, TrimStart, LaterFlags;
  }

  lemma {:induction false} MakeSame(b: Stage, s: Stage)
    requires b.text == s.text && SameFlags(s.text, b.flags, s.flags)
    ensures SameStage(b, s)
  {
  }

  lemma {:induction false} SameParts(b: Stage, s: Stage)
    requires SameStage(b, s)
    ensures b.text == s.text && SameFlags(s.text, b.flags, s.flags)
  {
  }

  lemma {:induction false} RemovedSize(s: Stage)
    requires StageOk(s)
    ensures var removed := |s.text| - |AfterWord(s).text|;
            && 0 <= removed <= |s.text| && AfterWord(s).text == s.text[removed..]
            && Size(s.text) - Size(AfterWord(s).text) == B.Place(s.text, removed)
  {
    AfterWordSlice(s);
    B.RemovedBytes(s);
    hide StageOk, B.Place, EncodeAll, AfterWord;
  }

  lemma {:induction false} AfterWordSame(b: Stage, s: Stage)
    requires SameStage(b, s) && StageOk(s)
    ensures FirstWord(b.text) != ""
    ensures ByteAfterWord(b).Returned? && SameStage(ByteAfterWord(b).value, AfterWord(s))
  {
    hide *;
    SameParts(b, s);
    AfterWordSlice(s);
    RestSlice(s);
    RemovedSize(s);
    AfterIs(s);
    RestFlags(s.text, b.flags, s.flags, |s.text| - |AfterWord(s).text|);
    ByteAfterIs(b, s.text[|FirstWord(s.text)|..]);
    MakeSame(ByteAfterWord(b).value, AfterWord(s));
  }

  lemma {:induction false} WordPlace(text: string, k: nat)
    requires k <= |text|
    ensures B.Place(text, k) == Size(text[..k])
  {
  }

  lemma {:induction false} SameWithFirst(bs: seq<Stage>, ss: seq<Stage>, b: Stage, s: Stage)
    requires SameStages(bs, ss) && ss != [] && SameStage(b, s)
    ensures SameStages(bs[0 := b], ss[0 := s])
  {
    hide SameStage;
  }

  lemma {:induction false} PlaceSame(lay: Lay, bs: seq<Stage>, ss: seq<Stage>, sep: Sep, prev: Sep, chain: bool, width: nat, fence: bool)
    requires LayOk(lay) && SameStages(bs, ss) && StagesOk(ss) && ss != []
    ensures BytePlace(lay, bs, sep, prev, chain, width, fence) == Returned(Place(lay, ss, sep, prev, chain, width, fence))
    decreases |ss[0].text|, 1
  {
    hide SameStage, StageOk, ParseKeyword, JoinStages, KeywordDone, StatementLines, ByteStatementLines, StatementIndent,
         FirstWord, PlaceRest, BytePlaceRest;
    SameTexts(bs, ss);
    SameJoined(bs, ss);
    var word := FirstWord(ss[0].text);
    var keyword := ParseKeyword(word);
    if keyword.None? {
      StatementSame(StatementIndent(lay, chain), bs, ss, sep, width, fence);
    } else if !(chain || (prev == Background && keyword.value != Header)) {
      var done := KeywordDone(lay, keyword.value, word, JoinStages(ss), sep, fence);
      if done.Some? && done.value.1 {
        PlaceRestSame(done.value.0, bs, ss, sep, prev, width, fence);
      }
    }
  }

  lemma {:induction false} SameTexts(bs: seq<Stage>, ss: seq<Stage>)
    requires SameStages(bs, ss) && ss != []
    ensures bs != [] && bs[0].text == ss[0].text && SameStage(bs[0], ss[0])
  {
    assert SameStage(bs[0], ss[0]);
    hide SameFlags;
  }

  lemma {:induction false} PlaceRestSame(lay: Lay, bs: seq<Stage>, ss: seq<Stage>, sep: Sep, prev: Sep, width: nat, fence: bool)
    requires LayOk(lay) && lay.lines != [] && SameStages(bs, ss) && StagesOk(ss) && ss != []
    ensures FirstWord(bs[0].text) != ""
    ensures BytePlaceRest(lay, bs, sep, prev, width, fence) == Returned(PlaceRest(lay, ss, sep, prev, width, fence))
    decreases |ss[0].text|, 0
  {
    hide StageOk, FirstWord, Place, BytePlace, AfterWord, ByteAfterWord, SameFlags;
    SameTexts(bs, ss);
    assert StageOk(ss[0]);
    AfterWordSame(bs[0], ss[0]);
    AfterWordOk(ss[0]);
    var b, s := ByteAfterWord(bs[0]).value, AfterWord(ss[0]);
    if s.text != "" {
      SameWithFirst(bs, ss, b, s);
      PlaceSame(lay, bs[0 := b], ss[0 := s], sep, prev, false, width, fence);
    }
  }

  lemma {:induction false} SameAt(bs: seq<Segment>, ss: seq<Segment>, k: nat)
    requires SameSegments(bs, ss) && SegmentsOk(ss) && k <= |ss|
    ensures PrevSep(bs, k) == PrevSep(ss, k)
    ensures k < |ss| ==> bs[k].sep == ss[k].sep && SameStages(bs[k].stages, ss[k].stages)
    ensures k < |ss| ==> StagesOk(ss[k].stages) && ss[k].stages != [] && bs[k].stages != []
  {
    assert k < |ss| ==> SameSegment(bs[k], ss[k]) && SegmentOk(ss[k]);
    assert k > 0 ==> SameSegment(bs[k - 1], ss[k - 1]);
    hide SameStage, StageOk;
  }

  lemma {:induction false} NoneEmpty(bs: seq<Segment>, ss: seq<Segment>)
    requires SameSegments(bs, ss) && SegmentsOk(ss)
    ensures Stocked(bs)
  {
    hide SegmentsOk, SameStages;
    forall j | 0 <= j < |bs| ensures bs[j].stages != [] {
      SameAt(bs, ss, j);
    }
  }

  // One more segment.
  lemma {:induction false} ByteLayStep(segments: seq<Segment>, k: nat, width: nat, fence: bool, lay: Option<Lay>)
    requires k < |segments| && Stocked(segments)
    requires ByteLayUpTo(segments, k, width, fence) == Returned(lay) && (lay.Some? ==> LayOk(lay.value))
    ensures ByteLayUpTo(segments, k + 1, width, fence) ==
            if lay.None? then Returned(None)
            else BytePlace(lay.value, segments[k].stages, segments[k].sep, PrevSep(segments, k), IsChain(PrevSep(segments, k)), width, fence)
  {
    hide BytePlace, PrevSep;
  }

  lemma {:induction false} LayStep(segments: seq<Segment>, k: nat, width: nat, fence: bool)
    requires k < |segments| && SegmentsOk(segments)
    ensures SegmentOk(segments[k])
    ensures var lay := LayUpTo(segments, k, width, fence);
            LayUpTo(segments, k + 1, width, fence) ==
            if lay.None? then None
            else Place(lay.value, segments[k].stages, segments[k].sep, PrevSep(segments, k), IsChain(PrevSep(segments, k)), width, fence)
  {
    hide Place, PrevSep;
  }

  lemma {:induction false} LayGrows(bs: seq<Segment>, ss: seq<Segment>, k: nat, width: nat, fence: bool)
    requires SameSegments(bs, ss) && SegmentsOk(ss) && k < |ss| == |bs|
    requires Stocked(bs)
    requires ByteLayUpTo(bs, k, width, fence) == Returned(LayUpTo(ss, k, width, fence))
    ensures ByteLayUpTo(bs, k + 1, width, fence) == Returned(LayUpTo(ss, k + 1, width, fence))
  {
    hide *;
    SameAt(bs, ss, k);
    LayStep(ss, k, width, fence);
    var lay := LayUpTo(ss, k, width, fence);
    ByteLayStep(bs, k, width, fence, lay);
    if lay.Some? {
      var seg, prev := ss[k], PrevSep(ss, k);
      PlaceSame(lay.value, bs[k].stages, seg.stages, seg.sep, prev, IsChain(prev), width, fence);
    }
  }

  lemma {:induction false} LayUpToSame(bs: seq<Segment>, ss: seq<Segment>, k: nat, width: nat, fence: bool)
    requires SameSegments(bs, ss) && SegmentsOk(ss) && k <= |ss|
    ensures |bs| == |ss| && Stocked(bs)
    ensures ByteLayUpTo(bs, k, width, fence) == Returned(LayUpTo(ss, k, width, fence))
  {
    hide *;
    NoneEmpty(bs, ss);
    SameCount(bs, ss);
    if k == 0 {
      NothingLaid(bs, ss, width, fence);
    } else {
      LayUpToSame(bs, ss, k - 1, width, fence);
      LayGrows(bs, ss, k - 1, width, fence);
    }
  }

  lemma {:induction false} NothingLaid(bs: seq<Segment>, ss: seq<Segment>, width: nat, fence: bool)
    requires Stocked(bs) && SegmentsOk(ss)
    ensures ByteLayUpTo(bs, 0, width, fence) == Returned(LayUpTo(ss, 0, width, fence))
  {
  }

  lemma {:induction false} SameSequence(bs: seq<Segment>, ss: seq<Segment>)
    requires SameSegments(bs, ss)
    ensures HasSequence(bs) <==> HasSequence(ss)
  {
    hide SameStages;
    assert forall k :: 0 <= k < |ss| ==> SameSegment(bs[k], ss[k]);
  }

  // The formatter on byte offsets never panics, and does what it does on character offsets.
  lemma {:induction false} ByteFormatSame(command: string, width: nat, fence: bool)
    ensures ByteFormat(command, width, fence) == Returned(FormatSpec(command, width, fence))
  {
    hide ScanSpec, ByteScanFrom, LayUpTo, ByteLayUpTo, SegmentsOk, HasSequence, SameSegments;
    ByteScanSame(command);
    if PlainLine(command) && ScanSpec(command).Some? {
      ScanShaped(command);
      var bs, ss := ByteScanFrom(command, Pos(0, [], 0, START)).value.value, ScanSpec(command).value;
      SameSequence(bs, ss);
      SameCount(bs, ss);
      LayUpToSame(bs, ss, |ss|, width, fence);
    }
  }

  lemma {:induction false} SameCount(bs: seq<Segment>, ss: seq<Segment>)
    requires SameSegments(bs, ss)
    ensures |bs| == |ss|
  {
    hide SameSegment;
  }
}
