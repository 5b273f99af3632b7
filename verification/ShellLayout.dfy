// The layout machine of the shell command formatter: prints segments over several lines,
// with a stack of open blocks for the indentation.
module ShellLayout {
  import opened Text
  import opened ShellScan
  import opened ShellShape

  const INDENT: nat := 2

  datatype Block = Loop | If

  // The machine's fields, as a value.
  datatype Lay = Lay(lines: seq<string>, stack: seq<Block>, headerOpen: bool)

  // An open header is the top of the stack, so one level less than the stack never underflows.
  predicate LayOk(lay: Lay) {
    lay.headerOpen ==> lay.stack != []
  }

  datatype Keyword = Header | Elif | Do | Then | Else | Done | Fi

  function ParseKeyword(word: string): Option<Keyword> {
    if word == "for" || word == "while" || word == "until" || word == "select" || word == "if" then Some(Header)
    else if word == "elif" then Some(Elif)
    else if word == "do" then Some(Do)
    else if word == "then" then Some(Then)
    else if word == "else" then Some(Else)
    else if word == "done" then Some(Done)
    else if word == "fi" then Some(Fi)
    else None
  }

  function WordEnd(text: string, i: nat): (r: nat)
    requires i <= |text|
    ensures i <= r <= |text|
    ensures i < |text| && !IsSpace(text[i]) ==> i < r
    decreases |text| - i
  {
    if i < |text| && !IsSpace(text[i]) then WordEnd(text, i + 1) else i
  }

  function FirstWord(text: string): (word: string)
    ensures |word| <= |text|
  {
    text[LeadEnd(text, 0)..WordEnd(text, LeadEnd(text, 0))]
  }

  function Texts(stages: seq<Stage>): seq<string> {
    seq(|stages|, k requires 0 <= k < |stages| => stages[k].text)
  }

  function JoinStages(stages: seq<Stage>): string {
    Join(Texts(stages), " | ")
  }

  function Line(indent: nat, text: string, sep: Sep, fence: bool): string {
    Repeat(' ', indent) + text + Suffix(sep, fence)
  }

  // Where the `k`-th piece of a wrapped stage starts.
  function PieceStart(flags: seq<nat>, k: nat): nat
    requires k <= |flags|
  {
    if k == 0 then 0 else flags[k - 1]
  }

  // Every piece of a wrapped stage is a slice of its text.
  lemma {:induction false} PieceBounds(text: string, flags: seq<nat>, k: nat)
    requires FlagsOk(text, flags) && k <= |flags|
    ensures PieceStart(flags, k) <= |text|
    ensures k > 0 ==> 2 <= PieceStart(flags, k)
    ensures k < |flags| ==> PieceStart(flags, k) < flags[k] < |text|
  {
    hide IsSpace;
  }

  // The line of a wrapped stage that ends before its `k`-th flag.
  function PieceLine(indent: nat, prefix: string, stage: Stage, fence: bool, k: nat): string
    requires FlagsOk(stage.text, stage.flags) && k < |stage.flags|
  {
    PieceBounds(stage.text, stage.flags, k);
    var text := stage.text[PieceStart(stage.flags, k)..stage.flags[k] - 1];
    if k == 0 then Line(indent, prefix + text + " \\", NoSep, fence)
    else Line(indent + INDENT, text + " \\", NoSep, fence)
  }

  function LastPiece(indent: nat, stage: Stage, sep: Sep, fence: bool): string
    requires FlagsOk(stage.text, stage.flags)
  {
    PieceBounds(stage.text, stage.flags, |stage.flags|);
    Line(indent + INDENT, stage.text[PieceStart(stage.flags, |stage.flags|)..], sep, fence)
  }

  // The first `k` lines of a wrapped stage.
  function Pieces(indent: nat, prefix: string, stage: Stage, fence: bool, k: nat): seq<string>
    requires FlagsOk(stage.text, stage.flags) && k <= |stage.flags|
  {
    if k == 0 then []
    else Pieces(indent, prefix, stage, fence, k - 1) + [PieceLine(indent, prefix, stage, fence, k - 1)]
  }

  function StageLines(indent: nat, prefix: string, stage: Stage, sep: Sep, width: nat, fence: bool): seq<string>
    requires FlagsOk(stage.text, stage.flags)
  {
    var total := indent + |prefix| + |stage.text| + |Suffix(sep, fence)|;
    if total <= width || stage.flags == [] then [Line(indent, prefix + stage.text, sep, fence)]
    else Pieces(indent, prefix, stage, fence, |stage.flags|) + [LastPiece(indent, stage, sep, fence)]
  }

  lemma {:induction false} StageFlags(stages: seq<Stage>, k: nat)
    requires StagesOk(stages) && k < |stages|
    ensures FlagsOk(stages[k].text, stages[k].flags)
  {
    hide IsSpace, FlagsOk;
    assert StageOk(stages[k]);
  }

  // The first `k` stages of a pipeline split over lines.
  function PipeLines(indent: nat, stages: seq<Stage>, sep: Sep, width: nat, fence: bool, k: nat): seq<string>
    requires StagesOk(stages) && k <= |stages|
  {
    if k == 0 then [] else
      StageFlags(stages, k - 1);
      var at := if k == 1 then indent else indent + INDENT;
      var prefix := if k == 1 || fence then "" else "| ";
      var suffix := if k == |stages| then sep else if fence then Pipe else NoSep;
      PipeLines(indent, stages, sep, width, fence, k - 1)
      + StageLines(at, prefix, stages[k - 1], suffix, width, fence)
  }

  function StatementLines(indent: nat, stages: seq<Stage>, sep: Sep, width: nat, fence: bool): seq<string>
    requires StagesOk(stages) && stages != []
  {
    var joined := JoinStages(stages);
    if |stages| > 1 && indent + |joined| + |Suffix(sep, fence)| > width then
      PipeLines(indent, stages, sep, width, fence, |stages|)
    else if |stages| == 1 then StageLines(indent, "", stages[0], sep, width, fence)
    else [Line(indent, joined, sep, fence)]
  }

  function StatementIndent(lay: Lay, chain: bool): nat
    requires LayOk(lay)
  {
    (if lay.headerOpen && chain then INDENT * (|lay.stack| - 1) else INDENT * |lay.stack|)
    + (if chain then INDENT else 0)
  }

  function Stated(lay: Lay, stages: seq<Stage>, sep: Sep, chain: bool, width: nat, fence: bool): Lay
    requires LayOk(lay) && StagesOk(stages) && stages != []
  {
    lay.(lines := lay.lines + StatementLines(StatementIndent(lay, chain), stages, sep, width, fence),
         headerOpen := lay.headerOpen && chain)
  }

  function AppendLast(lines: seq<string>, more: string): seq<string>
    requires lines != []
  {
    lines[..|lines| - 1] + [lines[|lines| - 1] + more]
  }

  // Flags behind the first `removed` characters, counted from there.
  function LaterFlags(flags: seq<nat>, removed: nat): seq<nat> {
    if flags == [] then []
    else (if flags[0] <= removed then [] else [flags[0] - removed]) + LaterFlags(flags[1..], removed)
  }

  // The first stage without its first word.
  function AfterWord(stage: Stage): Stage {
    var remaining := TrimStart(stage.text[|FirstWord(stage.text)|..]);
    Stage(remaining, LaterFlags(stage.flags, |stage.text| - |remaining|))
  }

  lemma {:induction false} LaterFlagsAbove(flags: seq<nat>, removed: nat, low: nat)
    requires forall k :: 0 <= k < |flags| ==> low <= flags[k]
    ensures forall k :: 0 <= k < |LaterFlags(flags, removed)| ==> low <= LaterFlags(flags, removed)[k] + removed
  {
    if flags != [] {
      LaterFlagsAbove(flags[1..], removed, low);
    }
  }

  lemma {:induction false} LaterFlagsOk(text: string, flags: seq<nat>, removed: nat)
    requires FlagsOk(text, flags) && removed <= |text|
    requires removed < |text| ==> !IsSpace(text[removed])
    ensures FlagsOk(text[removed..], LaterFlags(flags, removed))
  {
    hide IsSpace;
    if flags != [] {
      LaterFlagsOk(text, flags[1..], removed);
      LaterFlagsAbove(flags[1..], removed, flags[0] + 1);
      var rest := LaterFlags(flags[1..], removed);
      assert flags[0] > removed ==> text[removed..][flags[0] - removed] == text[flags[0]];
      assert flags[0] > removed ==> text[removed..][flags[0] - removed - 1] == text[flags[0] - 1];
    }
  }

  lemma {:induction false} AfterWordSlice(stage: Stage)
    requires StageOk(stage)
    ensures FirstWord(stage.text) != "" && |AfterWord(stage).text| < |stage.text|
    ensures stage.text == FirstWord(stage.text) + stage.text[|FirstWord(stage.text)|..]
    ensures var removed := |stage.text| - |AfterWord(stage).text|;
            AfterWord(stage).text == stage.text[removed..] && (removed < |stage.text| ==> !IsSpace(stage.text[removed]))
  {
    hide IsSpace, FlagsOk, LaterFlags;
    var rest := stage.text[|FirstWord(stage.text)|..];
    assert LeadEnd(stage.text, 0) == 0;
    assert LeadEnd(rest, 0) < |rest| ==> rest[LeadEnd(rest, 0)] == stage.text[|FirstWord(stage.text)| + LeadEnd(rest, 0)];
  }

  lemma {:induction false} AfterWordOk(stage: Stage)
    requires StageOk(stage)
    ensures AfterWord(stage).text != "" ==> StageOk(AfterWord(stage))
    ensures |AfterWord(stage).text| < |stage.text|
  {
    hide IsSpace, FlagsOk, LaterFlags, FirstWord;
    AfterWordSlice(stage);
    LaterFlagsOk(stage.text, stage.flags, |stage.text| - |AfterWord(stage).text|);
  }

  function BlockOf(word: string): Block {
    if word == "if" || word == "then" || word == "fi" then If else Loop
  }

  // What a keyword does to the machine, if it may stand here; the flag says whether the rest
  // of its segment is placed after it.
  function KeywordDone(lay: Lay, keyword: Keyword, word: string, joined: string, sep: Sep, fence: bool)
    : (r: Option<(Lay, bool)>)
    requires LayOk(lay)
    ensures r.Some? ==> LayOk(r.value.0) && r.value.0.lines != []
  {
    match keyword
    case Header =>
      if sep == Background then None
      else Some((Lay(lay.lines + [Line(INDENT * |lay.stack|, joined, sep, fence)],
                     lay.stack + [BlockOf(word)], true), false))
    case Elif =>
      if sep == Background || Last(lay.stack) != Some(If) then None
      else Some((Lay(lay.lines + [Line(INDENT * (|lay.stack| - 1), joined, sep, fence)], lay.stack, true), false))
    case Do | Then =>
      if !lay.headerOpen || Last(lay.stack) != Some(BlockOf(word)) || lay.lines == [] then None
      else
        var joiner := if fence then " " else "; ";
        Some((Lay(AppendLast(lay.lines, joiner + word), lay.stack, false), true))
    case Else =>
      if Last(lay.stack) != Some(If) then None
      else Some((Lay(lay.lines + [Line(INDENT * (|lay.stack| - 1), "else", NoSep, fence)], lay.stack, false), true))
    case Done | Fi =>
      if Last(lay.stack) != Some(BlockOf(word)) || lay.headerOpen then None
      else
        var stack := lay.stack[..|lay.stack| - 1];
        Some((Lay(lay.lines + [Line(INDENT * |stack|, joined, sep, fence)], stack, false), false))
  }

  // One segment, from the keyword or statement its stages now start with.
  function Place(lay: Lay, stages: seq<Stage>, sep: Sep, prev: Sep, chain: bool, width: nat, fence: bool): (r: Option<Lay>)
    requires LayOk(lay) && StagesOk(stages) && stages != []
    ensures r.Some? ==> LayOk(r.value)
    decreases |stages[0].text|, 1
  {
    var word := FirstWord(stages[0].text);
    var keyword := ParseKeyword(word);
    if keyword.None? then Some(Stated(lay, stages, sep, chain, width, fence))
    else if chain || (prev == Background && keyword.value != Header) then None
    else
      match KeywordDone(lay, keyword.value, word, JoinStages(stages), sep, fence)
      case None => None
      case Some((lay', more)) => if more then PlaceRest(lay', stages, sep, prev, width, fence) else Some(lay')
  }

  // The rest of the segment, after a keyword that other statements may follow.
  function PlaceRest(lay: Lay, stages: seq<Stage>, sep: Sep, prev: Sep, width: nat, fence: bool): (r: Option<Lay>)
    requires LayOk(lay) && lay.lines != [] && StagesOk(stages) && stages != []
    ensures r.Some? ==> LayOk(r.value)
    decreases |stages[0].text|, 0
  {
    AfterWordOk(stages[0]);
    var first := AfterWord(stages[0]);
    if first.text == "" then
      if |stages| > 1 || (sep != NoSep && sep != Semi) then None
      else Some(lay.(lines := AppendLast(lay.lines, Suffix(sep, fence))))
    else Place(lay, stages[0 := first], sep, prev, false, width, fence)
  }

  function PlaceSegment(lay: Lay, seg: Segment, prev: Sep, width: nat, fence: bool): (r: Option<Lay>)
    requires LayOk(lay) && SegmentOk(seg)
    ensures r.Some? ==> LayOk(r.value)
  {
    Place(lay, seg.stages, seg.sep, prev, IsChain(prev), width, fence)
  }

  function PrevSep(segments: seq<Segment>, k: nat): Sep
    requires k <= |segments|
  {
    if k == 0 then Semi else segments[k - 1].sep
  }

  // The machine after the first `k` segments, if none of them stopped it.
  function LayUpTo(segments: seq<Segment>, k: nat, width: nat, fence: bool): (r: Option<Lay>)
    requires k <= |segments| && SegmentsOk(segments)
    ensures r.Some? ==> LayOk(r.value)
  {
    if k == 0 then Some(Lay([], [], false)) else
      var before := LayUpTo(segments, k - 1, width, fence);
      if before.None? then None
      else PlaceSegment(before.value, segments[k - 1], PrevSep(segments, k - 1), width, fence)
  }

  function LayoutSpec(segments: seq<Segment>, width: nat, fence: bool): Option<seq<string>>
    requires SegmentsOk(segments)
  {
    match LayUpTo(segments, |segments|, width, fence)
    case None => None
    case Some(lay) => if lay.stack != [] || lay.headerOpen then None else Some(lay.lines)
  }

  // ----- the machine itself -----

  class Layout {
    var lines: seq<string>
    var stack: seq<Block>
    var headerOpen: bool
    const width: nat
    const fence: bool

    function Value(): Lay
      reads this
    {
      Lay(lines, stack, headerOpen)
    }

    constructor (width: nat, fence: bool)
      ensures Value() == Lay([], [], false) && this.width == width && this.fence == fence
    {
      lines, stack, headerOpen := [], [], false;
      this.width, this.fence := width, fence;
    }

    method PushLine(indent: nat, text: string, sep: Sep)
      modifies this`lines
      ensures lines == old(lines) + [Line(indent, text, sep, fence)]
    {
      lines := lines + [Repeat(' ', indent) + text + Suffix(sep, fence)];
    }

    method PushStage(indent: nat, prefix: string, stage: Stage, sep: Sep)
      requires FlagsOk(stage.text, stage.flags)
      modifies this`lines
      ensures lines == old(lines) + StageLines(indent, prefix, stage, sep, width, fence)
    {
      hide FlagsOk, Line, Suffix;
      var total := indent + |prefix| + |stage.text| + |Suffix(sep, fence)|;
      if total <= width || stage.flags == [] {
        PushLine(indent, prefix + stage.text, sep);
        return;
      }
      var start, k := 0, 0;
      while k < |stage.flags|
        invariant k <= |stage.flags|
        invariant start == PieceStart(stage.flags, k)
        invariant lines == old(lines) + Pieces(indent, prefix, stage, fence, k)
      {
        PieceBounds(stage.text, stage.flags, k);
        var end := stage.flags[k];
        var text := stage.text[start..end - 1];
        if start == 0 {
          PushLine(indent, prefix + text + " \\", NoSep);
        } else {
          PushLine(indent + INDENT, text + " \\", NoSep);
        }
        start := end;
        k := k + 1;
      }
      PieceBounds(stage.text, stage.flags, k);
      PushLine(indent + INDENT, stage.text[start..], sep);
    }

    // One stage a line.
    method Pipeline(indent: nat, stages: seq<Stage>, sep: Sep)
      requires StagesOk(stages)
      modifies this`lines
      ensures lines == old(lines) + PipeLines(indent, stages, sep, width, fence, |stages|)
    {
      hide StageOk, FlagsOk, Suffix, StageLines;
      var index := 0;
      while index < |stages|
        invariant index <= |stages|
        invariant lines == old(lines) + PipeLines(indent, stages, sep, width, fence, index)
      {
        var at := if index == 0 then indent else indent + INDENT;
        var prefix := if index == 0 || fence then "" else "| ";
        var suffix := if index + 1 == |stages| then sep else if fence then Pipe else NoSep;
        StageFlags(stages, index);
        PushStage(at, prefix, stages[index], suffix);
        index := index + 1;
      }
    }

    method Statement(stages: seq<Stage>, sep: Sep, chain: bool)
      requires LayOk(Value()) && StagesOk(stages) && stages != []
      modifies this`lines, this`headerOpen
      ensures Value() == Stated(old(Value()), stages, sep, chain, width, fence)
    {
      hide IsSpace, FlagsOk, Line, Suffix, StageLines, JoinStages, PlainLine, PipeLines;
      var base := if headerOpen && chain then INDENT * (|stack| - 1) else INDENT * |stack|;
      var indent := base + if chain then INDENT else 0;
      var joined := JoinStages(stages);
      var total := indent + |joined| + |Suffix(sep, fence)|;
      if |stages| > 1 && total > width {
        Pipeline(indent, stages, sep);
      } else if |stages| == 1 {
        PushStage(indent, "", stages[0], sep);
      } else {
        PushLine(indent, joined, sep);
      }
      if !chain {
        headerOpen := false;
      }
    }

    // Everything `Segment` does for one keyword; `more` asks it to go on with the rest.
    method Keyworded(keyword: Keyword, word: string, joined: string, sep: Sep)
      returns (ok: bool, more: bool)
      requires LayOk(Value())
      modifies this
      ensures LayOk(Value())
      ensures KeywordDone(old(Value()), keyword, word, joined, sep, fence)
           == if ok then Some((Value(), more)) else None
    {
      ok, more := true, false;
      match keyword
      case Header =>
        if sep == Background {
          return false, false;
        }
        PushLine(INDENT * |stack|, joined, sep);
        stack := stack + [BlockOf(word)];
        headerOpen := true;
      case Elif =>
        if sep == Background || Last(stack) != Some(If) {
          return false, false;
        }
        PushLine(INDENT * (|stack| - 1), joined, sep);
        headerOpen := true;
      case Do | Then =>
        if !headerOpen || Last(stack) != Some(BlockOf(word)) || lines == [] {
          return false, false;
        }
        var joiner := if fence then " " else "; ";
        lines := AppendLast(lines, joiner + word);
        headerOpen := false;
        more := true;
      case Else =>
        if Last(stack) != Some(If) {
          return false, false;
        }
        PushLine(INDENT * (|stack| - 1), "else", NoSep);
        headerOpen := false;
        more := true;
      case Done | Fi =>
        if Last(stack) != Some(BlockOf(word)) || headerOpen {
          return false, false;
        }
        stack := stack[..|stack| - 1];
        PushLine(INDENT * |stack|, joined, sep);
    }

    method Segment(seg: Segment, prev: Sep) returns (ok: bool)
      requires LayOk(Value()) && SegmentOk(seg)
      modifies this
      ensures PlaceSegment(old(Value()), seg, prev, width, fence) == if ok then Some(Value()) else None
    {
      hide FirstWord, ParseKeyword, KeywordDone, Stated, StageOk, AfterWord, JoinStages;
      var chain := IsChain(prev);
      var stages := seg.stages;
      while true
        invariant LayOk(Value()) && StagesOk(stages) && stages != []
        invariant Place(Value(), stages, seg.sep, prev, chain, width, fence)
               == PlaceSegment(old(Value()), seg, prev, width, fence)
        decreases |stages[0].text|
      {
        var word := FirstWord(stages[0].text);
        var keyword := ParseKeyword(word);
        if keyword.None? {
          Statement(stages, seg.sep, chain);
          return true;
        }
        if chain || (prev == Background && keyword.value != Header) {
          return false;
        }
        var more;
        ok, more := Keyworded(keyword.value, word, JoinStages(stages), seg.sep);
        if !ok || !more {
          return;
        }
        AfterWordOk(stages[0]);
        var first := AfterWord(stages[0]);
        if first.text == "" {
          if |stages| > 1 || (seg.sep != NoSep && seg.sep != Semi) {
            return false;
          }
          lines := AppendLast(lines, Suffix(seg.sep, fence));
          return true;
        }
        stages := stages[0 := first];
        chain := false;
      }
    }
  }

  method LayoutSegments(segments: seq<Segment>, width: nat, fence: bool) returns (r: Option<seq<string>>)
    requires SegmentsOk(segments)
    ensures r == LayoutSpec(segments, width, fence)
  {
    hide PlaceSegment, SegmentOk;
    var state := new Layout(width, fence);
    var prev := Semi;
    var k := 0;
    while k < |segments|
      invariant k <= |segments| && prev == PrevSep(segments, k)
      invariant state.width == width && state.fence == fence && LayOk(state.Value())
      invariant LayUpTo(segments, k, width, fence) == Some(state.Value())
    {
      var ok := state.Segment(segments[k], prev);
      if !ok {
        NoneStays(segments, k + 1, |segments|, width, fence);
        return None;
      }
      prev := segments[k].sep;
      k := k + 1;
    }
    if state.stack != [] || state.headerOpen {
      return None;
    }
    return Some(state.lines);
  }

  lemma {:induction false} NoneStays(segments: seq<Segment>, j: nat, k: nat, width: nat, fence: bool)
    requires j <= k <= |segments| && SegmentsOk(segments) && LayUpTo(segments, j, width, fence).None?
    ensures LayUpTo(segments, k, width, fence).None?
  {
    hide PlaceSegment, SegmentOk, LayOk;
    if j < k {
      NoneStays(segments, j, k - 1, width, fence);
    }
  }
}
