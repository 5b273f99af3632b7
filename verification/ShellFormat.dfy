// Formatting one command, or a whole shell fence line by line.
module ShellFormat {
  import opened Text
  import opened ShellScan
  import opened ShellShape
  import opened ShellInk
  import opened ShellLayout
  import opened ShellConserve
  import ShellGuard

  predicate HasSequence(segments: seq<Segment>) {
    exists k :: 0 <= k < |segments| - 1 && segments[k].sep == Semi
  }

  // The lines a command is laid out in, when it is.
  function FormatLines(command: string, width: nat, fence: bool): Option<seq<string>> {
    if !PlainLine(command) then None
    else
      match ScanSpec(command)
      case None => None
      case Some(segments) =>
        ScanShaped(command);
        if |command| <= width && !HasSequence(segments) then None
        else
          match LayoutSpec(segments, width, fence)
          case None => None
          case Some(lines) => if |lines| < 2 then None else Some(lines)
  }

  function FormatSpec(command: string, width: nat, fence: bool): Option<string> {
    match FormatLines(command, width, fence)
    case None => None
    case Some(lines) => Some(Join(lines, "\n"))
  }

  method Format(command: string, width: nat, fence: bool) returns (r: Option<string>)
    ensures r == FormatSpec(command, width, fence)
  {
    hide ScanSpec, LayoutSpec, IsSpace;
    if !PlainLine(command) {
      return None;
    }
    var segments := ScanCommand(command);
    if segments.None? {
      return None;
    }
    ScanShaped(command);
    if |command| <= width && !HasSequence(segments.value) {
      return None;
    }
    var lines := LayoutSegments(segments.value, width, fence);
    if lines.None? || |lines.value| < 2 {
      return None;
    }
    return Some(Join(lines.value, "\n"));
  }

  // The shell's own reading of a line continuation: a backslash directly before a newline
  // is removed together with it (section 2.2.1 of the POSIX Shell Command Language).
  function Unfold(s: string): string {
    if s == "" then ""
    else if |s| > 1 && s[0] == '\\' && s[1] == '\n' then Unfold(s[2..])
    else [s[0]] + Unfold(s[1..])
  }

  lemma {:induction false} UnfoldConcat(a: string, b: string)
    requires b != "" && b[0] == '\n' ==> !EndsOpen(a)
    ensures Unfold(a + b) == Unfold(a) + Unfold(b)
    decreases |a|
  {
    if a == "" {
      assert a + b == b;
    } else if |a| > 1 && a[0] == '\\' && a[1] == '\n' {
      assert (a + b)[2..] == a[2..] + b;
      UnfoldConcat(a[2..], b);
    } else {
      assert (a + b)[1..] == a[1..] + b;
      assert !(|a + b| > 1 && (a + b)[0] == '\\' && (a + b)[1] == '\n');
      UnfoldConcat(a[1..], b);
      assert Unfold(a + b) == [a[0]] + Unfold(a[1..] + b);
    }
  }

  lemma {:induction false} UnfoldLine(line: string)
    requires Without(line, '\n')
    ensures Unfold(line) == line
  {
    if line != "" {
      UnfoldLine(line[1..]);
    }
  }

  lemma {:induction false} UnfoldContinuation(rest: string)
    ensures Unfold("\\\n" + rest) == Unfold(rest)
    ensures Unfold("\n" + rest) == "\n" + Unfold(rest)
  {
    assert ("\\\n" + rest)[2..] == rest;
    assert ("\n" + rest)[1..] == rest;
  }

  lemma {:induction false} NewlineInk(rest: string, fence: bool)
    ensures Ink("\n" + rest, fence) == Ink(rest, fence)
  {
    assert ("\n" + rest)[1..] == rest;
  }

  // A text break after a line that is not continued.
  lemma {:induction false} BreakInk(a: string, b: string, fence: bool)
    requires !EndsOpen(a)
    ensures Ink(Unfold(a + "\n" + b), fence) == Ink(Unfold(a), fence) + Ink(Unfold(b), fence)
  {
    hide Ink, Unfold;
    assert a + "\n" + b == a + ("\n" + b);
    UnfoldConcat(a, "\n" + b);
    UnfoldContinuation(b);
    InkConcat(Unfold(a), "\n" + Unfold(b), fence);
    NewlineInk(Unfold(b), fence);
  }

  lemma {:induction false} FirstLineInk(line: string, rest: string, fence: bool)
    requires Without(line, '\n')
    ensures Ink(Unfold(line + "\n" + rest), fence) == Ink(DropTail(line), fence) + Ink(Unfold(rest), fence)
  {
    hide Ink, Unfold;
    if EndsOpen(line) {
      var front := line[..|line| - 1];
      assert line + "\n" + rest == front + ("\\\n" + rest);
      UnfoldConcat(front, "\\\n" + rest);
      UnfoldContinuation(rest);
      UnfoldLine(front);
      InkConcat(front, Unfold(rest), fence);
    } else {
      BreakInk(line, rest, fence);
      UnfoldLine(line);
    }
  }

  lemma {:induction false} LinesInkFirst(line: string, rest: seq<string>, fence: bool)
    requires rest != []
    ensures LinesInk([line] + rest, fence) == Ink(DropTail(line), fence) + LinesInk(rest, fence)
  {
    hide Ink, AllInk, DropTail;
    var front := rest[..|rest| - 1];
    assert ([line] + rest)[..|rest|] == [line] + front;
    AllInkAppend([line], front, fence);
    OneLineInk(line, fence);
  }

  lemma {:induction false} UnfoldJoin(lines: seq<string>, fence: bool)
    requires forall k :: 0 <= k < |lines| ==> Without(lines[k], '\n')
    ensures Ink(Unfold(Join(lines, "\n")), fence) == LinesInk(lines, fence)
  {
    hide Ink, LinesInk, Unfold, DropTail;
    if lines == [] {
      assert Ink(Unfold(""), fence) == LinesInk([], fence) by { NothingUnfolds(fence); }
    } else if |lines| == 1 {
      assert lines == [lines[0]];
      OneLineInk(lines[0], fence);
      UnfoldLine(lines[0]);
    } else {
      var rest := lines[1..];
      assert lines == [lines[0]] + rest;
      UnfoldJoin(rest, fence);
      FirstLineInk(lines[0], Join(rest, "\n"), fence);
      LinesInkFirst(lines[0], rest, fence);
    }
  }

  lemma {:induction false} NothingUnfolds(fence: bool)
    ensures Ink(Unfold(""), fence) == LinesInk([], fence) == ""
  {
  }

  lemma {:induction false} GoodPlain(lines: seq<string>)
    requires GoodLines(lines)
    ensures forall k :: 0 <= k < |lines| ==> PlainLine(lines[k]) && Without(lines[k], '\n') && lines[k] != ""
  {
    hide IsSpace;
    forall k | 0 <= k < |lines| ensures PlainLine(lines[k]) && Without(lines[k], '\n') && lines[k] != "" {
      assert GoodLine(lines[k]);
    }
  }

  // The laid out lines hold the command's visible characters, in order.
  lemma {:induction false} FormatLinesInk(command: string, width: nat, fence: bool)
    requires FormatLines(command, width, fence).Some?
    ensures var lines := FormatLines(command, width, fence).value;
            && |lines| >= 2 && GoodLines(lines)
            && LinesInk(lines, fence) == Ink(command, fence)
  {
    hide ScanSpec, LayoutSpec, Ink, LinesInk, GoodLine, SegmentsInk, IsSpace, SegmentsOk, HasSequence;
    ScanShaped(command);
    ScanKeepsInk(command, fence);
    LayoutInk(ScanSpec(command).value, width, fence);
  }

  // Formatting keeps the command. In a fence nothing but blanks and continuations changes;
  // a command line may also gain or lose `;`, and its backslashes are not compared.
  lemma {:induction false} FormatKeepsCommand(command: string, width: nat, fence: bool)
    requires FormatSpec(command, width, fence).Some?
    ensures Ink(Unfold(FormatSpec(command, width, fence).value), fence) == Ink(command, fence)
  {
    hide FormatLines, Ink, LinesInk, Unfold, GoodLine;
    FormatLinesInk(command, width, fence);
    var lines := FormatLines(command, width, fence).value;
    GoodPlain(lines);
    UnfoldJoin(lines, fence);
  }

  // ----- a whole fence -----

  predicate HasHeredoc(line: string) {
    exists k :: 0 <= k < |line| - 1 && line[k] == '<' && line[k + 1] == '<'
  }

  predicate BlocksLine(line: string) {
    EndsOpen(TrimEnd(line)) || HasHeredoc(line)
  }

  predicate BlocksFence(line: string) {
    BlocksLine(line) || ShellGuard.LeavesQuoteOpen(line)
  }

  function Indented(indent: string, lines: seq<string>): seq<string> {
    seq(|lines|, k requires 0 <= k < |lines| => indent + lines[k])
  }

  function Minus(a: nat, b: nat): nat {
    if a < b then 0 else a - b
  }

  // One line of the fence, laid out again when it can be.
  function FenceLine(line: string, width: nat): Option<string> {
    var body := TrimStart(line);
    var indent := line[..|line| - |body|];
    match FormatSpec(body, Minus(width, |indent|), true)
    case None => None
    case Some(formatted) => Some(Join(Indented(indent, Lines(formatted)), "\n"))
  }

  function FenceItem(line: string, width: nat): string {
    FenceLine(line, width).GetOr(line)
  }

  function FenceItems(lines: seq<string>, width: nat): seq<string> {
    seq(|lines|, k requires 0 <= k < |lines| => FenceItem(lines[k], width))
  }

  function FormatFenceSpec(content: string, width: nat): Option<string> {
    var lines := Lines(content);
    if exists k :: 0 <= k < |lines| && BlocksFence(lines[k]) then None
    else if forall k :: 0 <= k < |lines| ==> FenceLine(lines[k], width).None? then None
    else Some(Join(FenceItems(lines, width), "\n"))
  }

  method FormatFence(content: string, width: nat) returns (r: Option<string>)
    ensures r == FormatFenceSpec(content, width)
  {
    hide FormatSpec, Lines, BlocksLine, ShellGuard.LeavesQuoteOpen;
    var lines := Lines(content);
    var k := 0;
    while k < |lines|
      invariant k <= |lines| && forall j :: 0 <= j < k ==> !BlocksFence(lines[j])
    {
      var open := ShellGuard.QuoteStaysOpen(lines[k]);
      if BlocksLine(lines[k]) || open {
        return None;
      }
      k := k + 1;
    }
    var changed := false;
    var items: seq<string> := [];
    k := 0;
    while k < |lines|
      invariant k <= |lines| && items == FenceItems(lines, width)[..k]
      invariant changed <==> exists j :: 0 <= j < k && FenceLine(lines[j], width).Some?
    {
      var line := lines[k];
      var body := TrimStart(line);
      var indent := line[..|line| - |body|];
      var formatted := Format(body, Minus(width, |indent|), true);
      var item := line;
      if formatted.Some? {
        changed := true;
        item := Join(Indented(indent, Lines(formatted.value)), "\n");
      }
      assert FenceItems(lines, width)[k] == item;
      items := items + [item];
      k := k + 1;
    }
    assert FenceItems(lines, width)[..|lines|] == FenceItems(lines, width);
    if !changed {
      return None;
    }
    return Some(Join(items, "\n"));
  }
}
