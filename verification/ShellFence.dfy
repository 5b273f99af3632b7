// A formatted fence is the same fence: after the shell removes line continuations, its
// visible characters are those of the original, in order.
module ShellFence {
  import opened Text
  import opened ShellInk
  import opened ShellConserve
  import opened ShellFormat

  lemma {:induction false} InkOfLast(s: string, c: char)
    requires !IsSpace(c)
    ensures Ink(s + [c], true) == Ink(s, true) + [c]
  {
    hide IsSpace;
    InkConcat(s, [c], true);
    InkOne(c, true);
  }

  // The last visible character of a text is the last one of its trimmed form.
  lemma {:induction false} LastVisible(s: string)
    ensures var t := TrimEnd(s);
            if t == "" then Ink(s, true) == ""
            else Ink(s, true) == Ink(t[..|t| - 1], true) + [t[|t| - 1]]
  {
    hide Ink, IsSpace;
    var t := TrimEnd(s);
    InkCut(s, |t|, true);
    InkBlank(s[|t|..], true);
    EmptyInk(true);
    if t != "" {
      assert t == t[..|t| - 1] + [t[|t| - 1]];
      InkOfLast(t[..|t| - 1], t[|t| - 1]);
    }
  }

  lemma {:induction false} LastOfLines(lines: seq<string>)
    requires lines != [] && GoodLines(lines)
    ensures var last := lines[|lines| - 1];
            && last != ""
            && LinesInk(lines, true) != ""
            && LinesInk(lines, true)[|LinesInk(lines, true)| - 1] == last[|last| - 1]
  {
    hide Ink, AllInk, IsSpace, PlainLine;
    var last := lines[|lines| - 1];
    assert GoodLine(last);
    assert last == last[..|last| - 1] + [last[|last| - 1]];
    InkOfLast(last[..|last| - 1], last[|last| - 1]);
  }

  lemma {:induction false} IndentedInk(indent: string, lines: seq<string>)
    requires AllSpace(indent) && GoodLines(lines)
    ensures LinesInk(Indented(indent, lines), true) == LinesInk(lines, true)
  {
    hide Ink, AllInk, DropTail, AllSpace;
    if lines != [] {
      var front := lines[..|lines| - 1];
      var last := lines[|lines| - 1];
      assert Indented(indent, lines)[..|lines| - 1] == Indented(indent, front);
      IndentedAllInk(indent, front);
      IndentInk(indent, last);
    }
  }

  lemma {:induction false} IndentInk(indent: string, line: string)
    requires AllSpace(indent)
    ensures Ink(indent + line, true) == Ink(line, true)
  {
    hide Ink;
    InkConcat(indent, line, true);
    InkBlank(indent, true);
  }

  lemma {:induction false} IndentedTail(indent: string, line: string)
    requires line != ""
    ensures DropTail(indent + line) == indent + DropTail(line)
  {
  }

  lemma {:induction false} IndentedAllInk(indent: string, lines: seq<string>)
    requires AllSpace(indent) && GoodLines(lines)
    ensures AllInk(Indented(indent, lines), true) == AllInk(lines, true)
  {
    hide Ink, AllSpace, GoodLine, DropTail;
    if lines != [] {
      var front := lines[..|lines| - 1];
      var last := lines[|lines| - 1];
      GoodPlain(lines);
      assert Indented(indent, lines)[..|lines| - 1] == Indented(indent, front);
      IndentedAllInk(indent, front);
      IndentedTail(indent, last);
      IndentInk(indent, DropTail(last));
    }
  }

  lemma {:induction false} IndentedPlain(indent: string, lines: seq<string>)
    requires Without(indent, '\n') && GoodLines(lines)
    ensures forall k :: 0 <= k < |lines| ==> Without(Indented(indent, lines)[k], '\n')
  {
    GoodPlain(lines);
  }

  lemma {:induction false} JoinEnd(lines: seq<string>)
    requires lines != [] && lines[|lines| - 1] != ""
    ensures EndsOpen(Join(lines, "\n")) <==> EndsOpen(lines[|lines| - 1])
    ensures Join(lines, "\n") != ""
  {
    if |lines| > 1 {
      JoinEnd(lines[1..]);
    }
  }

  // One item of the output stands for its line, and no continuation hangs behind it.
  lemma {:induction false} ItemKeepsLine(line: string, width: nat)
    requires Without(line, '\n') && !EndsOpen(TrimEnd(line))
    ensures var item := FenceItem(line, width);
            Ink(Unfold(item), true) == Ink(line, true) && !EndsOpen(item)
  {
    hide Ink, FormatLines, LinesInk, GoodLine, IsSpace, Unfold, Join, Lines;
    var body := TrimStart(line);
    var indent := line[..|line| - |body|];
    var lines := FormatLines(body, Minus(width, |indent|), true);
    if lines.None? {
      UnfoldLine(line);
      UnspacedEnd(line);
    } else {
      FormatLinesInk(body, Minus(width, |indent|), true);
      GoodPlain(lines.value);
      LinesOfJoin(lines.value);
      InkTrimStart(line, true);
      ItemInk(indent, lines.value);
      LastOfLines(lines.value);
      LastVisible(line);
      var last := lines.value[|lines.value| - 1];
      assert Indented(indent, lines.value)[|lines.value| - 1] == indent + last;
      JoinEnd(Indented(indent, lines.value));
    }
  }

  lemma {:induction false} UnspacedEnd(line: string)
    requires !EndsOpen(TrimEnd(line))
    ensures !EndsOpen(line)
  {
    assert !IsSpace('\\');
    hide IsSpace;
    assert line != "" && !IsSpace(line[|line| - 1]) ==> TailStart(line, |line|) == |line|;
  }

  lemma {:induction false} ItemInk(indent: string, lines: seq<string>)
    requires AllSpace(indent) && Without(indent, '\n') && GoodLines(lines)
    ensures Ink(Unfold(Join(Indented(indent, lines), "\n")), true) == LinesInk(lines, true)
  {
    hide Ink, LinesInk, Unfold, GoodLine, AllSpace;
    IndentedPlain(indent, lines);
    UnfoldJoin(Indented(indent, lines), true);
    IndentedInk(indent, lines);
  }

  // The ink of all the lines of a text.
  function InkAll(lines: seq<string>): string {
    if lines == [] then "" else Ink(lines[0], true) + InkAll(lines[1..])
  }

  lemma {:induction false} InkOfLines(s: string)
    ensures InkAll(Lines(s)) == Ink(s, true)
    ensures forall k :: 0 <= k < |Lines(s)| ==> Without(Lines(s)[k], '\n')
    decreases |s|
  {
    hide Ink, IsSpace, IndexOf, DropCr;
    if s == "" {
      EmptyInk(true);
    } else {
      var at := IndexOf(s, '\n');
      if at == |s| {
        assert Lines(s) == [s] && s[..at] == s;
        assert InkAll([s]) == Ink(s, true) + InkAll([]);
      } else {
        InkOfLines(s[at + 1..]);
        LineBreakInk(s, at);
        CutIsWithout(s[..at]);
        assert Lines(s)[1..] == Lines(s[at + 1..]);
      }
    }
  }

  lemma {:induction false} CutIsWithout(line: string)
    requires Without(line, '\n')
    ensures Without(DropCr(line), '\n')
  {
  }

  lemma {:induction false} LineBreakInk(s: string, at: nat)
    requires at < |s| && s[at] == '\n'
    ensures Ink(s, true) == Ink(DropCr(s[..at]), true) + Ink(s[at + 1..], true)
  {
    hide Ink;
    InkCut(s, at + 1, true);
    var line := DropCr(s[..at]);
    assert s[..at + 1] == line + s[..at + 1][|line|..];
    InkCut(s[..at + 1], |line|, true);
    InkBlank(s[..at + 1][|line|..], true);
  }

  lemma {:induction false} ItemsKeepLines(lines: seq<string>, width: nat)
    requires forall k :: 0 <= k < |lines| ==> Without(lines[k], '\n') && !EndsOpen(TrimEnd(lines[k]))
    ensures Ink(Unfold(Join(FenceItems(lines, width), "\n")), true) == InkAll(lines)
  {
    hide Ink, Unfold, FenceItem, TrimEnd, EndsOpen;
    var items := FenceItems(lines, width);
    if lines == [] {
      NothingUnfolds(true);
    } else {
      ItemKeepsLine(lines[0], width);
      assert items[1..] == FenceItems(lines[1..], width);
      ItemsKeepLines(lines[1..], width);
      if |lines| == 1 {
        assert InkAll(lines[1..]) == "";
      } else {
        BreakInk(items[0], Join(items[1..], "\n"), true);
      }
    }
  }

  // The whole fence.
  lemma {:induction false} FenceKeepsCommands(content: string, width: nat)
    requires FormatFenceSpec(content, width).Some?
    ensures Ink(Unfold(FormatFenceSpec(content, width).value), true) == Ink(content, true)
  {
    hide Ink, Unfold, FenceItems, FenceLine, Lines, EndsOpen, TrimEnd, HasHeredoc;
    var lines := Lines(content);
    InkOfLines(content);
    assert forall k :: 0 <= k < |lines| ==> !BlocksFence(lines[k]);
    ItemsKeepLines(lines, width);
  }
}
