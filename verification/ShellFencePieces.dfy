// A formatted fence has the pieces of the original, line by line.
module ShellFencePieces {
  import opened Text
  import opened ShellScan
  import opened ShellShape
  import opened ShellConserve
  import opened ShellFormat
  import opened ShellTokens
  import opened ShellExact
  import opened ShellSpacing
  import opened ShellFence

  // `out` is `line`, or the pieces of its command with other blanks between them.
  ghost predicate KeepsPieces(line: string, out: string) {
    || out == line
    || (var scan := ScanSpec(TrimStart(line));
        && scan.Some? && SegmentsOk(scan.value)
        && Spaced(CommandToks(scan.value, |scan.value|), line)
        && Spaced(CommandToks(scan.value, |scan.value|), out))
  }

  // The output's items as the shell reads them.
  function Unfolded(lines: seq<string>, width: nat): seq<string> {
    seq(|lines|, k requires 0 <= k < |lines| => Unfold(FenceItem(lines[k], width)))
  }

  lemma {:induction false} BlankInFront(toks: seq<Tok>, blank: string, s: string)
    requires Spaced(toks, s) && AllSpace(blank)
    ensures Spaced(toks, blank + s)
  {
    hide Spaced, AllSpace;
    SpacedNone(blank);
    SpacedConcat([], blank, toks, s);
    assert [] + toks == toks;
  }

  lemma {:induction false} UnfoldIndented(indent: string, lines: seq<string>)
    requires AllSpace(indent) && Without(indent, '\n') && GoodLines(lines)
    ensures Unfold(Join(Indented(indent, lines), "\n")) == LinesUnder(indent, lines)
  {
    hide LinesText, Unfold, GoodLine, AllSpace;
    IndentedPlain(indent, lines);
    UnfoldIsText(Indented(indent, lines));
  }

  lemma {:induction false} ItemKeepsPieces(line: string, width: nat)
    requires Without(line, '\n')
    ensures KeepsPieces(line, Unfold(FenceItem(line, width)))
  {
    hide FormatLines, GoodLine, IsSpace, Unfold, Join, Lines, Spaced, CommandToks, SegmentsOk, ScanSpec, LinesUnder, LinesInk;
    var body := TrimStart(line);
    var indent := line[..|line| - |body|];
    var inner := Minus(width, |indent|);
    var lines := FormatLines(body, inner, true);
    if lines.None? {
      UnfoldLine(line);
    } else {
      FormatLinesInk(body, inner, true);
      GoodPlain(lines.value);
      LinesOfJoin(lines.value);
      UnfoldIndented(indent, lines.value);
      FormatLinesFlow(body, inner, indent);
      var segments := ScanSpec(body).value;
      BlankInFront(CommandToks(segments, |segments|), indent, body);
      assert line == indent + body;
    }
  }

  lemma {:induction false} UnfoldItems(lines: seq<string>, width: nat)
    requires forall k :: 0 <= k < |lines| ==> Without(lines[k], '\n') && !EndsOpen(TrimEnd(lines[k]))
    ensures Unfold(Join(FenceItems(lines, width), "\n")) == Join(Unfolded(lines, width), "\n")
  {
    hide Unfold, FenceItem, TrimEnd, EndsOpen;
    var items := FenceItems(lines, width);
    if lines == [] {
      NothingToUnfold();
    } else {
      ItemKeepsLine(lines[0], width);
      assert items[1..] == FenceItems(lines[1..], width) && Unfolded(lines, width)[1..] == Unfolded(lines[1..], width);
      UnfoldItems(lines[1..], width);
      if |lines| > 1 {
        var rest := Join(items[1..], "\n");
        assert items[0] + "\n" + rest == items[0] + ("\n" + rest);
        UnfoldConcat(items[0], "\n" + rest);
        UnfoldContinuation(rest);
        Glued(Unfold(items[0]), "\n", Unfold(rest));
      }
    }
  }

  // What the shell reads in a formatted fence is, line by line, the original line or its pieces.
  lemma {:induction false} FenceKeepsPieces(content: string, width: nat)
    requires FormatFenceSpec(content, width).Some?
    ensures var lines := Lines(content);
            && Unfold(FormatFenceSpec(content, width).value) == Join(Unfolded(lines, width), "\n")
            && forall k :: 0 <= k < |lines| ==> KeepsPieces(lines[k], Unfolded(lines, width)[k])
  {
    hide Unfold, FenceItems, FenceItem, FenceLine, Lines, EndsOpen, TrimEnd, HasHeredoc, KeepsPieces, Join;
    var lines := Lines(content);
    InkOfLines(content);
    assert forall k :: 0 <= k < |lines| ==> !BlocksFence(lines[k]);
    UnfoldItems(lines, width);
    forall k | 0 <= k < |lines| ensures KeepsPieces(lines[k], Unfolded(lines, width)[k]) {
      ItemKeepsPieces(lines[k], width);
    }
  }
}
