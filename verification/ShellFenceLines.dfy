// The lines of a formatted fence, exactly: each line as it was, or its command laid out at the width its
// blanks leave, behind the same blanks.
module ShellFenceLines {
  import opened Text
  import opened ShellFormat
  import opened ShellConserve

  // What keeps a fence as it is: a line that a continuation ends, a heredoc, an open quote.
  ghost predicate Blocked(line: string) {
    || (exists front: string, blanks: string :: AllSpace(blanks) && line == front + "\\" + blanks)
    || (exists front: string, rest: string :: line == front + "<<" + rest)
    || ShellGuard.LeavesQuoteOpen(line)
  }

  lemma {:induction false} HeredocIs(line: string)
    ensures HasHeredoc(line) <==> exists front: string, rest: string :: line == front + "<<" + rest
  {
    if HasHeredoc(line) {
      var k :| 0 <= k < |line| - 1 && line[k] == '<' && line[k + 1] == '<';
      assert line == line[..k] + "<<" + line[k + 2..];
    }
    if front: string, rest: string :| line == front + "<<" + rest {
      assert line[|front|] == '<' && line[|front| + 1] == '<';
    }
  }

  lemma {:induction false} TailIs(line: string, front: string, blanks: string)
    requires AllSpace(blanks) && line == front + "\\" + blanks
    ensures TrimEnd(line) == front + "\\"
  {
    assert !IsSpace('\\');
    hide IsSpace;
    var n := |front| + 1;
    assert line[n - 1] == '\\';
    assert forall k :: n <= k < |line| ==> line[k] == blanks[k - n];
    assert TailStart(line, |line|) == n;
    assert line[..n] == front + "\\";
  }

  lemma {:induction false} ContinuedIs(line: string)
    ensures EndsOpen(TrimEnd(line)) <==> exists front: string, blanks: string :: AllSpace(blanks) && line == front + "\\" + blanks
  {
    hide IsSpace;
    var text := TrimEnd(line);
    if EndsOpen(text) {
      var front, blanks := text[..|text| - 1], line[|text|..];
      assert line == front + "\\" + blanks && AllSpace(blanks);
    }
    if front: string, blanks: string :| AllSpace(blanks) && line == front + "\\" + blanks {
      TailIs(line, front, blanks);
    }
  }

  lemma {:induction false} BlocksIff(line: string)
    ensures BlocksFence(line) <==> Blocked(line)
  {
    ContinuedIs(line);
    HeredocIs(line);
    hide HasHeredoc, EndsOpen, TrimEnd, ShellGuard.LeavesQuoteOpen, AllSpace;
  }

  // Leading blanks, and a rest that starts with none.
  predicate Splits(line: string, blanks: string, body: string) {
    line == blanks + body && AllSpace(blanks) && (body != "" ==> !IsSpace(body[0]))
  }

  lemma {:induction false} SplitIs(line: string, blanks: string, body: string)
    requires Splits(line, blanks, body)
    ensures TrimStart(line) == body && line[..|line| - |body|] == blanks
  {
    hide IsSpace;
    assert forall k :: 0 <= k < |blanks| ==> line[k] == blanks[k];
    assert body != "" ==> line[|blanks|] == body[0];
    assert LeadEnd(line, 0) == |blanks|;
  }

  // The width that is left behind the blanks.
  function Room(width: nat, blanks: string): nat {
    if |blanks| <= width then width - |blanks| else 0
  }

  // The lines with the blanks before each.
  predicate Shifted(lines: seq<string>, blanks: string, shifted: seq<string>) {
    |shifted| == |lines| && forall k :: 0 <= k < |lines| ==> shifted[k] == blanks + lines[k]
  }

  lemma {:induction false} ItemIs(line: string, blanks: string, body: string, width: nat)
    requires |body| <= |line| && TrimStart(line) == body && line[..|line| - |body|] == blanks
    ensures var laid := FormatLines(body, Room(width, blanks), true);
            FenceItem(line, width) == if laid.None? then line else Join(Indented(blanks, Lines(Join(laid.value, "\n"))), "\n")
  {
    hide FormatLines, TrimStart, Lines, Join, Indented;
  }

  lemma {:induction false} IndentedShifts(blanks: string, lines: seq<string>)
    ensures Shifted(lines, blanks, Indented(blanks, lines))
  {
  }

  lemma {:induction false} LaidLines(body: string, width: nat)
    requires FormatLines(body, width, true).Some?
    ensures var lines := FormatLines(body, width, true).value; Lines(Join(lines, "\n")) == lines
  {
    hide FormatLines, LinesInk, GoodLines, Lines, Join;
    var lines := FormatLines(body, width, true).value;
    FormatLinesInk(body, width, true);
    GoodPlain(lines);
    LinesOfJoin(lines);
  }

  // A line of a fence becomes its command's lines behind its own blanks, or stays as it is.
  lemma {:induction false} FenceLineIs(line: string, blanks: string, body: string, width: nat) returns (shifted: seq<string>)
    requires Splits(line, blanks, body)
    ensures var laid := FormatLines(body, Room(width, blanks), true);
            if laid.None? then FenceItem(line, width) == line
            else Shifted(laid.value, blanks, shifted) && FenceItem(line, width) == Join(shifted, "\n")
  {
    assert |body| <= |line|;
    hide *;
    SplitIs(line, blanks, body);
    ItemIs(line, blanks, body, width);
    var laid := FormatLines(body, Room(width, blanks), true);
    if laid.Some? {
      LaidLines(body, Room(width, blanks));
      shifted := Indented(blanks, laid.value);
      IndentedShifts(blanks, laid.value);
    } else {
      shifted := [];
    }
  }

  lemma {:induction false} ItemChanges(line: string, width: nat)
    ensures FenceLine(line, width).Some? <==> FormatLines(TrimStart(line), Room(width, line[..|line| - |TrimStart(line)|]), true).Some?
  {
    hide FormatLines, TrimStart, Lines, Join;
  }

  // A fence is formatted exactly when no line is blocked and the command of some line is laid out; it is
  // then its lines, each as it was or laid out.
  lemma {:induction false} FenceIff(content: string, width: nat)
    ensures FormatFenceSpec(content, width).Some? <==>
            && (forall line :: line in Lines(content) ==> !Blocked(line))
            && exists line :: line in Lines(content) &&
                 FormatLines(TrimStart(line), Room(width, line[..|line| - |TrimStart(line)|]), true).Some?
    ensures FormatFenceSpec(content, width).Some? ==>
              FormatFenceSpec(content, width).value == Join(FenceItems(Lines(content), width), "\n")
  {
    var lines := Lines(content);
    forall line ensures BlocksFence(line) <==> Blocked(line) {
      BlocksIff(line);
    }
    forall line
      ensures FenceLine(line, width).Some? <==> FormatLines(TrimStart(line), Room(width, line[..|line| - |TrimStart(line)|]), true).Some?
    {
      ItemChanges(line, width);
    }
    hide FormatLines, FenceLine, FenceItems, BlocksFence, Blocked, Lines, Join, TrimStart, Room;
  }
}
