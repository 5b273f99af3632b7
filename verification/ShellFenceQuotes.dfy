// What the check for open quotes means for a whole fence: which lines start outside quotes.
module ShellFenceQuotes {
  import opened Text
  import opened ShellScan
  import opened ShellConserve
  import opened ShellReading
  import opened ShellFormat
  import opened ShellFence
  import opened ShellGuard
  import opened ShellOpenQuotes

  const FIRST := State(OPEN, true, false)

  // The shell's reading of a block at the start of its `i`-th line.
  function StateAt(lines: seq<string>, i: nat): State
    requires i <= |lines|
  {
    if i == 0 then FIRST else Took(Reads(StateAt(lines, i - 1), lines[i - 1]), '\n')
  }

  // The first `i` lines as one text.
  function TextUpTo(lines: seq<string>, i: nat): string
    requires i <= |lines|
  {
    if i == 0 then "" else TextUpTo(lines, i - 1) + lines[i - 1] + "\n"
  }

  lemma {:induction false} ReadsConcat(t: State, a: string, b: string)
    ensures Reads(t, a + b) == Reads(Reads(t, a), b)
    decreases |b|
  {
    hide Took;
    if b == "" {
      assert a + b == a;
    } else {
      assert (a + b)[..|a + b| - 1] == a + b[..|b| - 1];
      ReadsConcat(t, a, b[..|b| - 1]);
    }
  }

  lemma {:induction false} ReadsOne(t: State, c: char)
    ensures Reads(t, [c]) == Took(t, c)
  {
    assert [c][..0] == "";
    hide Took;
  }

  // The state at a line is the reading of all the text before it.
  lemma {:induction false} StateIsReading(lines: seq<string>, i: nat)
    requires i <= |lines|
    ensures StateAt(lines, i) == Reads(FIRST, TextUpTo(lines, i))
  {
    hide Took, Reads;
    if i == 0 {
      NothingRead(FIRST);
    } else {
      StateIsReading(lines, i - 1);
      ReadsConcat(FIRST, TextUpTo(lines, i - 1) + lines[i - 1], "\n");
      ReadsConcat(FIRST, TextUpTo(lines, i - 1), lines[i - 1]);
      ReadsOne(Reads(FIRST, TextUpTo(lines, i - 1) + lines[i - 1]), '\n');
      assert ['\n'] == "\n";
    }
  }

  lemma {:induction false} NothingRead(t: State)
    ensures Reads(t, "") == t
  {
  }

  lemma {:induction false} EscapedNeedsBackslash(t: State, s: string)
    requires s != "" && Reads(t, s).nest.mode.Escaped? && !Reads(t, s).comment
    ensures EndsOpen(s)
  {
    TookEscaped(Reads(t, s[..|s| - 1]), s[|s| - 1]);
  }

  lemma {:induction false} TookEscaped(t: State, c: char)
    ensures Took(t, c).nest.mode.Escaped? && !Took(t, c).comment ==> c == '\\'
  {
    hide IsWordStart;
  }

  // Behind a line that leaves no quote open and is not continued, the next one starts outside quotes.
  lemma {:induction false} NextLineStart(t: State, line: string)
    requires LineStart(t) && !EndsOpen(line) && !InQuote(Reads(t, line))
    ensures LineStart(Took(Reads(t, line), '\n'))
  {
    if line != "" && !Reads(t, line).comment && Reads(t, line).nest.mode.Escaped? {
      EscapedNeedsBackslash(t, line);
    }
    NewlineStart(Reads(t, line));
  }

  lemma {:induction false} NewlineStart(t: State)
    requires !InQuote(t) && (!t.comment ==> !t.nest.mode.Escaped?)
    ensures LineStart(Took(t, '\n'))
  {
    assert IsWordStart(Some('\n'));
    hide IsWordStart;
  }

  predicate LineRead(lines: seq<string>, i: nat)
    requires i < |lines|
  {
    forall k :: 0 <= k < |lines[i]| ==> !Misread(StateAt(lines, i), lines[i], k)
  }

  predicate LineRight(lines: seq<string>, i: nat)
    requires i < |lines|
  {
    forall n :: 0 <= n <= |lines[i]| ==> Right(StateAt(lines, i), lines[i][..n])
  }

  lemma {:induction false} LinesStart(lines: seq<string>, i: nat)
    requires i <= |lines| && forall j :: 0 <= j < i ==> !BlocksFence(lines[j]) && LineRead(lines, j)
    ensures LineStart(StateAt(lines, i))
  {
    hide Misread, BlocksLine, Reads, Took, LineStart, InQuote;
    if i == 0 {
      FirstStarts(lines);
    } else {
      LinesStart(lines, i - 1);
      var t, line := StateAt(lines, i - 1), lines[i - 1];
      assert LineRead(lines, i - 1);
      FrontIsRight(t, line, |line|);
      assert line[..|line|] == line;
      LineEnds(line);
      NextLineStart(t, line);
    }
  }

  lemma {:induction false} FirstStarts(lines: seq<string>)
    ensures LineStart(StateAt(lines, 0))
  {
  }

  lemma {:induction false} LineEnds(line: string)
    requires !BlocksFence(line)
    ensures !EndsOpen(line) && !LeavesQuoteOpen(line)
  {
    hide EndsOpen, TrimEnd, HasHeredoc, LeavesQuoteOpen;
    UnspacedEnd(line);
  }

  // In a fence without blocked lines, the check is right about every front of every line, read in its
  // place, if and only if it misreads no position.
  lemma {:induction false} BlockRightIff(lines: seq<string>)
    requires forall i :: 0 <= i < |lines| ==> !BlocksFence(lines[i])
    ensures (forall i :: 0 <= i < |lines| ==> LineRight(lines, i)) <==> (forall i :: 0 <= i < |lines| ==> LineRead(lines, i))
  {
    hide BlocksFence, LineRead, LineRight;
    if forall i :: 0 <= i < |lines| ==> LineRead(lines, i) {
      forall i | 0 <= i < |lines| ensures LineRight(lines, i) {
        LinesStart(lines, i);
        LineIff(lines, i);
      }
    } else {
      var n: nat :| n < |lines| && !LineRead(lines, n);
      var i := FirstUnread(lines, n);
      LinesStart(lines, i);
      LineIff(lines, i);
    }
  }

  lemma {:induction false} LineIff(lines: seq<string>, i: nat)
    requires i < |lines| && LineStart(StateAt(lines, i))
    ensures LineRight(lines, i) <==> LineRead(lines, i)
  {
    hide Right, Misread, LineStart, StateAt;
    RightIff(StateAt(lines, i), lines[i]);
  }

  lemma {:induction false} FirstUnread(lines: seq<string>, n: nat) returns (i: nat)
    requires n < |lines| && !LineRead(lines, n)
    ensures i < |lines| && !LineRead(lines, i) && forall j :: 0 <= j < i ==> LineRead(lines, j)
  {
    hide LineRead;
    i := n;
    if j :| 0 <= j < n && !LineRead(lines, j) {
      i := FirstUnread(lines, j);
    }
  }

  // In a formatted fence that the check reads right, every line starts outside quotes: what the
  // formatter takes for the start of a command is not the inside of a quoted text.
  lemma {:induction false} FenceLinesStart(content: string, width: nat)
    requires FormatFenceSpec(content, width).Some?
    requires forall i :: 0 <= i < |Lines(content)| ==> LineRead(Lines(content), i)
    ensures forall i :: 0 <= i <= |Lines(content)| ==> LineStart(StateAt(Lines(content), i))
  {
    hide Lines, LineRead, LineStart, BlocksFence, FenceItems, FenceLine, StateAt;
    var lines := Lines(content);
    assert forall i :: 0 <= i < |lines| ==> !BlocksFence(lines[i]);
    forall i | 0 <= i <= |lines| ensures LineStart(StateAt(lines, i)) {
      LinesStart(lines, i);
    }
  }
}
