// When the fence's check for open quotes is right: its reading, in which quotes do not nest, against
// the reading of the scanner, in which they do.
module ShellOpenQuotes {
  import opened Text
  import opened ShellScan
  import opened ShellReading
  import opened ShellGuard
  import Flat = ShellQuoting

  // ----- the shell's reading -----

  // Between two characters: the nesting, whether a word may start here, and whether a comment goes on.
  datatype State = State(nest: Reading, start: bool, comment: bool)

  predicate Outside(mode: Mode) {
    mode.Bare? || mode.Dollar?
  }

  // A `#` that starts a word starts a comment, but not in quotes and not in `${...}`.
  predicate HashStarts(t: State, c: char) {
    && c == '#' && t.start && Outside(t.nest.mode)
    && Last(t.nest.stack) != Some(Double) && Last(t.nest.stack) != Some(DollarBrace)
  }

  function Took(t: State, c: char): State {
    if t.comment then if c == '\n' then State(t.nest.(mode := Bare), true, false) else t
    else if HashStarts(t, c) then t.(comment := true)
    else State(Next(t.nest, c), Outside(t.nest.mode) && IsWordStart(Some(c)), false)
  }

  function Reads(t: State, s: string): State {
    if s == "" then t else Took(Reads(t, s[..|s| - 1]), s[|s| - 1])
  }

  predicate InSingle(mode: Mode) {
    mode.Single? || mode.Ansi? || mode.AnsiEscaped?
  }

  predicate InQuote(t: State) {
    Double in t.nest.stack || InSingle(t.nest.mode)
  }

  // Where a line starts that is not inside a quote.
  predicate LineStart(t: State) {
    Double !in t.nest.stack && t.nest.mode.Bare? && t.start && !t.comment
  }

  lemma {:induction false} ReadsMore(t: State, line: string, i: nat)
    requires i < |line|
    ensures Reads(t, line[..i + 1]) == Took(Reads(t, line[..i]), line[i])
  {
    hide Took;
    assert line[..i + 1][..i] == line[..i];
  }

  // ----- the check's answers -----

  // The check is right about `s`.
  predicate Right(t: State, s: string) {
    LeavesQuoteOpen(s) <==> InQuote(Reads(t, s))
  }

  lemma {:induction false} CommentOfFront(line: string, n: nat, k: nat)
    requires k <= n <= |line|
    ensures CommentFrom(line[..n], k) == if CommentFrom(line, k) <= n then CommentFrom(line, k) else n
    decreases n - k
  {
    hide StartsComment;
    if k < n {
      SameComment(line, n, k);
      CommentOfFront(line, n, k + 1);
      CommentNext(line, k);
      CommentNext(line[..n], k);
    }
  }

  lemma {:induction false} SameComment(line: string, n: nat, k: nat)
    requires k < n <= |line|
    ensures StartsComment(line[..n], k) <==> StartsComment(line, k)
  {
    assert line[..n][..k] == line[..k];
    assert k > 0 ==> line[..n][..k - 1] == line[..k - 1];
    hide Flat.Read, IsWordStart;
  }

  // What the check finds open at the end of a front of the line.
  lemma {:induction false} AnswerAt(line: string, n: nat)
    requires n <= |line|
    ensures var at := CommentFrom(line, 0);
            LeavesQuoteOpen(line[..n]) <==> Flat.QuoteOpen(Flat.Read(Flat.START, line[..if at <= n then at else n]))
  {
    hide Flat.Read, CommentFrom, Flat.QuoteOpen;
    CommentOfFront(line, n, 0);
    var at := CommentFrom(line[..n], 0);
    assert line[..n][..at] == line[..at];
  }

  // ----- the two readings -----

  function FlatMode(mode: Mode): Flat.Mode {
    match mode
    case Bare | Dollar => Flat.Plain
    case Escaped => Flat.Escaped
    case _ => Flat.Single
  }

  predicate OnlyOne(stack: seq<Ctx>) {
    forall i, j :: 0 <= i < |stack| && 0 <= j < |stack| && stack[i] == Double && stack[j] == Double ==> i == j
  }

  // The readings go side by side.
  predicate Alike(t: State, flat: Flat.Mode) {
    if Double in t.nest.stack then
      && OnlyOne(t.nest.stack) && (flat.Double? || flat.DoubleEscaped?)
      && (Last(t.nest.stack) == Some(Double) ==> !t.comment && !InSingle(t.nest.mode))
      && (!t.comment && (t.nest.mode.Escaped? || t.nest.mode.AnsiEscaped?) ==> flat.DoubleEscaped?)
      && (!t.comment && (Outside(t.nest.mode) || t.nest.mode.Ansi?) ==> flat.Double?)
    else !t.comment && flat == FlatMode(t.nest.mode)
  }

  // The check takes an escaped `'` for the end of `$'...'`.
  predicate EscapedMark(t: State, c: char) {
    c == '\'' && Double !in t.nest.stack && t.nest.mode.AnsiEscaped?
  }

  // The check takes a `"` inside a nested command or expansion for the end of the double quotes around it.
  predicate NestedMark(t: State, c: char) {
    c == '"' && Double in t.nest.stack && (t.comment || Last(t.nest.stack) != Some(Double))
  }

  // A quote opens.
  predicate OpeningMark(t: State, c: char) {
    (c == '\'' || c == '"') && !t.comment && Double !in t.nest.stack && Outside(t.nest.mode)
  }

  lemma {:induction false} PopOne(stack: seq<Ctx>)
    requires stack != []
    ensures Last(stack) == Some(Double) && OnlyOne(stack) ==> Double !in Pop(stack)
    ensures Last(stack) != Some(Double) ==> (Double in Pop(stack) <==> Double in stack)
    ensures OnlyOne(stack) ==> OnlyOne(Pop(stack))
  {
    var front := stack[..|stack| - 1];
    assert stack == front + [stack[|stack| - 1]];
  }

  lemma {:induction false} PushOne(stack: seq<Ctx>, ctx: Ctx)
    ensures Last(stack + [ctx]) == Some(ctx)
    ensures Double in stack + [ctx] <==> Double in stack || ctx == Double
    ensures OnlyOne(stack) && (ctx == Double ==> Double !in stack) ==> OnlyOne(stack + [ctx])
  {
  }

  lemma {:induction false} NoneOnlyOne(stack: seq<Ctx>)
    requires Double !in stack
    ensures OnlyOne(stack)
  {
  }

  // Outside double quotes.
  lemma {:induction false} OutsideStep(t: State, r: Flat.Reader, c: char)
    requires Alike(t, r.mode) && Double !in t.nest.stack && !EscapedMark(t, c) && !HashStarts(t, c)
    ensures Alike(Took(t, c), Flat.Next(r, c).mode)
  {
    var stack := t.nest.stack;
    assert !IsSpace('\\') && !IsSpace('\'') && !IsSpace('"');
    NoneOnlyOne(stack);
    PushOne(stack, Double);
    PushOne(stack, Paren);
    PushOne(stack, Backtick);
    PushOne(stack, DollarBrace);
    if stack != [] {
      PopOne(stack);
    }
    hide IsSpace, IsWordStart, OnlyOne;
  }

  // Inside double quotes, not nested any deeper.
  lemma {:induction false} DoubleStep(t: State, r: Flat.Reader, c: char)
    requires Alike(t, r.mode) && Last(t.nest.stack) == Some(Double)
    ensures Alike(Took(t, c), Flat.Next(r, c).mode)
  {
    var stack := t.nest.stack;
    assert Double in stack;
    PopOne(stack);
    PushOne(stack, Paren);
    PushOne(stack, Backtick);
    PushOne(stack, DollarBrace);
    hide IsSpace, IsWordStart, OnlyOne;
  }

  // In a command or expansion inside double quotes.
  lemma {:induction false} NestedStep(t: State, r: Flat.Reader, c: char)
    requires Alike(t, r.mode) && Double in t.nest.stack && Last(t.nest.stack) != Some(Double)
    requires !(NestedMark(t, c) && r.mode.Double?)
    ensures Alike(Took(t, c), Flat.Next(r, c).mode)
  {
    var stack := t.nest.stack;
    PopOne(stack);
    PushOne(stack, Paren);
    PushOne(stack, Backtick);
    PushOne(stack, DollarBrace);
    hide IsSpace, IsWordStart, OnlyOne;
  }

  // ----- the positions where they part -----

  // The check misreads position `k` of a line: an escaped `'` in `$'...'` outside double quotes; an
  // unescaped `"` nested in double quotes; or a quote that opens behind a `#` where it stopped, but
  // where no comment starts.
  predicate Misread(t: State, line: string, k: nat)
    requires k < |line|
  {
    var here := Reads(t, line[..k]);
    || EscapedMark(here, line[k])
    || (NestedMark(here, line[k]) && BackslashRun(line, k) % 2 == 0)
    || (OpeningMark(here, line[k]) && CommentFrom(line, 0) < k)
  }

  // Inside double quotes the check knows an escaped character by the backslashes before it.
  lemma {:induction false} RunSays(line: string, i: nat)
    requires i <= |line|
    ensures var flat := Flat.Read(Flat.START, line[..i]).mode;
            flat.Double? || flat.DoubleEscaped? ==> (flat.DoubleEscaped? <==> BackslashRun(line, i) % 2 == 1)
  {
    if i == 0 {
      assert line[..0] == "";
    } else {
      RunSays(line, i - 1);
      ReadMore(line, i - 1);
      hide Flat.Read, IsSpace;
    }
  }

  // Up to the check's comment.
  predicate Along(t: State, line: string, i: nat)
    requires i <= |line|
  {
    var (here, flat) := (Reads(t, line[..i]), Flat.Read(Flat.START, line[..i]).mode);
    && i <= CommentFrom(line, 0) && Alike(here, flat)
    && (Double !in here.nest.stack && Outside(here.nest.mode) ==> (here.start <==> WordMayStart(line, i)))
  }

  lemma {:induction false} StartsAlong(t: State, line: string)
    requires LineStart(t)
    ensures Along(t, line, 0)
  {
    assert line[..0] == "";
    hide CommentFrom;
  }

  lemma {:induction false} StepAlong(t: State, line: string, i: nat)
    requires i < |line| && i < CommentFrom(line, 0) && Along(t, line, i) && !Misread(t, line, i)
    ensures Along(t, line, i + 1)
  {
    var here, r := Reads(t, line[..i]), Flat.Read(Flat.START, line[..i]);
    ReadsMore(t, line, i);
    ReadMore(line, i);
    RunSays(line, i);
    assert !StartsComment(line, i);
    hide Reads, Flat.Read, CommentFrom, BackslashRun, IsWordStart, Took, Alike, OnlyOne;
    AlikeModes(here, r.mode);
    if Double in here.nest.stack {
      if Last(here.nest.stack) == Some(Double) {
        DoubleStep(here, r, line[i]);
      } else {
        NestedStep(here, r, line[i]);
      }
    } else {
      OutsideStep(here, r, line[i]);
    }
    NextStart(here, r, line[i]);
  }

  lemma {:induction false} AlikeModes(t: State, flat: Flat.Mode)
    requires Alike(t, flat)
    ensures Double in t.nest.stack ==> flat.Double? || flat.DoubleEscaped?
    ensures Double !in t.nest.stack ==> !t.comment && (flat.Plain? <==> Outside(t.nest.mode))
  {
  }

  // Whether a word may start behind `c`.
  lemma {:induction false} NextStart(t: State, r: Flat.Reader, c: char)
    requires Alike(t, r.mode) && !(Double !in t.nest.stack && HashStarts(t, c))
    ensures var next := Took(t, c);
            Double !in next.nest.stack && Outside(next.nest.mode) ==> (next.start <==> r.mode.Plain? && IsWordStart(Some(c)))
  {
    MarksStartNoWord();
    hide IsWordStart, OnlyOne;
  }

  lemma {:induction false} AlongIsRight(t: State, line: string, i: nat)
    requires i <= |line| && Along(t, line, i)
    ensures Right(t, line[..i])
  {
    AnswerAt(line, i);
    hide Reads, Flat.Read, CommentFrom, LeavesQuoteOpen, IsWordStart, OnlyOne;
  }

  // Where the check stops at a `#`, no quote is open.
  lemma {:induction false} StopsOutside(t: State, line: string, i: nat)
    requires i < |line| && i == CommentFrom(line, 0) && Along(t, line, i)
    ensures !InQuote(Reads(t, line[..i + 1]))
  {
    ReadsMore(t, line, i);
    assert StartsComment(line, i);
    assert !IsSpace('#');
    hide Reads, Flat.Read, CommentFrom, IsWordStart, OnlyOne, IsSpace;
  }

  lemma {:induction false} StaysOutside(t: State, line: string, i: nat)
    requires CommentFrom(line, 0) < i < |line| && !InQuote(Reads(t, line[..i])) && !Misread(t, line, i)
    ensures !InQuote(Reads(t, line[..i + 1]))
  {
    ReadsMore(t, line, i);
    hide Reads, CommentFrom, IsWordStart, BackslashRun;
    OutsideKept(Reads(t, line[..i]), line[i]);
  }

  lemma {:induction false} OutsideKept(t: State, c: char)
    requires !InQuote(t)
    ensures !OpeningMark(t, c) ==> !InQuote(Took(t, c))
    ensures OpeningMark(t, c) ==> InQuote(Took(t, c))
  {
    var stack := t.nest.stack;
    if stack != [] {
      PopOne(stack);
    }
    hide IsWordStart;
  }

  // Behind its comment the check always answers that no quote is open.
  lemma {:induction false} BehindComment(t: State, line: string, i: nat)
    requires CommentFrom(line, 0) < i <= |line|
    ensures Right(t, line[..i]) <==> !InQuote(Reads(t, line[..i]))
  {
    AnswerAt(line, i);
    assert StartsComment(line, CommentFrom(line, 0));
    hide Reads, Flat.Read, CommentFrom, LeavesQuoteOpen, InQuote;
  }

  lemma {:induction false} FrontIsRight(t: State, line: string, n: nat)
    requires n <= |line| && LineStart(t) && forall k :: 0 <= k < n ==> !Misread(t, line, k)
    ensures Right(t, line[..n])
    ensures if n <= CommentFrom(line, 0) then Along(t, line, n) else !InQuote(Reads(t, line[..n]))
  {
    hide Reads, CommentFrom, Misread, Along, Right, InQuote;
    if n == 0 {
      StartsAlong(t, line);
      AlongIsRight(t, line, 0);
    } else {
      FrontIsRight(t, line, n - 1);
      assert !Misread(t, line, n - 1);
      if n <= CommentFrom(line, 0) {
        StepAlong(t, line, n - 1);
        AlongIsRight(t, line, n);
      } else {
        if n - 1 == CommentFrom(line, 0) {
          StopsOutside(t, line, n - 1);
        } else {
          StaysOutside(t, line, n - 1);
        }
        BehindComment(t, line, n);
      }
    }
  }

  lemma {:induction false} MarkTaken(t: State, r: Flat.Reader, c: char)
    requires Alike(t, r.mode) && (EscapedMark(t, c) || (NestedMark(t, c) && r.mode.Double?))
    ensures InQuote(Took(t, c)) && !Flat.QuoteOpen(Flat.Next(r, c))
  {
    var stack := t.nest.stack;
    if stack != [] {
      PopOne(stack);
    }
    PushOne(stack, Double);
    hide IsWordStart, IsSpace, OnlyOne;
  }

  lemma {:induction false} NoMarkAtComment(line: string, k: nat)
    requires k < |line| && k == CommentFrom(line, 0)
    ensures line[k] == '#'
  {
    assert StartsComment(line, k);
  }

  lemma {:induction false} MarkBefore(t: State, line: string, k: nat)
    requires k < CommentFrom(line, 0) && Along(t, line, k) && Misread(t, line, k)
    ensures var here, r := Reads(t, line[..k]), Flat.Read(Flat.START, line[..k]);
            && Alike(here, r.mode)
            && (EscapedMark(here, line[k]) || (NestedMark(here, line[k]) && r.mode.Double?))
  {
    RunSays(line, k);
    var here, r := Reads(t, line[..k]), Flat.Read(Flat.START, line[..k]);
    AlikeModes(here, r.mode);
    hide Reads, Flat.Read, CommentFrom, BackslashRun, IsWordStart, OnlyOne, Alike;
  }

  lemma {:induction false} PartsBefore(t: State, line: string, k: nat)
    requires k < CommentFrom(line, 0) && Along(t, line, k) && Misread(t, line, k)
    ensures !Right(t, line[..k + 1])
  {
    MarkBefore(t, line, k);
    ReadsMore(t, line, k);
    ReadMore(line, k);
    AnswerAt(line, k + 1);
    hide Reads, Flat.Read, CommentFrom, LeavesQuoteOpen, Took, BackslashRun, Flat.QuoteOpen, Flat.Next, InQuote,
         Misread, Along, Alike, EscapedMark, NestedMark;
    MarkTaken(Reads(t, line[..k]), Flat.Read(Flat.START, line[..k]), line[k]);
  }

  // At the first misread position the check goes wrong.
  lemma {:induction false} PartsAt(t: State, line: string, k: nat)
    requires k < |line| && LineStart(t) && Misread(t, line, k) && forall j :: 0 <= j < k ==> !Misread(t, line, j)
    ensures !Right(t, line[..k + 1])
  {
    FrontIsRight(t, line, k);
    hide Along, Right, LineStart, Reads, CommentFrom;
    if k < CommentFrom(line, 0) {
      PartsBefore(t, line, k);
    } else if k == CommentFrom(line, 0) {
      NoMarkAtComment(line, k);
    } else {
      ReadsMore(t, line, k);
      OutsideKept(Reads(t, line[..k]), line[k]);
      BehindComment(t, line, k + 1);
      hide Took, BackslashRun;
    }
  }

  lemma {:induction false} FirstMisread(t: State, line: string, n: nat) returns (k: nat)
    requires n < |line| && Misread(t, line, n)
    ensures k < |line| && Misread(t, line, k) && forall j :: 0 <= j < k ==> !Misread(t, line, j)
  {
    hide Misread;
    k := n;
    if j :| 0 <= j < n && Misread(t, line, j) {
      k := FirstMisread(t, line, j);
    }
  }

  // The check is right about every front of a line if and only if it misreads no position of it.
  lemma {:induction false} RightIff(t: State, line: string)
    requires LineStart(t)
    ensures (forall n :: 0 <= n <= |line| ==> Right(t, line[..n])) <==> (forall k :: 0 <= k < |line| ==> !Misread(t, line, k))
  {
    hide Misread, Right, LineStart;
    if forall k :: 0 <= k < |line| ==> !Misread(t, line, k) {
      forall n | 0 <= n <= |line| ensures Right(t, line[..n]) {
        FrontIsRight(t, line, n);
      }
    } else {
      var n: nat :| n < |line| && Misread(t, line, n);
      var k := FirstMisread(t, line, n);
      PartsAt(t, line, k);
    }
  }
}
