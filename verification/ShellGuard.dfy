// What the fence's check for open quotes answers: whether the line, its quotes read side by side and
// never one inside the other, ends inside a quote before its comment.
module ShellGuard {
  import opened Text
  import opened ShellQuoting
  import ShellScan

  // Position `k` is not behind anything of its own word.
  predicate WordMayStart(line: string, k: nat)
    requires k <= |line|
  {
    k == 0 || (Read(START, line[..k - 1]).mode.Plain? && ShellScan.IsWordStart(Some(line[k - 1])))
  }

  // A comment starts at an unquoted `#` that starts a word.
  predicate StartsComment(line: string, k: nat)
    requires k < |line|
  {
    line[k] == '#' && Read(START, line[..k]).mode.Plain? && WordMayStart(line, k)
  }

  // Where the comment starts, or the end of the line.
  function CommentFrom(line: string, i: nat): (at: nat)
    requires i <= |line|
    ensures i <= at <= |line|
    ensures forall k :: i <= k < at ==> !StartsComment(line, k)
    ensures at < |line| ==> StartsComment(line, at)
    decreases |line| - i
  {
    if i == |line| || StartsComment(line, i) then i else CommentFrom(line, i + 1)
  }

  // The line up to its comment ends inside single or double quotes, if quotes do not nest.
  predicate LeavesQuoteOpen(line: string) {
    QuoteOpen(Read(START, line[..CommentFrom(line, 0)]))
  }

  predicate IsQuote(quote: Option<char>) {
    quote == None || quote == Some('\'') || quote == Some('"')
  }

  function ModeOf(quote: Option<char>): Mode
    requires IsQuote(quote)
  {
    if quote == None then Plain else if quote == Some('\'') then Single else Double
  }

  // What the check keeps between two characters.
  predicate Follows(line: string, i: nat, quote: Option<char>, prev: Option<char>) {
    && i <= |line| && IsQuote(quote) && Read(START, line[..i]).mode == ModeOf(quote)
    && (quote == None ==> (ShellScan.IsWordStart(prev) <==> WordMayStart(line, i)))
  }

  lemma {:induction false} ReadMore(line: string, i: nat)
    requires i < |line|
    ensures Read(START, line[..i + 1]) == Next(Read(START, line[..i]), line[i])
  {
    hide Next;
    assert line[..i + 1] == line[..i] + [line[i]];
    ReadConcat(START, line[..i], [line[i]]);
    assert [line[i]][1..] == "";
  }

  lemma {:induction false} StartOfLine(line: string)
    ensures Follows(line, 0, None, None)
  {
    assert line[..0] == "";
  }

  lemma {:induction false} MarksStartNoWord()
    ensures !ShellScan.IsWordStart(Some('\\')) && !ShellScan.IsWordStart(Some('\'')) && !ShellScan.IsWordStart(Some('"'))
  {
  }

  lemma {:induction false} BehindEscape(line: string, i: nat, quote: Option<char>, prev: Option<char>)
    requires Follows(line, i, quote, prev) && i < |line| && line[i] == '\\' && quote != Some('\'')
    ensures !StartsComment(line, i)
    ensures i + 1 == |line| ==> (QuoteOpen(Read(START, line)) <==> quote.Some?)
    ensures i + 1 < |line| ==> !StartsComment(line, i + 1) && Follows(line, i + 2, quote, Some('\\'))
  {
    ReadMore(line, i);
    MarksStartNoWord();
    assert !IsSpace('\\');
    hide Read, ShellScan.IsWordStart, IsSpace;
    if i + 1 < |line| {
      ReadMore(line, i + 1);
      assert !Read(START, line[..i + 1]).mode.Plain?;
    } else {
      assert line[..i + 1] == line;
    }
  }

  function QuoteAfter(quote: Option<char>, c: char): Option<char> {
    if quote == Some(c) then None else if quote == None && (c == '\'' || c == '"') then Some(c) else quote
  }

  lemma {:induction false} BehindOther(line: string, i: nat, quote: Option<char>, prev: Option<char>)
    requires Follows(line, i, quote, prev) && i < |line|
    requires line[i] != '\\' || quote == Some('\'')
    ensures Follows(line, i + 1, QuoteAfter(quote, line[i]), Some(line[i]))
  {
    ReadMore(line, i);
    MarksStartNoWord();
    hide Read, ShellScan.IsWordStart, IsSpace;
  }

  lemma {:induction false} CommentNext(line: string, i: nat)
    requires i < |line|
    ensures CommentFrom(line, i) == if StartsComment(line, i) then i else CommentFrom(line, i + 1)
  {
    hide StartsComment;
  }

  lemma {:induction false} CommentIff(line: string, i: nat, quote: Option<char>, prev: Option<char>)
    requires Follows(line, i, quote, prev) && i < |line|
    ensures StartsComment(line, i) <==> quote == None && line[i] == '#' && ShellScan.IsWordStart(prev)
  {
    hide Read, ShellScan.IsWordStart;
  }

  lemma {:induction false} OpenAt(line: string, i: nat, quote: Option<char>, prev: Option<char>)
    requires Follows(line, i, quote, prev)
    ensures QuoteOpen(Read(START, line[..i])) <==> quote.Some?
  {
    hide Read, ShellScan.IsWordStart;
  }

  // The check, with its own loop.
  method QuoteStaysOpen(line: string) returns (open: bool)
    ensures open == LeavesQuoteOpen(line)
  {
    hide Read, ShellScan.IsWordStart, CommentFrom, StartsComment, Follows, QuoteOpen;
    var quote: Option<char> := None;
    var prev: Option<char> := None;
    var i := 0;
    StartOfLine(line);
    OpenAt(line, 0, quote, prev);
    assert line[..|line|] == line;
    while i < |line|
      invariant i <= |line| && CommentFrom(line, i) == CommentFrom(line, 0)
      invariant i < |line| ==> Follows(line, i, quote, prev)
      invariant i == |line| ==> (QuoteOpen(Read(START, line)) <==> quote.Some?)
      decreases |line| - i
    {
      var c := line[i];
      CommentNext(line, i);
      CommentIff(line, i, quote, prev);
      OpenAt(line, i, quote, prev);
      if quote == None && c == '#' && ShellScan.IsWordStart(prev) {
        return false;
      }
      if quote != Some('\'') && c == '\\' {
        BehindEscape(line, i, quote, prev);
        if i + 1 < |line| {
          CommentNext(line, i + 1);
          OpenAt(line, i + 2, quote, Some(c));
          i := i + 1;
        }
      } else {
        BehindOther(line, i, quote, prev);
        OpenAt(line, i + 1, QuoteAfter(quote, c), Some(c));
        if quote == Some(c) {
          quote := None;
        } else if quote == None && (c == '\'' || c == '"') {
          quote := Some(c);
        }
      }
      prev := Some(c);
      i := i + 1;
    }
    return quote.Some?;
  }
}
