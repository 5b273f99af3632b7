// A command read one character at a time, as the scanner nests quotes: which backslashes escape,
// and what. Nothing here looks ahead or back, so a text reads as its parts do, one after the other.
module ShellReading {
  import opened Text
  import opened ShellScan

  // Between two characters: outside quotes, behind a `$`, behind a backslash, or inside a quote.
  datatype Mode = Bare | Dollar | Escaped | Single | Ansi | AnsiEscaped

  datatype Reading = Reading(stack: seq<Ctx>, mode: Mode)

  const OPEN := Reading([], Bare)

  function Pop(stack: seq<Ctx>): seq<Ctx> {
    if stack == [] then [] else stack[..|stack| - 1]
  }

  function InsideDouble(r: Reading, c: char): Reading {
    if c == '"' then Reading(Pop(r.stack), Bare)
    else if c == '(' && r.mode.Dollar? then Reading(r.stack + [Paren], Bare)
    else if c == '{' && r.mode.Dollar? then Reading(r.stack + [DollarBrace], Bare)
    else if c == '`' then Reading(r.stack + [Backtick], Bare)
    else Reading(r.stack, if c == '$' then Dollar else Bare)
  }

  function Outside(r: Reading, c: char): Reading {
    if c == '\'' then Reading(r.stack, if r.mode.Dollar? then Ansi else Single)
    else if c == '"' then Reading(r.stack + [Double], Bare)
    else if c == '(' then Reading(r.stack + [Paren], Bare)
    else if c == ')' && Last(r.stack) == Some(Paren) then Reading(Pop(r.stack), Bare)
    else if c == '`' then
      Reading(if Last(r.stack) == Some(Backtick) then Pop(r.stack) else r.stack + [Backtick], Bare)
    else if c == '{' && r.mode.Dollar? then Reading(r.stack + [DollarBrace], Bare)
    else if c == '}' && Last(r.stack) == Some(DollarBrace) then Reading(Pop(r.stack), Bare)
    else Reading(r.stack, if c == '$' then Dollar else Bare)
  }

  function Next(r: Reading, c: char): Reading {
    match r.mode
    case Escaped => r.(mode := Bare)
    case Single => if c == '\'' then r.(mode := Bare) else r
    case Ansi => r.(mode := if c == '\'' then Bare else if c == '\\' then AnsiEscaped else Ansi)
    case AnsiEscaped => r.(mode := Ansi)
    case _ =>
      if c == '\\' then r.(mode := Escaped)
      else if Last(r.stack) == Some(Double) then InsideDouble(r, c)
      else Outside(r, c)
  }

  function Read(r: Reading, s: string): Reading
    decreases |s|
  {
    if s == "" then r else Read(Next(r, s[0]), s[1..])
  }

  // The characters that a backslash escapes, in order.
  function Escapes(r: Reading, s: string): string
    decreases |s|
  {
    if s == "" then "" else (if r.mode.Escaped? then [s[0]] else "") + Escapes(Next(r, s[0]), s[1..])
  }

  // Outside every quote and every nested command.
  predicate Level(r: Reading) {
    r.stack == [] && (r.mode.Bare? || r.mode.Dollar?)
  }

  lemma {:induction false} ReadConcat(r: Reading, a: string, b: string)
    ensures Read(r, a + b) == Read(Read(r, a), b)
    ensures Escapes(r, a + b) == Escapes(r, a) + Escapes(Read(r, a), b)
    decreases |a|
  {
    hide Next;
    if a == "" {
      assert a + b == b;
      assert "" + Escapes(r, b) == Escapes(r, b);
    } else {
      assert (a + b)[1..] == a[1..] + b;
      ReadConcat(Next(r, a[0]), a[1..], b);
      var first := if r.mode.Escaped? then [a[0]] else "";
      Regroup(first, Escapes(Next(r, a[0]), a[1..]), Escapes(Read(r, a), b));
    }
  }

  lemma {:induction false} Regroup(a: string, b: string, c: string)
    ensures a + (b + c) == (a + b) + c
  {
  }

  lemma {:induction false} ReadOne(r: Reading, c: char)
    ensures Read(r, [c]) == Next(r, c)
    ensures Escapes(r, [c]) == if r.mode.Escaped? then [c] else ""
  {
    hide Next;
    assert [c][1..] == "";
    assert [c] + "" == [c];
  }

  lemma {:induction false} ReadNone(r: Reading)
    ensures Read(r, "") == r && Escapes(r, "") == ""
  {
  }

  // Characters without any meaning to the reader.
  predicate IsPlain(c: char) {
    && c != '\\' && c != '\'' && c != '"' && c != '(' && c != ')' && c != '`' && c != '{' && c != '}' && c != '$'
  }

  predicate AllPlain(s: string) {
    forall k :: 0 <= k < |s| ==> IsPlain(s[k])
  }

  lemma {:induction false} ReadPlain(r: Reading, s: string)
    requires (r.mode.Bare? || r.mode.Dollar?) && AllPlain(s)
    ensures Read(r, s) == if s == "" then r else Reading(r.stack, Bare)
    ensures Escapes(r, s) == ""
    decreases |s|
  {
    if s != "" {
      ReadPlain(Next(r, s[0]), s[1..]);
    }
  }

  lemma {:induction false} BlankIsPlain(s: string)
    requires AllSpace(s)
    ensures AllPlain(s)
  {
  }

  // The next character behind a lone backslash is escaped; blanks, separators and keywords are read
  // without a trace.
  lemma {:induction false} ReadPlainBehind(r: Reading, s: string)
    requires r.stack == [] && (r.mode.Bare? || r.mode.Dollar? || r.mode.Escaped?) && AllPlain(s)
    ensures s != "" ==> Read(r, s) == OPEN
    ensures Escapes(r, s) == if r.mode.Escaped? && s != "" then [s[0]] else ""
  {
    if r.mode.Escaped? && s != "" {
      hide Read, Escapes;
      assert s == [s[0]] + s[1..];
      ReadConcat(r, [s[0]], s[1..]);
      ReadOne(r, s[0]);
      ReadPlain(OPEN, s[1..]);
      assert [s[0]] + "" == [s[0]];
    } else if s != "" {
      ReadPlain(r, s);
    }
  }

  // Quotes and nesting survive blanks.
  lemma {:induction false} BlankKeepsInside(r: Reading, blank: string)
    requires AllPlain(blank) && Level(Read(r, blank))
    ensures r.stack == [] && (r.mode.Bare? || r.mode.Dollar? || r.mode.Escaped?)
    decreases |blank|
  {
    if blank != "" {
      BlankKeepsInside(Next(r, blank[0]), blank[1..]);
    }
  }

  // ----- the scanner nests the same way -----

  // A `$` that no backslash escapes stands before position `i`.
  predicate DollarAt(chars: string, i: nat)
    requires i <= |chars|
  {
    i > 0 && chars[i - 1] == '$' && BackslashRun(chars, i - 1) % 2 == 0
  }

  function ModeAt(chars: string, i: nat): Mode
    requires i <= |chars|
  {
    if DollarAt(chars, i) then Dollar else Bare
  }

  // Between two rounds of the scan: no backslash waits for its character, and a `$` behind which a
  // nested command or expansion opens was copied together with it.
  predicate Between(chars: string, i: nat, stack: seq<Ctx>) {
    && i <= |chars| && BackslashRun(chars, i) % 2 == 0
    && (DollarAt(chars, i) && i < |chars| ==>
          chars[i] != '{' && (Last(stack) == Some(Double) ==> chars[i] != '('))
  }

  lemma {:induction false} ReadTwo(r: Reading, chars: string, i: nat)
    requires i + 2 <= |chars|
    ensures Read(r, chars[i..i + 2]) == Next(Next(r, chars[i]), chars[i + 1])
  {
    hide Next, Read, Escapes;
    assert chars[i..i + 2] == [chars[i]] + [chars[i + 1]];
    ReadConcat(r, [chars[i]], [chars[i + 1]]);
    ReadOne(r, chars[i]);
    ReadOne(Next(r, chars[i]), chars[i + 1]);
  }

  lemma {:induction false} ReadSlice(r: Reading, chars: string, i: nat, j: nat)
    requires i < j <= |chars|
    ensures Read(r, chars[i..j]) == Read(Next(r, chars[i]), chars[i + 1..j])
  {
    hide Next;
    assert chars[i..j][1..] == chars[i + 1..j];
  }

  lemma {:induction false} ReadQuote(chars: string, close: nat, ansi: bool, stack: seq<Ctx>)
    requires close <= |chars| && CloseQuote(chars, close, ansi).Some?
    ensures Read(Reading(stack, if ansi then Ansi else Single), chars[close..CloseQuote(chars, close, ansi).value + 1])
         == Reading(stack, Bare)
    decreases |chars| - close
  {
    var r := Reading(stack, if ansi then Ansi else Single);
    var end := CloseQuote(chars, close, ansi).value + 1;
    ReadSlice(r, chars, close, end);
    hide Read;
    if chars[close] == '\'' {
      assert chars[close + 1..end] == "";
      ReadNone(Reading(stack, Bare));
    } else if ansi && chars[close] == '\\' {
      ReadSlice(Next(r, chars[close]), chars, close + 1, end);
      ReadQuote(chars, close + 2, ansi, stack);
    } else {
      ReadQuote(chars, close + 1, ansi, stack);
    }
  }

  lemma {:induction false} CopyOne(chars: string, i: nat, stack: seq<Ctx>, groups: nat)
    requires i < |chars| && Between(chars, i, stack) && chars[i] != '\\'
    requires chars[i] != '\'' || Last(stack) == Some(Double)
    requires NextAct(chars, i, stack, groups).Copy? && NextAct(chars, i, stack, groups).n == 1
    ensures var a := NextAct(chars, i, stack, groups);
            && Next(Reading(stack, ModeAt(chars, i)), chars[i]) == Reading(a.stack, ModeAt(chars, i + 1))
            && Between(chars, i + 1, a.stack)
  {
    hide CloseQuote, IsSpace;
  }

  lemma {:induction false} CopyTwo(chars: string, i: nat, stack: seq<Ctx>, groups: nat)
    requires i < |chars| && Between(chars, i, stack) && chars[i] != '\\'
    requires chars[i] != '\'' || Last(stack) == Some(Double)
    requires NextAct(chars, i, stack, groups).Copy? && NextAct(chars, i, stack, groups).n != 1
    ensures var a := NextAct(chars, i, stack, groups);
            && a.n == 2 && i + 2 <= |chars|
            && Next(Next(Reading(stack, ModeAt(chars, i)), chars[i]), chars[i + 1]) == Reading(a.stack, ModeAt(chars, i + 2))
            && Between(chars, i + 2, a.stack)
  {
    hide CloseQuote, IsSpace;
  }

  lemma {:induction false} CopyPair(chars: string, i: nat, stack: seq<Ctx>, groups: nat)
    requires i < |chars| && Between(chars, i, stack) && chars[i] == '\\'
    requires NextAct(chars, i, stack, groups).Copy?
    ensures NextAct(chars, i, stack, groups) == Copy(2, stack, groups, false) && i + 2 <= |chars|
    ensures Next(Next(Reading(stack, ModeAt(chars, i)), chars[i]), chars[i + 1]) == Reading(stack, ModeAt(chars, i + 2))
    ensures Between(chars, i + 2, stack)
  {
    hide CloseQuote, IsSpace, Unquoted, InDouble;
    assert BackslashRun(chars, i + 1) == 1 + BackslashRun(chars, i);
    assert chars[i + 1] == '\\' ==> BackslashRun(chars, i + 2) == 2 + BackslashRun(chars, i);
  }

  lemma {:induction false} CopyQuote(chars: string, i: nat, stack: seq<Ctx>, groups: nat)
    requires i < |chars| && Between(chars, i, stack) && chars[i] == '\'' && Last(stack) != Some(Double)
    requires NextAct(chars, i, stack, groups).Copy?
    ensures var a := NextAct(chars, i, stack, groups);
            && i + a.n <= |chars|
            && Read(Reading(stack, ModeAt(chars, i)), chars[i..i + a.n]) == Reading(a.stack, ModeAt(chars, i + a.n))
            && Between(chars, i + a.n, a.stack)
  {
    hide IsSpace, Unquoted, InDouble, CloseQuote, BackslashRun;
    var a := NextAct(chars, i, stack, groups);
    ReadSlice(Reading(stack, ModeAt(chars, i)), chars, i, i + a.n);
    ReadQuote(chars, i + 1, IsAnsi(chars, i), stack);
    QuoteRun(chars, i + a.n);
  }

  lemma {:induction false} QuoteRun(chars: string, i: nat)
    requires 0 < i <= |chars| && chars[i - 1] == '\''
    ensures BackslashRun(chars, i) == 0 && !DollarAt(chars, i)
  {
  }

  // One round that copies reads what it copies, and leaves the nesting it says.
  lemma {:induction false} CopyReads(chars: string, i: nat, stack: seq<Ctx>, groups: nat)
    requires i < |chars| && Between(chars, i, stack) && NextAct(chars, i, stack, groups).Copy?
    ensures var a := NextAct(chars, i, stack, groups);
            && i + a.n <= |chars|
            && Read(Reading(stack, ModeAt(chars, i)), chars[i..i + a.n]) == Reading(a.stack, ModeAt(chars, i + a.n))
            && Between(chars, i + a.n, a.stack)
  {
    hide Read, Next, NextAct, BackslashRun, DollarAt;
    var r := Reading(stack, ModeAt(chars, i));
    if chars[i] == '\\' {
      CopyPair(chars, i, stack, groups);
      ReadTwo(r, chars, i);
    } else if chars[i] == '\'' && Last(stack) != Some(Double) {
      CopyQuote(chars, i, stack, groups);
    } else if NextAct(chars, i, stack, groups).n == 1 {
      CopyOne(chars, i, stack, groups);
      assert chars[i..i + 1] == [chars[i]];
      ReadOne(r, chars[i]);
    } else {
      CopyTwo(chars, i, stack, groups);
      ReadTwo(r, chars, i);
    }
  }
}
