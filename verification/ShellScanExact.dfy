// The scan finds exactly the pieces and flags that the characters say, and refuses exactly the
// commands that cannot be scanned.
module ShellScanExact {
  import opened Text
  import opened ShellScan
  import opened ShellReading
  import opened ShellPieces
  import opened ShellCuts

  // ----- reading on -----

  lemma {:induction false} ReadAtRun(chars: string, i: nat, n: nat)
    requires i + n <= |chars|
    ensures ReadAt(chars, i + n) == Read(ReadAt(chars, i), chars[i..i + n])
  {
    hide Read, Escapes;
    assert chars[..i + n] == chars[..i] + chars[i..i + n];
    ReadConcat(OPEN, chars[..i], chars[i..i + n]);
  }

  lemma {:induction false} ReadAtNext(chars: string, i: nat)
    requires i < |chars|
    ensures ReadAt(chars, i + 1) == Next(ReadAt(chars, i), chars[i])
  {
    hide Read, Escapes, Next, ReadAt;
    assert chars[i..i + 1] == [chars[i]];
    ReadAtRun(chars, i, 1);
    ReadOne(ReadAt(chars, i), chars[i]);
  }

  // ----- positions where nothing happens -----

  predicate Quiet(chars: string, i: nat) {
    && i < |chars|
    && CutAt(chars, i) == NoSep && !Bad(chars, i)
    && Groups(chars, i + 1) == Groups(chars, i)
    && !(Top(chars, i) && OneOf(chars, i, " \t"))
    && !(Top(chars, i) && (Stands(chars, i, "&&") || Stands(chars, i, "||")))
  }

  predicate Shut(chars: string, i: nat) {
    i < |chars| && (!Free(ReadAt(chars, i)) || (i > 0 && chars[i - 1] == '$' && chars[i] == '{'))
  }

  lemma {:induction false} StandsOne(chars: string, i: nat, c: char)
    ensures Stands(chars, i, [c]) <==> i < |chars| && chars[i] == c
  {
    if i < |chars| {
      assert chars[i..i + 1] == [chars[i]];
    }
  }

  lemma {:induction false} StandsTwo(chars: string, i: nat, a: char, b: char)
    ensures Stands(chars, i, [a, b]) <==> i + 1 < |chars| && chars[i] == a && chars[i + 1] == b
  {
    if i + 1 < |chars| {
      assert chars[i..i + 2] == [chars[i], chars[i + 1]];
    }
  }

  lemma {:induction false} BraceChars(chars: string, i: nat)
    ensures Stands(chars, i, "{") <==> i < |chars| && chars[i] == '{'
    ensures Stands(chars, i, "}") <==> i < |chars| && chars[i] == '}'
    ensures Stands(chars, i, "#") <==> i < |chars| && chars[i] == '#'
    ensures Stands(chars, i, ")") <==> i < |chars| && chars[i] == ')'
  {
    StandsOne(chars, i, '{');
    StandsOne(chars, i, '}');
    StandsOne(chars, i, '#');
    StandsOne(chars, i, ')');
  }

  lemma {:induction false} DoubleChars(chars: string, i: nat)
    ensures Stands(chars, i, "&&") <==> i + 1 < |chars| && chars[i] == '&' && chars[i + 1] == '&'
    ensures Stands(chars, i, "||") <==> i + 1 < |chars| && chars[i] == '|' && chars[i + 1] == '|'
    ensures Stands(chars, i, ";;") <==> i + 1 < |chars| && chars[i] == ';' && chars[i + 1] == ';'
    ensures Stands(chars, i, "|&") <==> i + 1 < |chars| && chars[i] == '|' && chars[i + 1] == '&'
  {
    StandsTwo(chars, i, '&', '&');
    StandsTwo(chars, i, '|', '|');
    StandsTwo(chars, i, ';', ';');
    StandsTwo(chars, i, '|', '&');
  }

  lemma {:induction false} SingleChars(chars: string, i: nat)
    ensures Stands(chars, i, ";") <==> i < |chars| && chars[i] == ';'
    ensures Stands(chars, i, "&") <==> i < |chars| && chars[i] == '&'
    ensures Stands(chars, i, "|") <==> i < |chars| && chars[i] == '|'
  {
    StandsOne(chars, i, ';');
    StandsOne(chars, i, '&');
    StandsOne(chars, i, '|');
  }

  lemma {:induction false} RedirectChars(chars: string, i: nat)
    requires i < |chars|
    ensures Redirects(chars, i) <==>
            || (chars[i] == '&' && (At(chars, i + 1) == Some('>') || Before(chars, i) == Some('>') || Before(chars, i) == Some('<')))
            || (chars[i] == '|' && Before(chars, i) == Some('>'))
  {
    StandsTwo(chars, i, '&', '>');
    if i > 0 {
      StandsTwo(chars, i - 1, '>', '&');
      StandsTwo(chars, i - 1, '<', '&');
      StandsTwo(chars, i - 1, '>', '|');
    }
    hide Stands;
  }

  predicate IsMark(c: char) {
    c == ';' || c == '&' || c == '|'
  }

  lemma {:induction false} NoOperator(chars: string, i: nat)
    requires i < |chars| && !IsMark(chars[i])
    ensures OperatorAt(chars, i) == NoSep
    ensures !Stands(chars, i, "&&") && !Stands(chars, i, "||") && !Stands(chars, i, ";;") && !Stands(chars, i, "|&")
  {
    DoubleChars(chars, i);
    SingleChars(chars, i);
    hide Stands, Redirects;
  }

  lemma {:induction false} NotTopIsQuiet(chars: string, i: nat)
    requires i < |chars| && !Free(ReadAt(chars, i))
    ensures Quiet(chars, i)
  {
    hide Stands, Begins, OperatorAt, ReadAt;
  }

  lemma {:induction false} BraceIsQuiet(chars: string, i: nat)
    requires 0 < i < |chars| && chars[i - 1] == '$' && chars[i] == '{'
    ensures Quiet(chars, i)
  {
    BraceChars(chars, i);
    NoOperator(chars, i);
    assert !IsSpace('$');
    hide Level, Stands, OperatorAt, Begins, IsSpace, ReadAt, Top, Free;
  }

  lemma {:induction false} ShutIsQuiet(chars: string, i: nat)
    requires Shut(chars, i)
    ensures Quiet(chars, i)
  {
    hide Quiet, ReadAt, Free;
    if Free(ReadAt(chars, i)) {
      BraceIsQuiet(chars, i);
    } else {
      NotTopIsQuiet(chars, i);
    }
  }

  // ----- the characters a round copies behind its first -----

  lemma {:induction false} QuotedInside(chars: string, close: nat, ansi: bool, stack: seq<Ctx>, j: nat)
    requires CloseQuote(chars, close, ansi).Some? && close <= j <= CloseQuote(chars, close, ansi).value
    ensures !Free(Read(Reading(stack, if ansi then Ansi else Single), chars[close..j]))
    decreases |chars| - close
  {
    var r := Reading(stack, if ansi then Ansi else Single);
    if j == close {
      assert chars[close..j] == "";
    } else {
      ReadSlice(r, chars, close, j);
      hide Read;
      if ansi && chars[close] == '\\' {
        if j == close + 1 {
          assert chars[close + 1..j] == "";
          ReadNone(Next(r, chars[close]));
        } else {
          ReadSlice(Next(r, chars[close]), chars, close + 1, j);
          QuotedInside(chars, close + 2, ansi, stack, j);
        }
      } else {
        QuotedInside(chars, close + 1, ansi, stack, j);
      }
    }
  }

  // A quote that never closes is still open at the end.
  lemma {:induction false} QuotedToEnd(chars: string, close: nat, ansi: bool, stack: seq<Ctx>)
    requires close <= |chars| && CloseQuote(chars, close, ansi).None?
    ensures !Free(Read(Reading(stack, if ansi then Ansi else Single), chars[close..]))
    decreases |chars| - close
  {
    var r := Reading(stack, if ansi then Ansi else Single);
    if close < |chars| {
      ReadSlice(r, chars, close, |chars|);
      hide Read;
      if ansi && chars[close] == '\\' {
        if close + 1 == |chars| {
          assert chars[close + 1..] == "";
          ReadNone(Next(r, chars[close]));
        } else {
          ReadSlice(Next(r, chars[close]), chars, close + 1, |chars|);
          QuotedToEnd(chars, close + 2, ansi, stack);
        }
      } else {
        QuotedToEnd(chars, close + 1, ansi, stack);
      }
    }
  }

  // The scan stands at `i`, between two rounds, as the reader of the command does.
  predicate ReadsTo(chars: string, i: nat, stack: seq<Ctx>) {
    && Between(chars, i, stack) && ReadAt(chars, i) == Reading(stack, ModeAt(chars, i))
  }

  lemma {:induction false} QuoteOpens(chars: string, i: nat, stack: seq<Ctx>)
    requires i < |chars| && ReadsTo(chars, i, stack) && chars[i] == '\'' && Last(stack) != Some(Double)
    ensures ReadAt(chars, i + 1) == Reading(stack, if IsAnsi(chars, i) then Ansi else Single)
  {
    ReadAtNext(chars, i);
    hide ReadAt, BackslashRun;
  }

  lemma {:induction false} QuoteShut(chars: string, i: nat, stack: seq<Ctx>, j: nat)
    requires i < |chars| && ReadsTo(chars, i, stack) && chars[i] == '\'' && Last(stack) != Some(Double)
    requires var close := CloseQuote(chars, i + 1, IsAnsi(chars, i)); close.Some? && i < j <= close.value
    ensures Shut(chars, j)
  {
    hide ReadAt, CloseQuote, IsAnsi, Read, Free, ReadsTo;
    QuoteOpens(chars, i, stack);
    QuotedInside(chars, i + 1, IsAnsi(chars, i), stack, j);
    ReadAtRun(chars, i + 1, j - (i + 1));
  }

  lemma {:induction false} PairShut(chars: string, i: nat, stack: seq<Ctx>, groups: nat)
    requires i < |chars| && ReadsTo(chars, i, stack)
    requires chars[i] != '\'' || Last(stack) == Some(Double)
    requires NextAct(chars, i, stack, groups).Copy? && NextAct(chars, i, stack, groups).n != 1
    ensures NextAct(chars, i, stack, groups).n == 2 && i + 2 <= |chars| && Shut(chars, i + 1)
  {
    ReadAtNext(chars, i);
    hide ReadAt, CloseQuote, IsSpace, BackslashRun;
  }

  lemma {:induction false} CopyShut(chars: string, i: nat, stack: seq<Ctx>, groups: nat, j: nat)
    requires i < |chars| && ReadsTo(chars, i, stack) && NextAct(chars, i, stack, groups).Copy?
    requires i < j < i + NextAct(chars, i, stack, groups).n
    ensures Shut(chars, j)
  {
    if chars[i] == '\'' && Last(stack) != Some(Double) {
      QuoteShut(chars, i, stack, j);
    } else {
      PairShut(chars, i, stack, groups);
    }
  }

  // ----- quiet runs -----

  ghost predicate QuietRun(chars: string, i: nat, j: nat) {
    i <= j <= |chars| && forall k :: i <= k < j ==> Quiet(chars, k)
  }

  lemma {:induction false} QuietCuts(chars: string, i: nat, j: nat)
    requires QuietRun(chars, i, j) && Begins(chars, i)
    ensures PiecesUpTo(chars, j) == PiecesUpTo(chars, i) && Groups(chars, j) == Groups(chars, i) && Begins(chars, j)
    decreases j - i
  {
    hide CutAt, Bad, Top, Stands, Groups;
    if i < j {
      QuietCuts(chars, i, j - 1);
      assert Quiet(chars, j - 1);
    }
  }

  lemma {:induction false} QuietNoFlag(chars: string, start: nat, i: nat)
    requires Quiet(chars, i)
    ensures !LooksLikeFlag(chars, start, i + 1)
  {
    hide CutAt, Bad, Top, Stands, Groups, Trim, Part;
  }

  lemma {:induction false} NoFlagMore(chars: string, start: nat, base: nat, i: nat)
    requires !LooksLikeFlag(chars, start, i + 1)
    ensures FlagsUpTo(chars, start, base, i + 1) == FlagsUpTo(chars, start, base, i)
    ensures FlagsEnded(chars, start, i + 1) == FlagsEnded(chars, start, i)
  {
    hide LooksLikeFlag, LoneDashes;
    if i < start {
      assert !FlagsEnded(chars, start, i + 1) && !FlagsEnded(chars, start, i);
    } else {
      assert FlagsUpTo(chars, start, base, i) + [] == FlagsUpTo(chars, start, base, i);
      if FlagsEnded(chars, start, i) {
        var k :| start < k <= i && LooksLikeFlag(chars, start, k) && LoneDashes(chars, k);
        assert start < k <= i + 1;
      }
    }
  }

  lemma {:induction false} QuietFlags(chars: string, start: nat, base: nat, i: nat, j: nat)
    requires QuietRun(chars, i, j)
    ensures FlagsUpTo(chars, start, base, j) == FlagsUpTo(chars, start, base, i)
    ensures FlagsEnded(chars, start, j) == FlagsEnded(chars, start, i)
    decreases j - i
  {
    hide FlagsUpTo, FlagsEnded, LooksLikeFlag, Quiet;
    if i < j {
      QuietFlags(chars, start, base, i, j - 1);
      QuietNoFlag(chars, start, j - 1);
      NoFlagMore(chars, start, base, j - 1);
    }
  }

  // ----- what a round does, and what stands there -----

  predicate Agrees(chars: string, i: nat, a: Act) {
    i < |chars| &&
    match a
    case Reject => Bad(chars, i)
    case Copy(n, stack, groups, plain) =>
      && CutAt(chars, i) == NoSep && !Bad(chars, i) && Groups(chars, i + 1) == groups && Begins(chars, i + 1)
      && ((plain && IsGap(chars[i])) <==> (Top(chars, i) && OneOf(chars, i, " \t")))
    case Cut(sep, n) => CutAt(chars, i) == sep && sep != Pipe && |Mark(sep)| == n && !Bad(chars, i) && Top(chars, i)
    case Bar => CutAt(chars, i) == Pipe && !Bad(chars, i) && Top(chars, i)
  }

  // The scan's own nesting is the reader's.
  predicate StandsAt(chars: string, i: nat, stack: seq<Ctx>, groups: nat) {
    ReadsTo(chars, i, stack) && Groups(chars, i) == groups && Begins(chars, i)
  }

  lemma {:induction false} WhereItStands(chars: string, i: nat, stack: seq<Ctx>, groups: nat)
    requires i < |chars| && StandsAt(chars, i, stack, groups)
    ensures Level(ReadAt(chars, i)) <==> stack == []
    ensures Free(ReadAt(chars, i)) <==> Last(stack) != Some(Double)
    ensures ReadAt(chars, i).stack == stack
    ensures Top(chars, i) <==> stack == [] && groups == 0
    ensures Begins(chars, i) && Groups(chars, i) == groups
  {
    hide ReadAt, Groups, DollarAt, Begins;
  }

  lemma {:induction false} GroupsNext(chars: string, i: nat)
    requires i < |chars|
    ensures Groups(chars, i + 1) ==
            if !Level(ReadAt(chars, i)) then Groups(chars, i)
            else if BraceOpens(chars, i) then Groups(chars, i) + 1
            else if BraceCloses(chars, i) && Groups(chars, i) > 0 then Groups(chars, i) - 1
            else Groups(chars, i)
  {
    hide BraceOpens, BraceCloses, ReadAt, Level;
  }

  lemma {:induction false} BeginsNext(chars: string, i: nat)
    requires i < |chars|
    ensures Begins(chars, i + 1) <==>
            !(Begins(chars, i) && Top(chars, i) && (Stands(chars, i, "&&") || Stands(chars, i, "||")))
  {
    hide Top, Stands;
  }

  lemma {:induction false} Blanks(chars: string, i: nat)
    requires i < |chars|
    ensures OneOf(chars, i, " \t") <==> IsGap(chars[i])
    ensures OneOf(chars, i, ";") <==> chars[i] == ';'
    ensures OneOf(chars, i, ";&|(") <==> IsOperator(chars[i]) || chars[i] == '('
    ensures OneOf(chars, i, ";&|)") <==> IsOperator(chars[i]) || chars[i] == ')'
  {
    assert " \t" == [' ', '\t'] && ";" == [';'] && ";&|(" == [';', '&', '|', '('] && ";&|)" == [';', '&', '|', ')'];
  }

  lemma {:induction false} BracesAre(chars: string, i: nat, groups: nat)
    requires i < |chars|
    ensures BraceOpens(chars, i) <==> OpensGroup(chars[i], At(chars, i + 1), Before(chars, i))
    ensures BraceCloses(chars, i) && groups > 0 <==> ClosesGroup(chars[i], At(chars, i + 1), Before(chars, i), groups)
    ensures BraceOpens(chars, i) ==> chars[i] == '{'
    ensures BraceCloses(chars, i) ==> chars[i] == '}'
  {
    BraceChars(chars, i);
    if i > 0 {
      Blanks(chars, i - 1);
    }
    if i + 1 < |chars| {
      Blanks(chars, i + 1);
    }
    hide Stands, OneOf, IsSpace;
  }

  lemma {:induction false} CommentIs(chars: string, i: nat)
    requires i < |chars|
    ensures Comment(chars, i) <==> chars[i] == '#' && Free(ReadAt(chars, i)) && IsWordStart(Before(chars, i))
  {
    BraceChars(chars, i);
    if i > 0 {
      Blanks(chars, i - 1);
    }
    hide Stands, OneOf, IsSpace, ReadAt, Free;
  }

  lemma {:induction false} ParenIs(chars: string, i: nat)
    requires i < |chars|
    ensures StrayParen(chars, i) <==> chars[i] == ')' && Free(ReadAt(chars, i)) && Last(ReadAt(chars, i).stack) != Some(Paren)
  {
    BraceChars(chars, i);
    hide Stands, ReadAt, Free;
  }

  // A backslash, or a quote outside double quotes.
  lemma {:induction false} QuoteAgrees(chars: string, i: nat, stack: seq<Ctx>, groups: nat)
    requires i < |chars| && StandsAt(chars, i, stack, groups)
    requires chars[i] == '\\' || (chars[i] == '\'' && Last(stack) != Some(Double))
    requires NextAct(chars, i, stack, groups).Copy?
    ensures Agrees(chars, i, NextAct(chars, i, stack, groups))
  {
    WhereItStands(chars, i, stack, groups);
    assert NextAct(chars, i, stack, groups).groups == groups && !NextAct(chars, i, stack, groups).plain;
    hide StandsAt, NextAct, ReadAt, Groups, Begins, IsSpace, Level, Free, Stands, OperatorAt, Top, BraceOpens, BraceCloses, Comment, StrayParen;
    GroupsNext(chars, i);
    BeginsNext(chars, i);
    BracesAre(chars, i, groups);
    CommentIs(chars, i);
    ParenIs(chars, i);
    NoOperator(chars, i);
    Blanks(chars, i);
  }

  // Anything inside double quotes.
  lemma {:induction false} DoubleAgrees(chars: string, i: nat, stack: seq<Ctx>, groups: nat)
    requires i < |chars| && StandsAt(chars, i, stack, groups)
    requires chars[i] != '\\' && Last(stack) == Some(Double)
    ensures Agrees(chars, i, NextAct(chars, i, stack, groups))
  {
    WhereItStands(chars, i, stack, groups);
    NotTopIsQuiet(chars, i);
    var a := NextAct(chars, i, stack, groups);
    assert a.Copy? && a.groups == groups && !a.plain;
    hide StandsAt, NextAct, ReadAt, Groups, Begins, IsSpace, Level, Free, Stands, Top, CutAt, Bad;
    BeginsNext(chars, i);
    Blanks(chars, i);
  }

  // Outside double quotes, but inside a nested command.
  lemma {:induction false} NestedAgrees(chars: string, i: nat, stack: seq<Ctx>, groups: nat)
    requires i < |chars| && StandsAt(chars, i, stack, groups) && stack != [] && Last(stack) != Some(Double)
    ensures Agrees(chars, i, Unquoted(chars, i, stack, groups))
  {
    WhereItStands(chars, i, stack, groups);
    GroupsNext(chars, i);
    BeginsNext(chars, i);
    CommentIs(chars, i);
    ParenIs(chars, i);
    Blanks(chars, i);
    hide StandsAt, ReadAt, Groups, Begins, IsSpace, Level, Free, Stands, Top, Comment, StrayParen, OneOf, IsWordStart;
  }

  // A character with a meaning of its own, outside every nested command.
  lemma {:induction false} OpeningAgrees(chars: string, i: nat, groups: nat)
    requires i < |chars| && StandsAt(chars, i, [], groups)
    requires chars[i] == '"' || chars[i] == '(' || chars[i] == ')' || chars[i] == '`' || chars[i] == '$' || chars[i] == '#'
    ensures Agrees(chars, i, Unquoted(chars, i, [], groups))
  {
    WhereItStands(chars, i, [], groups);
    hide StandsAt, ReadAt, Groups, Begins, IsSpace, Level, Free, Stands, Top, Comment, StrayParen, OneOf, IsWordStart;
    hide BraceOpens, BraceCloses, OperatorAt;
    GroupsNext(chars, i);
    BeginsNext(chars, i);
    BracesAre(chars, i, groups);
    CommentIs(chars, i);
    ParenIs(chars, i);
    NoOperator(chars, i);
    Blanks(chars, i);
  }

  // In a brace group, or at its braces.
  lemma {:induction false} GroupAgrees(chars: string, i: nat, groups: nat)
    requires i < |chars| && StandsAt(chars, i, [], groups)
    requires chars[i] != ')' && chars[i] != '#'
    requires groups > 0 || BraceOpens(chars, i)
    ensures Agrees(chars, i, Grouped(chars[i], At(chars, i + 1), Before(chars, i), groups))
  {
    WhereItStands(chars, i, [], groups);
    hide StandsAt, ReadAt, Groups, Begins, IsSpace, Level, Free, Stands, Top, Comment, StrayParen, OneOf;
    hide BraceOpens, BraceCloses, OperatorAt, OpensGroup, ClosesGroup;
    GroupsNext(chars, i);
    BeginsNext(chars, i);
    BracesAre(chars, i, groups);
    CommentIs(chars, i);
    ParenIs(chars, i);
    Blanks(chars, i);
    if BraceOpens(chars, i) {
      NoOperator(chars, i);
    }
  }

  lemma {:induction false} UnknownIs(chars: string, i: nat)
    requires i < |chars| && Top(chars, i) && Begins(chars, i)
    ensures Unknown(chars, i) <==>
            || (chars[i] == ';' && At(chars, i + 1) == Some(';'))
            || (chars[i] == '|' && At(chars, i + 1) == Some('&'))
  {
    DoubleChars(chars, i);
    hide Stands, Top, Begins;
  }

  lemma {:induction false} OperatorIs(chars: string, i: nat)
    requires i < |chars|
    ensures OperatorAt(chars, i) ==
            if chars[i] == '&' && At(chars, i + 1) == Some('&') then And
            else if chars[i] == '|' && At(chars, i + 1) == Some('|') then Or
            else if Redirects(chars, i) then NoSep
            else if chars[i] == ';' then Semi
            else if chars[i] == '&' then Background
            else if chars[i] == '|' then Pipe
            else NoSep
  {
    DoubleChars(chars, i);
    SingleChars(chars, i);
    hide Stands, Redirects;
  }

  lemma {:induction false} PlainAgrees(chars: string, i: nat)
    requires i < |chars| && StandsAt(chars, i, [], 0) && !IsMark(chars[i])
    requires chars[i] != ')' && chars[i] != '#' && !BraceOpens(chars, i)
    ensures Agrees(chars, i, Copy(1, [], 0, true))
  {
    WhereItStands(chars, i, [], 0);
    hide StandsAt, ReadAt, Groups, Begins, IsSpace, Level, Free, Stands, Top, Comment, StrayParen, OneOf, BraceOpens, BraceCloses,
         OperatorAt;
    GroupsNext(chars, i);
    BeginsNext(chars, i);
    NoOperator(chars, i);
    CommentIs(chars, i);
    ParenIs(chars, i);
    Blanks(chars, i);
  }

  // An operator that cuts nothing, outside every quote, nested command and group.
  lemma {:induction false} MarkIsQuiet(chars: string, i: nat)
    requires i < |chars| && StandsAt(chars, i, [], 0) && IsMark(chars[i])
    ensures Groups(chars, i + 1) == 0 && CutAt(chars, i) == OperatorAt(chars, i) && Top(chars, i) && !OneOf(chars, i, " \t")
    ensures Bad(chars, i) <==> Unknown(chars, i)
    ensures Begins(chars, i + 1) <==> !Stands(chars, i, "&&") && !Stands(chars, i, "||")
  {
    WhereItStands(chars, i, [], 0);
    hide StandsAt, ReadAt, Groups, Begins, IsSpace, Level, Free, Stands, Top, Comment, StrayParen, OneOf, BraceOpens, BraceCloses,
         OperatorAt, Unknown;
    GroupsNext(chars, i);
    BeginsNext(chars, i);
    BracesAre(chars, i, 0);
    CommentIs(chars, i);
    ParenIs(chars, i);
    Blanks(chars, i);
  }

  lemma {:induction false} MarkAgrees(chars: string, i: nat)
    requires i < |chars| && StandsAt(chars, i, [], 0) && IsMark(chars[i])
    ensures Agrees(chars, i, TopLevel(chars[i], At(chars, i + 1), Before(chars, i)))
  {
    WhereItStands(chars, i, [], 0);
    MarkIsQuiet(chars, i);
    assert !IsGap(chars[i]);
    hide StandsAt, ReadAt, Groups, Begins, IsSpace, Level, Free, Stands, Top, Comment, StrayParen, OneOf, BraceOpens, BraceCloses,
         OperatorAt, Unknown, Bad, Redirects, CutAt, IsGap;
    OperatorIs(chars, i);
    RedirectChars(chars, i);
    UnknownIs(chars, i);
    DoubleChars(chars, i);
  }

  // Outside every quote, nested command and group: the operators.
  lemma {:induction false} TopAgrees(chars: string, i: nat)
    requires i < |chars| && StandsAt(chars, i, [], 0)
    requires chars[i] != ')' && chars[i] != '#' && !BraceOpens(chars, i)
    ensures Agrees(chars, i, TopLevel(chars[i], At(chars, i + 1), Before(chars, i)))
  {
    hide Agrees, StandsAt, BraceOpens;
    if IsMark(chars[i]) {
      MarkAgrees(chars, i);
    } else {
      PlainAgrees(chars, i);
    }
  }

  lemma {:induction false} OutsideAgrees(chars: string, i: nat, groups: nat)
    requires i < |chars| && StandsAt(chars, i, [], groups)
    ensures Agrees(chars, i, Unquoted(chars, i, [], groups))
  {
    var c := chars[i];
    if c == '"' || c == '(' || c == ')' || c == '`' || c == '$' || c == '#' {
      OpeningAgrees(chars, i, groups);
    } else {
      BracesAre(chars, i, groups);
      hide Agrees, StandsAt, TopLevel, BraceOpens, BraceCloses, OpensGroup, ClosesGroup;
      if groups > 0 || BraceOpens(chars, i) {
        GroupAgrees(chars, i, groups);
      } else {
        TopAgrees(chars, i);
      }
    }
  }

  lemma {:induction false} NestedOrOutside(chars: string, i: nat, stack: seq<Ctx>, groups: nat)
    requires i < |chars| && StandsAt(chars, i, stack, groups)
    requires chars[i] != '\\' && (chars[i] != '\'' || Last(stack) == Some(Double))
    ensures Agrees(chars, i, NextAct(chars, i, stack, groups))
  {
    hide Agrees, StandsAt, Unquoted, InDouble, IsAnsi, CloseQuote;
    if Last(stack) == Some(Double) {
      DoubleAgrees(chars, i, stack, groups);
    } else if stack != [] {
      NestedAgrees(chars, i, stack, groups);
    } else {
      OutsideAgrees(chars, i, groups);
    }
  }

  // A backslash at the end, or a quote that never closes.
  lemma {:induction false} QuoteRefused(chars: string, i: nat, stack: seq<Ctx>, groups: nat)
    requires i < |chars| && StandsAt(chars, i, stack, groups)
    requires chars[i] == '\\' || (chars[i] == '\'' && Last(stack) != Some(Double))
    requires NextAct(chars, i, stack, groups).Reject?
    ensures !Level(ReadAt(chars, |chars|))
  {
    if chars[i] == '\\' {
      ReadAtNext(chars, i);
      hide ReadAt, Groups, Begins;
    } else {
      var ansi := IsAnsi(chars, i);
      QuoteOpens(chars, i, stack);
      hide ReadAt, CloseQuote, IsAnsi, Read, Begins, Groups;
      QuotedToEnd(chars, i + 1, ansi, stack);
      ReadAtRun(chars, i + 1, |chars| - (i + 1));
      assert chars[i + 1..|chars|] == chars[i + 1..];
    }
  }

  lemma {:induction false} ActAgrees(chars: string, i: nat, stack: seq<Ctx>, groups: nat)
    requires i < |chars| && StandsAt(chars, i, stack, groups)
    ensures var a := NextAct(chars, i, stack, groups);
            if a.Reject? then Bad(chars, i) || !Level(ReadAt(chars, |chars|)) else Agrees(chars, i, a)
  {
    var a := NextAct(chars, i, stack, groups);
    if chars[i] == '\\' || (chars[i] == '\'' && Last(stack) != Some(Double)) {
      assert a.Reject? || a.Copy?;
      hide Agrees, StandsAt, NextAct, Level, ReadAt, Bad;
      if a.Reject? {
        QuoteRefused(chars, i, stack, groups);
      } else {
        QuoteAgrees(chars, i, stack, groups);
      }
    } else {
      NestedOrOutside(chars, i, stack, groups);
      hide StandsAt, NextAct, Level, ReadAt, Bad, CutAt, Groups, Begins, Top;
    }
  }

  // ----- the scan so far -----

  // The scanner's fields at position `i`, read off the characters.
  function ScanAt(chars: string, i: nat): Scan {
    var pieces := PiecesUpTo(chars, i);
    var start := RestStart(pieces);
    var done := Collect(chars, pieces);
    Scan(done.segments, done.stages, Part(chars, start, i), FlagsUpTo(chars, start, start, i), FlagsEnded(chars, start, i))
  }

  predicate GoodTo(chars: string, i: nat) {
    forall k :: 0 <= k < i && k < |chars| ==> !Bad(chars, k)
  }

  predicate InStep(chars: string, p: Pos) {
    && p.i <= |chars| && StandsAt(chars, p.i, p.stack, p.groups) && p.sc == ScanAt(chars, p.i)
    && RestStart(PiecesUpTo(chars, p.i)) <= p.i
    && NoneBlank(chars, PiecesUpTo(chars, p.i)) && GoodTo(chars, p.i)
  }

  // Behind position `i`, a word starts like a flag.
  predicate FlagWord(chars: string, i: nat) {
    i + 2 < |chars| && chars[i + 1] == '-' && (chars[i + 2] == '-' || IsAlpha(chars[i + 2]))
  }

  lemma {:induction false} FlagWordIs(chars: string, i: nat)
    ensures FlagWord(chars, i) <==> Stands(chars, i + 1, "--") || (Stands(chars, i + 1, "-") && Letter(chars, i + 2))
  {
    StandsTwo(chars, i + 1, '-', '-');
    StandsOne(chars, i + 1, '-');
    hide Stands;
  }

  lemma {:induction false} LooksIs(chars: string, start: nat, i: nat)
    requires start <= i
    ensures LooksLikeFlag(chars, start, i + 1) <==>
            (Top(chars, i) && OneOf(chars, i, " \t")) && FlagWord(chars, i) && Trim(Part(chars, start, i)) != ""
  {
    FlagWordIs(chars, i);
    hide Top, OneOf, Stands, Letter, Trim, Part, FlagWord;
  }

  lemma {:induction false} HereIs(chars: string, i: nat, sc: Scan)
    requires i < |chars|
    ensures FlagHere(chars, i, sc) <==> IsGap(chars[i]) && FlagWord(chars, i) && Trim(sc.current) != "" && !sc.optionsEnded
  {
    hide IsGap, Trim, IsAlpha;
  }

  lemma {:induction false} FlagHereIs(chars: string, i: nat, start: nat, plain: bool, sc: Scan)
    requires start <= i < |chars|
    requires sc.current == Part(chars, start, i) && (sc.optionsEnded <==> FlagsEnded(chars, start, i))
    requires (plain && IsGap(chars[i])) <==> (Top(chars, i) && OneOf(chars, i, " \t"))
    ensures (plain && FlagHere(chars, i, sc)) <==> FlagAt(chars, start, i + 1)
  {
    hide Top, OneOf, IsGap, Trim, Part, FlagsEnded, FlagHere, LooksLikeFlag, FlagWord;
    LooksIs(chars, start, i);
    HereIs(chars, i, sc);
  }

  lemma {:induction false} EndsIs(chars: string, i: nat)
    requires i + 1 < |chars| && chars[i + 1] == '-'
    ensures EndsOptions(chars, i) <==> LoneDashes(chars, i + 1)
  {
    StandsTwo(chars, i + 1, '-', '-');
    hide Stands, IsSpace;
  }

  lemma {:induction false} LooksAtDash(chars: string, start: nat, i: nat)
    requires LooksLikeFlag(chars, start, i + 1)
    ensures i + 1 < |chars| && chars[i + 1] == '-'
  {
    StandsTwo(chars, i + 1, '-', '-');
    StandsOne(chars, i + 1, '-');
    hide Top, OneOf, Stands, Trim, Part;
  }

  // One flag more, or none.
  lemma {:induction false} FlagsNext(chars: string, start: nat, i: nat)
    requires start <= i
    ensures FlagsUpTo(chars, start, start, i + 1) ==
            FlagsUpTo(chars, start, start, i) + if FlagAt(chars, start, i + 1) then [i + 1 - start] else []
    ensures FlagsEnded(chars, start, i + 1) <==>
            FlagsEnded(chars, start, i) || (FlagAt(chars, start, i + 1) && LoneDashes(chars, i + 1))
  {
    hide LooksLikeFlag, LoneDashes;
    if FlagsEnded(chars, start, i) {
      var k :| start < k <= i && LooksLikeFlag(chars, start, k) && LoneDashes(chars, k);
      assert start < k <= i + 1;
    }
    if FlagsEnded(chars, start, i + 1) && !FlagsEnded(chars, start, i) {
      var k :| start < k <= i + 1 && LooksLikeFlag(chars, start, k) && LoneDashes(chars, k);
      assert k == i + 1;
    }
  }

  lemma {:induction false} CopiedIs(chars: string, i: nat, n: nat, plain: bool, sc: Scan)
    requires i < |chars| && i + n <= |chars|
    ensures var copied, flag := Copied(chars, i, n, plain, sc), plain && FlagHere(chars, i, sc);
            && copied.segments == sc.segments && copied.stages == sc.stages && copied.current == sc.current + chars[i..i + n]
            && copied.flags == sc.flags + (if flag then [|sc.current| + 1] else [])
            && copied.optionsEnded == (if flag then EndsOptions(chars, i) else sc.optionsEnded)
  {
    hide FlagHere, EndsOptions;
    assert sc.flags + [] == sc.flags;
  }

  // The scanner's flags and `optionsEnded`, as the characters from `start` to `i` say.
  predicate FlagsAre(chars: string, start: nat, i: nat, sc: Scan) {
    sc.flags == FlagsUpTo(chars, start, start, i) && (sc.optionsEnded <==> FlagsEnded(chars, start, i))
  }

  lemma {:induction false} CopiedWithFlag(chars: string, i: nat, start: nat, plain: bool, n: nat, sc: Scan)
    requires start <= i < |chars| && i + n <= |chars| && |sc.current| == i - start && FlagsAre(chars, start, i, sc)
    requires plain && FlagHere(chars, i, sc) && FlagAt(chars, start, i + 1)
    ensures FlagsAre(chars, start, i + 1, Copied(chars, i, n, plain, sc))
  {
    hide *;
    FlagsOpen(chars, start, i, sc);
    FlagsNext(chars, start, i);
    CopiedIs(chars, i, n, plain, sc);
    FlagLooks(chars, start, i);
    LooksAtDash(chars, start, i);
    EndsIs(chars, i);
    var copied := Copied(chars, i, n, plain, sc);
    assert copied.flags == sc.flags + [i + 1 - start];
    FlagsClosed(chars, start, i + 1, copied);
  }

  lemma {:induction false} CopiedNoFlag(chars: string, i: nat, start: nat, plain: bool, n: nat, sc: Scan)
    requires start <= i < |chars| && i + n <= |chars| && FlagsAre(chars, start, i, sc)
    requires !(plain && FlagHere(chars, i, sc)) && !FlagAt(chars, start, i + 1)
    ensures FlagsAre(chars, start, i + 1, Copied(chars, i, n, plain, sc))
  {
    hide *;
    FlagsOpen(chars, start, i, sc);
    FlagsNext(chars, start, i);
    CopiedIs(chars, i, n, plain, sc);
    var copied := Copied(chars, i, n, plain, sc);
    assert copied.flags == sc.flags + [] == sc.flags;
    FlagsClosed(chars, start, i + 1, copied);
  }

  lemma {:induction false} CopiedFlags(chars: string, i: nat, start: nat, plain: bool, n: nat, sc: Scan)
    requires start <= i < |chars| && i + n <= |chars|
    requires sc.current == Part(chars, start, i) && FlagsAre(chars, start, i, sc)
    requires (plain && IsGap(chars[i])) <==> (Top(chars, i) && OneOf(chars, i, " \t"))
    ensures FlagsAre(chars, start, i + 1, Copied(chars, i, n, plain, sc))
  {
    assert |sc.current| == i - start;
    hide *;
    FlagsOpen(chars, start, i, sc);
    FlagHereIs(chars, i, start, plain, sc);
    if FlagAt(chars, start, i + 1) {
      CopiedWithFlag(chars, i, start, plain, n, sc);
    } else {
      CopiedNoFlag(chars, i, start, plain, n, sc);
    }
  }

  lemma {:induction false} FlagsOpen(chars: string, start: nat, i: nat, sc: Scan)
    requires FlagsAre(chars, start, i, sc)
    ensures sc.flags == FlagsUpTo(chars, start, start, i) && (sc.optionsEnded <==> FlagsEnded(chars, start, i))
  {
    hide FlagsUpTo, FlagsEnded;
  }

  lemma {:induction false} FlagsClosed(chars: string, start: nat, i: nat, sc: Scan)
    requires sc.flags == FlagsUpTo(chars, start, start, i) && (sc.optionsEnded <==> FlagsEnded(chars, start, i))
    ensures FlagsAre(chars, start, i, sc)
  {
    hide FlagsUpTo, FlagsEnded;
  }

  lemma {:induction false} FlagLooks(chars: string, start: nat, i: nat)
    requires FlagAt(chars, start, i + 1)
    ensures LooksLikeFlag(chars, start, i + 1) && !FlagsEnded(chars, start, i)
  {
    hide LooksLikeFlag, FlagsEnded;
  }

  lemma {:induction false} NoCutNext(chars: string, i: nat)
    requires CutAt(chars, i) == NoSep
    ensures PiecesUpTo(chars, i + 1) == PiecesUpTo(chars, i)
  {
    hide CutAt;
  }

  lemma {:induction false} PartGrows(chars: string, start: nat, i: nat, j: nat)
    requires start <= i <= j <= |chars|
    ensures Part(chars, start, i) + chars[i..j] == Part(chars, start, j)
  {
  }

  lemma {:induction false} CopyQuiet(chars: string, i: nat, stack: seq<Ctx>, groups: nat)
    requires i < |chars| && ReadsTo(chars, i, stack) && NextAct(chars, i, stack, groups).Copy?
    requires i + NextAct(chars, i, stack, groups).n <= |chars| && NextAct(chars, i, stack, groups).n > 0
    ensures QuietRun(chars, i + 1, i + NextAct(chars, i, stack, groups).n)
  {
    hide ReadsTo, NextAct, Quiet, Shut;
    var n := NextAct(chars, i, stack, groups).n;
    forall k | i + 1 <= k < i + n ensures Quiet(chars, k) {
      CopyShut(chars, i, stack, groups, k);
      ShutIsQuiet(chars, k);
    }
  }

  lemma {:induction false} CopyReadsTo(chars: string, i: nat, stack: seq<Ctx>, groups: nat)
    requires i < |chars| && ReadsTo(chars, i, stack) && NextAct(chars, i, stack, groups).Copy?
    ensures var a := NextAct(chars, i, stack, groups);
            1 <= a.n && i + a.n <= |chars| && ReadsTo(chars, i + a.n, a.stack)
  {
    hide NextAct, ReadAt, Read, Between, DollarAt;
    ShellReading.CopyReads(chars, i, stack, groups);
    ReadAtRun(chars, i, NextAct(chars, i, stack, groups).n);
  }

  lemma {:induction false} AgreesCopy(chars: string, i: nat, a: Act)
    requires a.Copy? && Agrees(chars, i, a)
    ensures i < |chars| && CutAt(chars, i) == NoSep && Groups(chars, i + 1) == a.groups && Begins(chars, i + 1)
  {
    hide CutAt, Bad, Groups, Begins, Top, OneOf, IsGap;
  }

  lemma {:induction false} CopyStands(chars: string, i: nat, stack: seq<Ctx>, groups: nat)
    requires i < |chars| && StandsAt(chars, i, stack, groups) && NextAct(chars, i, stack, groups).Copy?
    ensures var a := NextAct(chars, i, stack, groups);
            && 1 <= a.n && i + a.n <= |chars|
            && QuietRun(chars, i + 1, i + a.n) && Agrees(chars, i, a)
            && StandsAt(chars, i + a.n, a.stack, a.groups)
            && PiecesUpTo(chars, i + a.n) == PiecesUpTo(chars, i)
  {
    hide NextAct, ReadsTo, Groups, Begins, PiecesUpTo, QuietRun, Agrees, CutAt, Bad, Level, ReadAt;
    var a := NextAct(chars, i, stack, groups);
    ActAgrees(chars, i, stack, groups);
    AgreesCopy(chars, i, a);
    CopyReadsTo(chars, i, stack, groups);
    CopyQuiet(chars, i, stack, groups);
    NoCutNext(chars, i);
    QuietCuts(chars, i + 1, i + a.n);
  }

  lemma {:induction false} QuietGood(chars: string, i: nat, j: nat)
    requires GoodTo(chars, i) && i < |chars| && !Bad(chars, i) && QuietRun(chars, i + 1, j)
    ensures GoodTo(chars, j)
  {
    hide Bad, CutAt, Groups, Top, OneOf, Stands;
    forall k | 0 <= k < j && k < |chars| ensures !Bad(chars, k) {
      if k > i {
        assert Quiet(chars, k);
      }
    }
  }

  lemma {:induction false} CopyStep(chars: string, p: Pos)
    requires Ok(chars, p) && p.i < |chars| && NextAct(chars, p.i, p.stack, p.groups).Copy?
    requires p.i + NextAct(chars, p.i, p.stack, p.groups).n <= |chars|
    ensures var a := NextAct(chars, p.i, p.stack, p.groups);
            Step(chars, p) == Some(Pos(p.i + a.n, a.stack, a.groups, Copied(chars, p.i, a.n, a.plain, p.sc)))
  {
    hide NextAct, Copied, FlagsGrowing;
    ReadyFromGrowing(chars, p.i, p.stack, p.groups, p.sc);
  }

  // What the scanner holds, field by field.
  predicate Holds(chars: string, i: nat, sc: Scan) {
    var pieces := PiecesUpTo(chars, i);
    var start := RestStart(pieces);
    && start <= i && sc.current == Part(chars, start, i) && FlagsAre(chars, start, i, sc)
    && sc.segments == Collect(chars, pieces).segments && sc.stages == Collect(chars, pieces).stages
  }

  lemma {:induction false} HoldsIff(chars: string, i: nat, sc: Scan)
    requires RestStart(PiecesUpTo(chars, i)) <= i
    ensures Holds(chars, i, sc) <==> sc == ScanAt(chars, i)
  {
    hide PiecesUpTo, RestStart, Part, Collect, FlagsUpTo, FlagsEnded;
  }

  lemma {:induction false} CopyHolds(chars: string, i: nat, a: Act, sc: Scan)
    requires i < |chars| && a.Copy? && 1 <= a.n && i + a.n <= |chars| && Agrees(chars, i, a)
    requires QuietRun(chars, i + 1, i + a.n) && PiecesUpTo(chars, i + a.n) == PiecesUpTo(chars, i)
    requires Holds(chars, i, sc)
    ensures Holds(chars, i + a.n, Copied(chars, i, a.n, a.plain, sc))
  {
    var start := RestStart(PiecesUpTo(chars, i));
    hide Quiet, CutAt, Bad, Top, Begins, Groups, OneOf, FlagHere, FlagsUpTo, FlagsEnded, Collect, Part, PiecesUpTo, QuietRun, RestStart,
         Copied, IsGap;
    CopiedFlags(chars, i, start, a.plain, a.n, sc);
    QuietFlags(chars, start, start, i + 1, i + a.n);
    PartGrows(chars, start, i, i + a.n);
    CopiedIs(chars, i, a.n, a.plain, sc);
  }

  lemma {:induction false} AgreesGood(chars: string, i: nat, a: Act)
    requires Agrees(chars, i, a) && !a.Reject?
    ensures i < |chars| && !Bad(chars, i)
  {
    hide Bad, CutAt, Top, Groups, Begins, OneOf;
  }

  lemma {:induction false} CopyInStep(chars: string, p: Pos)
    requires Ok(chars, p) && p.i < |chars| && InStep(chars, p) && NextAct(chars, p.i, p.stack, p.groups).Copy?
    ensures Step(chars, p).Some? && InStep(chars, Step(chars, p).value)
  {
    hide *;
    var a := NextAct(chars, p.i, p.stack, p.groups);
    StepOpen(chars, p);
    CopyStands(chars, p.i, p.stack, p.groups);
    CopyStep(chars, p);
    AgreesGood(chars, p.i, a);
    HoldsIff(chars, p.i, p.sc);
    CopyHolds(chars, p.i, a, p.sc);
    QuietGood(chars, p.i, p.i + a.n);
    var q := Pos(p.i + a.n, a.stack, a.groups, Copied(chars, p.i, a.n, a.plain, p.sc));
    HoldsIff(chars, q.i, q.sc);
    StepClosed(chars, q);
  }

  lemma {:induction false} StepOpen(chars: string, p: Pos)
    requires InStep(chars, p)
    ensures p.i <= |chars| && StandsAt(chars, p.i, p.stack, p.groups) && p.sc == ScanAt(chars, p.i)
    ensures RestStart(PiecesUpTo(chars, p.i)) <= p.i
    ensures NoneBlank(chars, PiecesUpTo(chars, p.i)) && GoodTo(chars, p.i)
  {
    hide StandsAt, ScanAt, PiecesUpTo, RestStart, NoneBlank, GoodTo;
  }

  lemma {:induction false} StepClosed(chars: string, p: Pos)
    requires p.i <= |chars| && StandsAt(chars, p.i, p.stack, p.groups) && p.sc == ScanAt(chars, p.i)
    requires RestStart(PiecesUpTo(chars, p.i)) <= p.i
    requires NoneBlank(chars, PiecesUpTo(chars, p.i)) && GoodTo(chars, p.i)
    ensures InStep(chars, p)
  {
    hide StandsAt, ScanAt, PiecesUpTo, RestStart, NoneBlank, GoodTo;
  }

  // ----- a cut -----

  lemma {:induction false} OperatorStands(chars: string, i: nat)
    requires i < |chars| && OperatorAt(chars, i) != NoSep
    ensures var sep := OperatorAt(chars, i);
            && i + |Mark(sep)| <= |chars| && 1 <= |Mark(sep)| <= 2
            && (forall k :: i <= k < i + |Mark(sep)| ==> IsMark(chars[k]))
            && (|Mark(sep)| == 2 <==> Stands(chars, i, "&&") || Stands(chars, i, "||"))
  {
    DoubleChars(chars, i);
    SingleChars(chars, i);
    hide Stands, Redirects;
  }

  lemma {:induction false} MarkReads(chars: string, i: nat)
    requires i < |chars| && ReadAt(chars, i).stack == [] && (ReadAt(chars, i).mode.Bare? || ReadAt(chars, i).mode.Dollar?)
    requires IsMark(chars[i])
    ensures ReadsTo(chars, i + 1, [])
  {
    ReadAtNext(chars, i);
    hide ReadAt;
  }

  lemma {:induction false} MarkNoComment(chars: string, i: nat)
    requires i < |chars| && IsMark(chars[i])
    ensures !Comment(chars, i) && !StrayParen(chars, i) && !BraceOpens(chars, i) && !BraceCloses(chars, i)
  {
    BraceChars(chars, i);
    hide Stands, ReadAt, Free;
  }

  lemma {:induction false} MarkGroups(chars: string, i: nat)
    requires i < |chars| && IsMark(chars[i])
    ensures Groups(chars, i + 1) == Groups(chars, i)
  {
    GroupsNext(chars, i);
    MarkNoComment(chars, i);
    hide Groups, BraceOpens, BraceCloses, ReadAt, Level;
  }

  lemma {:induction false} CutIsTop(chars: string, i: nat)
    requires CutAt(chars, i) != NoSep
    ensures i < |chars| && OperatorAt(chars, i) == CutAt(chars, i)
    ensures Level(ReadAt(chars, i)) && Groups(chars, i) == 0 && Begins(chars, i) && Top(chars, i)
  {
    hide OperatorAt, Groups, ReadAt, Level, Begins;
  }

  // Behind one character of an operator.
  lemma {:induction false} MarkStands(chars: string, i: nat)
    requires i < |chars| && Level(ReadAt(chars, i)) && IsMark(chars[i])
    ensures ReadsTo(chars, i + 1, []) && Level(ReadAt(chars, i + 1)) && Groups(chars, i + 1) == Groups(chars, i)
  {
    MarkGroups(chars, i);
    hide Groups, ReadsTo, IsMark, ReadAt;
    MarkReads(chars, i);
    ReadsLevel(chars, i + 1);
  }

  // The second character of an operator cuts nothing.
  lemma {:induction false} SecondStands(chars: string, i: nat)
    requires i < |chars| && IsMark(chars[i]) && !Begins(chars, i)
    ensures Begins(chars, i + 1) && PiecesUpTo(chars, i + 1) == PiecesUpTo(chars, i) && !Bad(chars, i)
  {
    MarkNoComment(chars, i);
    hide Begins, Stands, IsMark, Comment, StrayParen, Groups, ReadAt, PiecesUpTo, OperatorAt, Top;
    BeginsNext(chars, i);
    NoCutNext(chars, i);
  }

  lemma {:induction false} GoodNext(chars: string, i: nat)
    requires GoodTo(chars, i) && (i < |chars| ==> !Bad(chars, i))
    ensures GoodTo(chars, i + 1)
  {
    hide Bad;
  }

  lemma {:induction false} StandsClosed(chars: string, i: nat, stack: seq<Ctx>, groups: nat)
    requires ReadsTo(chars, i, stack) && Groups(chars, i) == groups && Begins(chars, i)
    ensures StandsAt(chars, i, stack, groups)
  {
    hide ReadsTo, Begins, Groups;
  }

  // Behind an operator the scan stands at the top level again.
  lemma {:induction false} CutStands(chars: string, i: nat, sep: Sep)
    requires i < |chars| && CutAt(chars, i) == sep != NoSep && GoodTo(chars, i) && !Bad(chars, i)
    ensures var n := |Mark(sep)|;
            && i + n <= |chars| && n >= 1 && StandsAt(chars, i + n, [], 0) && GoodTo(chars, i + n)
            && PiecesUpTo(chars, i + n) == PiecesUpTo(chars, i) + [Piece(RestStart(PiecesUpTo(chars, i)), i, sep)]
  {
    hide *;
    var n := |Mark(sep)|;
    CutIsTop(chars, i);
    OperatorStands(chars, i);
    MarkStands(chars, i);
    BeginsNext(chars, i);
    CutPieces(chars, i);
    GoodNext(chars, i);
    if n == 2 {
      MarkStands(chars, i + 1);
      SecondStands(chars, i + 1);
      GoodNext(chars, i + 1);
    }
    StandsClosed(chars, i + n, [], 0);
  }

  lemma {:induction false} ReadsLevel(chars: string, i: nat)
    requires ReadsTo(chars, i, [])
    ensures i <= |chars| && Level(ReadAt(chars, i))
  {
    hide ReadAt;
  }

  lemma {:induction false} CutPieces(chars: string, i: nat)
    requires CutAt(chars, i) != NoSep
    ensures PiecesUpTo(chars, i + 1) == PiecesUpTo(chars, i) + [Piece(RestStart(PiecesUpTo(chars, i)), i, CutAt(chars, i))]
  {
    hide CutAt, RestStart;
  }

  lemma {:induction false} PiecesGrow(chars: string, i: nat, j: nat)
    requires i <= j
    ensures PiecesUpTo(chars, i) <= PiecesUpTo(chars, j)
  {
    hide CutAt, RestStart;
    if i < j {
      PiecesGrow(chars, i, j - 1);
    }
  }

  // ----- the stage that a cut takes -----

  lemma {:induction false} FlagsRebase(chars: string, start: nat, lead: nat, i: nat)
    requires forall k :: 0 <= k < |FlagsUpTo(chars, start, start, i)| ==> lead <= FlagsUpTo(chars, start, start, i)[k]
    ensures FlagsUpTo(chars, start, start + lead, i) == Shift(FlagsUpTo(chars, start, start, i), lead)
  {
    hide FlagAt;
    if i > start {
      var before, flags := FlagsUpTo(chars, start, start, i - 1), FlagsUpTo(chars, start, start, i);
      assert forall k :: 0 <= k < |before| ==> before[k] == flags[k];
      FlagsRebase(chars, start, lead, i - 1);
      if FlagAt(chars, start, i) {
        assert flags[|before|] == i - start;
        assert Shift(flags, lead) == Shift(before, lead) + [i - start - lead];
      }
    }
  }

  lemma {:induction false} TakenIs(chars: string, i: nat, sep: Sep, sc: Scan)
    requires Holds(chars, i, sc) && TakeReady(sc)
    ensures var piece := Piece(RestStart(PiecesUpTo(chars, i)), i, sep);
            && StageTaken(sc).None? <==> PieceText(chars, piece) == ""
    ensures StageTaken(sc).Some? ==>
              StageTaken(sc).value == Scan(sc.segments, sc.stages + [StageOf(chars, Piece(RestStart(PiecesUpTo(chars, i)), i, sep))], "", [], false)
  {
    var start := RestStart(PiecesUpTo(chars, i));
    hide RestStart, PiecesUpTo, Trim, Part, FlagsEnded, Collect, FlagsUpTo;
    var lead := LeadEnd(sc.current, 0);
    FlagsRebase(chars, start, lead, i);
  }

  lemma {:induction false} EndedIs(chars: string, i: nat, sep: Sep, sc: Scan)
    requires Holds(chars, i, sc) && TakeReady(sc)
    ensures var piece := Piece(RestStart(PiecesUpTo(chars, i)), i, sep);
            && SegmentEnded(sc, sep).None? <==> PieceText(chars, piece) == ""
    ensures var piece := Piece(RestStart(PiecesUpTo(chars, i)), i, sep);
            SegmentEnded(sc, sep).Some? ==>
              SegmentEnded(sc, sep).value == Scan(sc.segments + [Segment(sc.stages + [StageOf(chars, piece)], sep)], [], "", [], false)
  {
    hide Holds, RestStart, PiecesUpTo, PieceText, StageOf, TakeReady, StageTaken;
    TakenIs(chars, i, sep, sc);
  }

  lemma {:induction false} CollectOne(chars: string, pieces: seq<Piece>, piece: Piece)
    ensures var before := Collect(chars, pieces);
            var stages := before.stages + [StageOf(chars, piece)];
            Collect(chars, pieces + [piece]) ==
              if piece.sep == Pipe then Collected(before.segments, stages)
              else Collected(before.segments + [Segment(stages, piece.sep)], [])
  {
    hide StageOf;
    assert (pieces + [piece])[..|pieces|] == pieces;
  }

  lemma {:induction false} NothingHeld(chars: string, i: nat)
    requires i <= |chars|
    ensures Part(chars, i, i) == "" && FlagsUpTo(chars, i, i, i) == [] && !FlagsEnded(chars, i, i)
  {
  }

  // The scanner behind a piece that is not blank.
  lemma {:induction false} CutHolds(chars: string, i: nat, piece: Piece, sc: Scan, taken: Scan)
    requires Holds(chars, i, sc) && piece == Piece(RestStart(PiecesUpTo(chars, i)), i, piece.sep)
    requires var n := |Mark(piece.sep)|;
             && i + n <= |chars| && PiecesUpTo(chars, i + n) == PiecesUpTo(chars, i) + [piece]
    requires taken == if piece.sep == Pipe then Scan(sc.segments, sc.stages + [StageOf(chars, piece)], "", [], false)
                      else Scan(sc.segments + [Segment(sc.stages + [StageOf(chars, piece)], piece.sep)], [], "", [], false)
    ensures Holds(chars, i + |Mark(piece.sep)|, taken)
  {
    var n := |Mark(piece.sep)|;
    var pieces := PiecesUpTo(chars, i);
    assert RestStart(pieces + [piece]) == i + n;
    hide Mark, PiecesUpTo, Part, FlagsUpTo, FlagsEnded, Collect, StageOf, RestStart;
    CollectOne(chars, pieces, piece);
    NothingHeld(chars, i + n);
  }

  lemma {:induction false} BlankPiece(chars: string, i: nat, j: nat, piece: Piece)
    requires PiecesUpTo(chars, i) + [piece] == PiecesUpTo(chars, j) && j <= |chars| && PieceText(chars, piece) == ""
    ensures !NoneBlank(chars, Cuts(chars))
  {
    hide PiecesUpTo, PieceText;
    PiecesGrow(chars, j, |chars|);
    var k := |PiecesUpTo(chars, i)|;
    assert PiecesUpTo(chars, j)[k] == piece;
    assert Cuts(chars)[k] == piece;
  }

  lemma {:induction false} CutStep(chars: string, p: Pos)
    requires Ok(chars, p) && p.i < |chars| && TakeReady(p.sc)
    requires var a := NextAct(chars, p.i, p.stack, p.groups); a.Cut? || a.Bar?
    ensures var a := NextAct(chars, p.i, p.stack, p.groups);
            var ended := if a.Bar? then StageTaken(p.sc) else SegmentEnded(p.sc, a.sep);
            var n := if a.Bar? then 1 else a.n;
            Step(chars, p) == if ended.None? then None else Some(Pos(p.i + n, [], 0, ended.value))
  {
    hide NextAct, StageTaken, SegmentEnded, FlagsGrowing, TakeReady;
    ReadyFromGrowing(chars, p.i, p.stack, p.groups, p.sc);
  }

  lemma {:induction false} AgreesCut(chars: string, i: nat, a: Act)
    requires (a.Cut? || a.Bar?) && Agrees(chars, i, a) && (a.Cut? ==> a.sep != NoSep)
    ensures var sep := if a.Bar? then Pipe else a.sep;
            i < |chars| && CutAt(chars, i) == sep != NoSep && |Mark(sep)| == (if a.Bar? then 1 else a.n) && (a.Cut? ==> sep != Pipe)
  {
    hide CutAt, Bad, Groups, Begins, Top, OneOf, IsGap;
  }

  lemma {:induction false} CutIsReal(chars: string, p: Pos)
    requires p.i < |chars|
    ensures var a := NextAct(chars, p.i, p.stack, p.groups); a.Cut? ==> a.sep != NoSep
  {
    hide CloseQuote, IsSpace;
  }

  lemma {:induction false} NoneBlankMore(chars: string, pieces: seq<Piece>, piece: Piece)
    requires NoneBlank(chars, pieces) && PieceText(chars, piece) != ""
    ensures NoneBlank(chars, pieces + [piece])
  {
    hide PieceText;
  }

  // The scanner's fields behind the cut, if the piece is not blank.
  function Taken(chars: string, i: nat, sep: Sep, sc: Scan): Option<Scan>
    requires TakeReady(sc)
  {
    if sep == Pipe then StageTaken(sc) else SegmentEnded(sc, sep)
  }

  lemma {:induction false} TakenHolds(chars: string, i: nat, sep: Sep, sc: Scan)
    requires Holds(chars, i, sc) && TakeReady(sc) && NoneBlank(chars, PiecesUpTo(chars, i)) && sep != NoSep
    requires var n := |Mark(sep)|;
             i + n <= |chars| && PiecesUpTo(chars, i + n) == PiecesUpTo(chars, i) + [Piece(RestStart(PiecesUpTo(chars, i)), i, sep)]
    ensures Taken(chars, i, sep, sc).None? ==> !NoneBlank(chars, Cuts(chars))
    ensures var n := |Mark(sep)|;
            Taken(chars, i, sep, sc).Some? ==>
              Holds(chars, i + n, Taken(chars, i, sep, sc).value) && NoneBlank(chars, PiecesUpTo(chars, i + n))
  {
    hide Holds, RestStart, PiecesUpTo, PieceText, StageOf, TakeReady, StageTaken, SegmentEnded, NoneBlank, Cuts, Mark;
    var piece := Piece(RestStart(PiecesUpTo(chars, i)), i, sep);
    var n := |Mark(sep)|;
    TakenIs(chars, i, sep, sc);
    EndedIs(chars, i, sep, sc);
    if PieceText(chars, piece) == "" {
      BlankPiece(chars, i, i + n, piece);
    } else {
      CutHolds(chars, i, piece, sc, Taken(chars, i, sep, sc).value);
      NoneBlankMore(chars, PiecesUpTo(chars, i), piece);
    }
  }

  lemma {:induction false} TakenStep(chars: string, p: Pos, sep: Sep)
    requires Ok(chars, p) && p.i < |chars| && TakeReady(p.sc)
    requires var a := NextAct(chars, p.i, p.stack, p.groups);
             (a.Cut? || a.Bar?) && sep == (if a.Bar? then Pipe else a.sep) && (a.Cut? ==> sep != Pipe)
             && |Mark(sep)| == if a.Bar? then 1 else a.n
    ensures var taken := Taken(chars, p.i, sep, p.sc);
            Step(chars, p) == if taken.None? then None else Some(Pos(p.i + |Mark(sep)|, [], 0, taken.value))
  {
    hide NextAct, StageTaken, SegmentEnded, TakeReady, Ok, Step, Mark;
    CutStep(chars, p);
  }

  lemma {:induction false} TakenInStep(chars: string, p: Pos, sep: Sep)
    requires p.i < |chars| && InStep(chars, p) && TakeReady(p.sc)
    requires CutAt(chars, p.i) == sep != NoSep && !Bad(chars, p.i)
    ensures var taken := Taken(chars, p.i, sep, p.sc);
            && (taken.None? ==> !NoneBlank(chars, Cuts(chars)))
            && (taken.Some? ==> InStep(chars, Pos(p.i + |Mark(sep)|, [], 0, taken.value)))
  {
    hide *;
    StepOpen(chars, p);
    CutStands(chars, p.i, sep);
    HoldsIff(chars, p.i, p.sc);
    TakenHolds(chars, p.i, sep, p.sc);
    var taken := Taken(chars, p.i, sep, p.sc);
    if taken.Some? {
      var q := Pos(p.i + |Mark(sep)|, [], 0, taken.value);
      HeldStart(chars, q.i, q.sc);
      HoldsIff(chars, q.i, q.sc);
      StepClosed(chars, q);
    }
  }

  lemma {:induction false} CutInStep(chars: string, p: Pos)
    requires Ok(chars, p) && p.i < |chars| && InStep(chars, p)
    requires var a := NextAct(chars, p.i, p.stack, p.groups); a.Cut? || a.Bar?
    ensures Step(chars, p).None? ==> !NoneBlank(chars, Cuts(chars))
    ensures Step(chars, p).Some? ==> InStep(chars, Step(chars, p).value)
  {
    hide *;
    ReadyToTake(chars, p);
    CutIsReal(chars, p);
    var a := NextAct(chars, p.i, p.stack, p.groups);
    var sep := if a.Bar? then Pipe else a.sep;
    StepOpen(chars, p);
    ActAgrees(chars, p.i, p.stack, p.groups);
    AgreesGood(chars, p.i, a);
    AgreesCut(chars, p.i, a);
    TakenInStep(chars, p, sep);
    TakenStep(chars, p, sep);
  }

  lemma {:induction false} HeldStart(chars: string, i: nat, sc: Scan)
    requires Holds(chars, i, sc)
    ensures RestStart(PiecesUpTo(chars, i)) <= i
  {
    hide RestStart, PiecesUpTo, Part, Collect, FlagsAre;
  }

  lemma {:induction false} ReadyToTake(chars: string, p: Pos)
    requires Ok(chars, p)
    ensures TakeReady(p.sc)
  {
    hide FlagsGrowing, TakeReady;
    ReadyFromGrowing(chars, p.i, p.stack, p.groups, p.sc);
  }

  // ----- the end -----

  lemma {:induction false} FinishedRest(sc: Scan)
    requires TakeReady(sc) && (Trim(sc.current) != "" || sc.stages != [])
    ensures Finished(sc).Some? <==> SegmentEnded(sc, NoSep).Some?
    ensures Finished(sc).Some? ==> Finished(sc).value == SegmentEnded(sc, NoSep).value.segments
  {
    hide TakeReady, SegmentEnded, Trim;
  }

  lemma {:induction false} FinishedBlank(sc: Scan)
    requires TakeReady(sc) && Trim(sc.current) == "" && sc.stages == []
    ensures Finished(sc) == if sc.segments == [] || IsChain(sc.segments[|sc.segments| - 1].sep) then None else Some(sc.segments)
  {
    hide TakeReady, SegmentEnded, Trim;
  }

  // The command ends in a piece of its own, or its last cut leaves a stage to come.
  lemma {:induction false} EndRest(chars: string, sc: Scan)
    requires Holds(chars, |chars|, sc) && TakeReady(sc)
    requires PieceText(chars, RestPiece(chars)) != "" || sc.stages != []
    ensures Finished(sc).Some? <==> PieceText(chars, RestPiece(chars)) != ""
    ensures Finished(sc).Some? ==> Finished(sc).value == Collect(chars, Cuts(chars) + [RestPiece(chars)]).segments
  {
    assert sc.segments == Collect(chars, Cuts(chars)).segments && sc.stages == Collect(chars, Cuts(chars)).stages;
    EndedIs(chars, |chars|, NoSep, sc);
    assert RestPiece(chars) == Piece(RestStart(PiecesUpTo(chars, |chars|)), |chars|, NoSep);
    hide *;
    RestText(chars, sc);
    FinishedRest(sc);
    CollectOne(chars, Cuts(chars), RestPiece(chars));
    assert RestPiece(chars).sep == NoSep;
  }

  lemma {:induction false} EndBlank(chars: string, sc: Scan)
    requires Holds(chars, |chars|, sc) && TakeReady(sc)
    requires PieceText(chars, RestPiece(chars)) == "" && sc.stages == []
    ensures Finished(sc) == if MayEnd(Cuts(chars)) then Some(Collect(chars, Cuts(chars)).segments) else None
  {
    assert sc.segments == Collect(chars, Cuts(chars)).segments && sc.stages == Collect(chars, Cuts(chars)).stages;
    assert Cuts(chars) == PiecesUpTo(chars, |chars|);
    hide *;
    RestText(chars, sc);
    FinishedBlank(sc);
    LastSep(chars, Cuts(chars));
    CutsReal(chars, |chars|);
    EndsWell(Cuts(chars));
  }

  lemma {:induction false} EndsWell(pieces: seq<Piece>)
    ensures pieces != [] && pieces[|pieces| - 1].sep != NoSep && pieces[|pieces| - 1].sep != Pipe ==>
              (MayEnd(pieces) <==> !IsChain(pieces[|pieces| - 1].sep))
    ensures pieces == [] || pieces[|pieces| - 1].sep == Pipe ==> !MayEnd(pieces)
    ensures forall piece: Piece :: piece.sep == NoSep ==> MayEnd(pieces + [piece])
  {
  }

  lemma {:induction false} EndIs(chars: string, sc: Scan)
    requires Holds(chars, |chars|, sc) && TakeReady(sc)
    ensures Finished(sc) == if MayEnd(AllPieces(chars)) then Some(Collect(chars, AllPieces(chars)).segments) else None
  {
    assert sc.stages == Collect(chars, Cuts(chars)).stages;
    EndsWell(Cuts(chars));
    assert RestPiece(chars).sep == NoSep;
    hide Holds, TakeReady, PieceText, Cuts, RestPiece, Collect, Finished, MayEnd;
    LastSep(chars, Cuts(chars));
    if PieceText(chars, RestPiece(chars)) != "" || sc.stages != [] {
      EndRest(chars, sc);
    } else {
      EndBlank(chars, sc);
    }
  }

  lemma {:induction false} RestText(chars: string, sc: Scan)
    requires Holds(chars, |chars|, sc)
    ensures Trim(sc.current) == PieceText(chars, RestPiece(chars))
  {
    hide Trim, Part, PiecesUpTo, RestStart, Collect, FlagsAre;
  }

  // No piece but the last ends without a separator.
  lemma {:induction false} CutsReal(chars: string, i: nat)
    ensures forall k :: 0 <= k < |PiecesUpTo(chars, i)| ==> PiecesUpTo(chars, i)[k].sep != NoSep
  {
    hide CutAt, RestStart;
    if i > 0 {
      CutsReal(chars, i - 1);
    }
  }

  // What the pieces so far leave open, by the last separator.
  lemma {:induction false} LastSep(chars: string, pieces: seq<Piece>)
    ensures var done := Collect(chars, pieces);
            && (pieces == [] ==> done == Collected([], []))
            && (pieces != [] && pieces[|pieces| - 1].sep == Pipe ==> done.stages != [])
            && (pieces != [] && pieces[|pieces| - 1].sep != Pipe ==>
                  done.stages == [] && done.segments != [] && done.segments[|done.segments| - 1].sep == pieces[|pieces| - 1].sep)
  {
    hide StageOf;
  }

  lemma {:induction false} ScanFromExact(chars: string, p: Pos)
    requires Ok(chars, p) && InStep(chars, p)
    ensures ScanFrom(chars, p) == if Scannable(chars) then Some(Collect(chars, AllPieces(chars)).segments) else None
    decreases |chars| - p.i
  {
    hide InStep, Step, FlagsGrowing, Finished, Collect, AllPieces, NextAct, Bad, Level, ReadAt, Groups, NoneBlank, Cuts, TakeReady, Scannable;
    if p.i == |chars| {
      ReadyToTake(chars, p);
      EndExact(chars, p);
    } else {
      StepOk(chars, p);
      RoundExact(chars, p);
      if Step(chars, p).Some? {
        ScanFromExact(chars, Step(chars, p).value);
      }
    }
  }

  lemma {:induction false} RoundExact(chars: string, p: Pos)
    requires Ok(chars, p) && p.i < |chars| && InStep(chars, p)
    ensures Step(chars, p).None? ==> !Scannable(chars)
    ensures Step(chars, p).Some? ==> InStep(chars, Step(chars, p).value)
  {
    var a := NextAct(chars, p.i, p.stack, p.groups);
    assert a.Reject? ==> Step(chars, p).None?;
    hide InStep, Step, NextAct, Bad, Level, ReadAt, Groups, NoneBlank, Cuts, AllPieces, Ok;
    if a.Copy? {
      CopyInStep(chars, p);
    } else if a.Reject? {
      StepOpen(chars, p);
      ActAgrees(chars, p.i, p.stack, p.groups);
    } else {
      CutInStep(chars, p);
    }
  }

  lemma {:induction false} EndExact(chars: string, p: Pos)
    requires Ok(chars, p) && InStep(chars, p) && p.i == |chars| && TakeReady(p.sc)
    ensures (if p.stack != [] || p.groups > 0 then None else Finished(p.sc)) ==
            if Scannable(chars) then Some(Collect(chars, AllPieces(chars)).segments) else None
  {
    StepOpen(chars, p);
    AtEnd(chars, p.stack, p.groups);
    HoldsIff(chars, p.i, p.sc);
    EndIs(chars, p.sc);
    hide InStep, Finished, Collect, AllPieces, Bad, Level, ReadAt, Groups, NoneBlank, StandsAt, ScanAt, Holds, TakeReady, Ok, RestStart, PiecesUpTo;
  }

  lemma {:induction false} AtEnd(chars: string, stack: seq<Ctx>, groups: nat)
    requires StandsAt(chars, |chars|, stack, groups)
    ensures Level(ReadAt(chars, |chars|)) <==> stack == []
    ensures Groups(chars, |chars|) == groups
  {
    hide ReadAt, Groups, DollarAt, Begins;
  }

  lemma {:induction false} AtStart(chars: string)
    ensures InStep(chars, Pos(0, [], 0, START))
  {
    assert chars[..0] == "";
    ReadNone(OPEN);
    NothingHeld(chars, 0);
    hide Part, FlagsUpTo, FlagsEnded;
  }

  // The scan's answer, said of the characters alone: it cuts at the operators outside every quote,
  // nested command, brace group and redirection, and nowhere else; it flags what looks like a flag
  // there before any lone `--`; and it refuses exactly the commands that are not scannable.
  lemma {:induction false} ScanIsCuts(chars: string)
    ensures ScanSpec(chars) == if Scannable(chars) then Some(Collect(chars, AllPieces(chars)).segments) else None
  {
    AtStart(chars);
    StartOk(chars);
    hide InStep, ScanFrom, Scannable, Collect, AllPieces, Ok;
    ScanFromExact(chars, Pos(0, [], 0, START));
  }

  // A piece ends at position `i`, with the separator given.
  ghost predicate EndsAt(pieces: seq<Piece>, i: nat, sep: Sep) {
    exists k :: 0 <= k < |pieces| && pieces[k].end == i && pieces[k].sep == sep
  }

  lemma {:induction false} EndsMore(pieces: seq<Piece>, piece: Piece, i: nat, sep: Sep)
    ensures EndsAt(pieces + [piece], i, sep) <==> EndsAt(pieces, i, sep) || (piece.end == i && piece.sep == sep)
  {
    var more := pieces + [piece];
    if EndsAt(pieces, i, sep) {
      var k :| 0 <= k < |pieces| && pieces[k].end == i && pieces[k].sep == sep;
      assert more[k].end == i && more[k].sep == sep;
    }
    assert more[|pieces|] == piece;
  }

  // The pieces end at the operators that cut, and nowhere else.
  lemma {:induction false} CutIff(chars: string, i: nat, sep: Sep, upTo: nat)
    ensures EndsAt(PiecesUpTo(chars, upTo), i, sep) <==> i < upTo && sep != NoSep && CutAt(chars, i) == sep
  {
    hide CutAt, RestStart, EndsAt;
    if upTo == 0 {
      NoneEnds(i, sep);
    } else {
      CutIff(chars, i, sep, upTo - 1);
      var before := PiecesUpTo(chars, upTo - 1);
      EndsMore(before, Piece(RestStart(before), upTo - 1, CutAt(chars, upTo - 1)), i, sep);
    }
  }

  lemma {:induction false} NoneEnds(i: nat, sep: Sep)
    ensures !EndsAt([], i, sep)
  {
  }
}
