// Splitting a command line into shell words, and the quoting it undoes.
module ShellWords {
  import opened Text

  // ----- what the splitter computes, quote by quote -----

  // The text of a double-quoted part read from `i` on, and where it ends.
  function DoubleFrom(s: string, i: nat): (r: Option<(string, nat)>)
    ensures r.Some? ==> i < r.value.1 <= |s|
    decreases |s| - i
  {
    if i >= |s| then None
    else if s[i] == '"' then Some(("", i + 1))
    else
      var escaped := s[i] == '\\';
      if escaped && i + 1 >= |s| then None
      else
        var c := if escaped then s[i + 1] else s[i];
        match DoubleFrom(s, if escaped then i + 2 else i + 1)
        case None => None
        case Some((text, next)) => Some(([c] + text, next))
  }

  function SingleFrom(s: string, i: nat): (r: Option<(string, nat)>)
    requires i <= |s|
    ensures r.Some? ==> i < r.value.1 <= |s|
  {
    var close := IndexFrom(s, '\'', i);
    if close == |s| then None else Some((s[i..close], close + 1))
  }

  // One piece of a word: a quoted part, an escaped character, or a plain one.
  function PieceFrom(s: string, i: nat): (r: Option<(string, nat)>)
    requires i < |s|
    ensures r.Some? ==> i < r.value.1 <= |s|
  {
    if s[i] == '\\' then
      if i + 1 >= |s| then Some(("\\", i + 1)) else Some(([s[i + 1]], i + 2))
    else if s[i] == '\'' then SingleFrom(s, i + 1)
    else if s[i] == '"' then DoubleFrom(s, i + 1)
    else Some(([s[i]], i + 1))
  }

  function WordFrom(s: string, i: nat): (r: Option<(string, nat)>)
    requires i <= |s|
    ensures r.Some? ==> i <= r.value.1 <= |s|
    ensures r.Some? && i < |s| && !IsSpace(s[i]) ==> i < r.value.1
    decreases |s| - i
  {
    if i == |s| || IsSpace(s[i]) then Some(("", i)) else
      match PieceFrom(s, i)
      case None => None
      case Some((text, next)) =>
        match WordFrom(s, next)
        case None => None
        case Some((more, end)) => Some((text + more, end))
  }

  function WordsFrom(s: string, i: nat): Option<seq<string>>
    requires i <= |s|
    decreases |s| - i
  {
    if i == |s| then Some([])
    else if IsSpace(s[i]) then WordsFrom(s, i + 1)
    else
      match WordFrom(s, i)
      case None => None
      case Some((word, next)) =>
        match WordsFrom(s, next)
        case None => None
        case Some(words) => Some([word] + words)
  }

  // ----- the loops -----

  method PushSingle(chars: string, from: nat, word: string) returns (next: Option<nat>, grown: string)
    requires from <= |chars|
    ensures match SingleFrom(chars, from)
            case None => next == None && grown == word
            case Some((text, end)) => next == Some(end) && grown == word + text
  {
    var i := from;
    while i < |chars| && chars[i] != '\''
      invariant from <= i <= |chars|
      invariant IndexFrom(chars, '\'', from) == IndexFrom(chars, '\'', i)
    {
      i := i + 1;
    }
    if i >= |chars| {
      return None, word;
    }
    return Some(i + 1), word + chars[from..i];
  }

  // What is left of a result after the first part of its text was read.
  function After(text: string, rest: Option<(string, nat)>): Option<(string, nat)> {
    match rest
    case None => None
    case Some((more, next)) => Some((text + more, next))
  }

  lemma {:induction false} AfterAfter(a: string, b: string, rest: Option<(string, nat)>)
    ensures After(a, After(b, rest)) == After(a + b, rest)
    ensures After("", rest) == rest
  {
    if rest.Some? {
      assert (a + b) + rest.value.0 == a + (b + rest.value.0);
      assert "" + rest.value.0 == rest.value.0;
    }
  }

  lemma {:induction false} DoubleStep(s: string, i: nat)
    requires i < |s| && s[i] != '"'
    ensures DoubleFrom(s, i) ==
            if s[i] != '\\' then After([s[i]], DoubleFrom(s, i + 1))
            else if i + 1 < |s| then After([s[i + 1]], DoubleFrom(s, i + 2))
            else None
  {
  }

  // On an unclosed quote the text read so far stays in the word, which is then thrown away.
  method PushDouble(chars: string, from: nat, word: string) returns (next: Option<nat>, grown: string)
    requires from <= |chars|
    ensures match DoubleFrom(chars, from)
            case None => next == None
            case Some((text, end)) => next == Some(end) && grown == word + text
  {
    var i := from;
    grown := word;
    ghost var read := "";
    AfterAfter("", "", DoubleFrom(chars, from));
    while i < |chars| && chars[i] != '"'
      invariant from <= i <= |chars| && grown == word + read
      invariant DoubleFrom(chars, from) == After(read, DoubleFrom(chars, i))
    {
      hide DoubleFrom;
      DoubleStep(chars, i);
      if chars[i] == '\\' {
        if i + 1 >= |chars| {
          return None, grown;
        }
        AfterAfter(read, [chars[i + 1]], DoubleFrom(chars, i + 2));
        read := read + [chars[i + 1]];
        grown := grown + [chars[i + 1]];
        i := i + 2;
      } else {
        AfterAfter(read, [chars[i]], DoubleFrom(chars, i + 1));
        read := read + [chars[i]];
        grown := grown + [chars[i]];
        i := i + 1;
      }
    }
    if i >= |chars| {
      return None, grown;
    }
    next := Some(i + 1);
  }

  lemma {:induction false} WordStep(s: string, i: nat)
    requires i < |s| && !IsSpace(s[i])
    ensures WordFrom(s, i) ==
            match PieceFrom(s, i) case None => None case Some((text, next)) => After(text, WordFrom(s, next))
  {
    hide PieceFrom;
  }

  // The inner loop: one word, from its first character to the blank behind it.
  method ReadWord(input: string, start: nat) returns (next: Option<nat>, word: string)
    requires start <= |input|
    ensures match WordFrom(input, start)
            case None => next == None
            case Some((text, end)) => next == Some(end) && word == text
  {
    hide IsSpace, WordFrom, DoubleFrom, SingleFrom;
    var i := start;
    word := "";
    AfterAfter("", "", WordFrom(input, i));
    while i < |input| && !IsSpace(input[i])
      invariant start <= i <= |input|
      invariant WordFrom(input, start) == After(word, WordFrom(input, i))
      decreases |input| - i
    {
      WordStep(input, i);
      ghost var before := word;
      if input[i] == '\\' {
        if i + 1 >= |input| {
          word := word + ['\\'];
          AfterAfter(before, "\\", WordFrom(input, i + 1));
          i := i + 1;
        } else {
          word := word + [input[i + 1]];
          AfterAfter(before, [input[i + 1]], WordFrom(input, i + 2));
          i := i + 2;
        }
      } else if input[i] == '\'' {
        ghost var quoted := SingleFrom(input, i + 1);
        next, word := PushSingle(input, i + 1, word);
        if next.None? {
          return;
        }
        AfterAfter(before, quoted.value.0, WordFrom(input, next.value));
        i := next.value;
      } else if input[i] == '"' {
        ghost var quoted := DoubleFrom(input, i + 1);
        next, word := PushDouble(input, i + 1, word);
        if next.None? {
          return;
        }
        AfterAfter(before, quoted.value.0, WordFrom(input, next.value));
        i := next.value;
      } else {
        word := word + [input[i]];
        AfterAfter(before, [input[i]], WordFrom(input, i + 1));
        i := i + 1;
      }
    }
    WordEnds(input, i);
    AfterAfter(word, "", Some(("", i)));
    next := Some(i);
    assert word + "" == word;
  }

  lemma {:induction false} WordEnds(s: string, i: nat)
    requires i <= |s| && (i == |s| || IsSpace(s[i]))
    ensures WordFrom(s, i) == Some(("", i))
  {
  }

  // The words, or nothing when a quote is left open.
  method SplitShellWords(input: string) returns (words: Option<seq<string>>)
    ensures words == WordsFrom(input, 0)
  {
    hide IsSpace, WordFrom, WordsFrom, Before;
    var found, i := [], 0;
    BeforeAll(input);
    while i < |input|
      invariant i <= |input|
      invariant WordsFrom(input, 0) == Before(found, WordsFrom(input, i))
    {
      WordsStep(input, i);
      if IsSpace(input[i]) {
        i := i + 1;
        continue;
      }
      var next, word := ReadWord(input, i);
      if next.None? {
        BeforeNone(found);
        return None;
      }
      i := next.value;
      BeforeBefore(found, word, WordsFrom(input, i));
      found := found + [word];
    }
    WordsEnd(input, found);
    words := Some(found);
  }

  lemma {:induction false} WordsStep(s: string, i: nat)
    requires i < |s|
    ensures WordsFrom(s, i) ==
            if IsSpace(s[i]) then WordsFrom(s, i + 1)
            else match WordFrom(s, i)
                 case None => None
                 case Some((word, next)) => Before([word], WordsFrom(s, next))
  {
    hide WordFrom;
  }

  lemma {:induction false} BeforeAll(s: string)
    ensures Before([], WordsFrom(s, 0)) == WordsFrom(s, 0)
  {
    hide WordsFrom;
    if WordsFrom(s, 0).Some? {
      assert [] + WordsFrom(s, 0).value == WordsFrom(s, 0).value;
    }
  }

  lemma {:induction false} BeforeNone(words: seq<string>)
    ensures Before(words, None) == None
  {
  }

  lemma {:induction false} WordsEnd(s: string, words: seq<string>)
    ensures Before(words, WordsFrom(s, |s|)) == Some(words)
  {
    assert words + [] == words;
  }

  function Before(words: seq<string>, rest: Option<seq<string>>): Option<seq<string>> {
    if rest.None? then None else Some(words + rest.value)
  }

  lemma {:induction false} BeforeBefore(words: seq<string>, word: string, rest: Option<seq<string>>)
    ensures Before(words + [word], rest) == Before(words, Before([word], rest))
  {
    if rest.Some? {
      assert (words + [word]) + rest.value == words + ([word] + rest.value);
    }
  }
}
