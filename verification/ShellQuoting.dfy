// Shell words read one character at a time, and quoting undone by splitting.
// The quoting rules are those of section 2.2 of the POSIX Shell Command Language.
module ShellQuoting {
  import opened Text
  import opened ShellWords

  datatype Mode = Plain | Escaped | Single | Double | DoubleEscaped

  // The reader between two characters: the word under way, if any, and the words before it.
  datatype Reader = Reader(mode: Mode, word: Option<string>, words: seq<string>)

  const START := Reader(Plain, None, [])

  function Add(r: Reader, mode: Mode, c: char): Reader {
    Reader(mode, Some(r.word.GetOr("") + [c]), r.words)
  }

  function Next(r: Reader, c: char): Reader {
    match r.mode
    case Plain =>
      if IsSpace(c) then Reader(Plain, None, if r.word.Some? then r.words + [r.word.value] else r.words)
      else if c == '\\' then Reader(Escaped, Some(r.word.GetOr("")), r.words)
      else if c == '\'' then Reader(Single, Some(r.word.GetOr("")), r.words)
      else if c == '"' then Reader(Double, Some(r.word.GetOr("")), r.words)
      else Add(r, Plain, c)
    case Escaped => Add(r, Plain, c)
    case Single => if c == '\'' then r.(mode := Plain) else Add(r, Single, c)
    case Double =>
      if c == '"' then r.(mode := Plain)
      else if c == '\\' then r.(mode := DoubleEscaped)
      else Add(r, Double, c)
    case DoubleEscaped => Add(r, Double, c)
  }

  function Read(r: Reader, s: string): Reader
    decreases |s|
  {
    if s == "" then r else Read(Next(r, s[0]), s[1..])
  }

  predicate QuoteOpen(r: Reader) {
    r.mode.Single? || r.mode.Double? || r.mode.DoubleEscaped?
  }

  // The words read, or nothing when a quote is open. A lone backslash at the end stands for itself.
  function Close(r: Reader): Option<seq<string>> {
    if QuoteOpen(r) then None
    else
      var word := if r.mode.Escaped? then Some(r.word.GetOr("") + "\\") else r.word;
      Some(if word.Some? then r.words + [word.value] else r.words)
  }

  // ----- the splitter reads the same words -----

  lemma {:induction false} ReadConcat(r: Reader, a: string, b: string)
    ensures Read(r, a + b) == Read(Read(r, a), b)
    decreases |a|
  {
    hide Next;
    if a == "" {
      assert a + b == b;
    } else {
      assert (a + b)[1..] == a[1..] + b;
      ReadConcat(Next(r, a[0]), a[1..], b);
    }
  }

  lemma {:induction false} ReadStep(r: Reader, s: string, i: nat)
    requires i < |s|
    ensures Read(r, s[i..]) == Read(Next(r, s[i]), s[i + 1..])
  {
    assert s[i..][1..] == s[i + 1..];
  }

  function InWord(mode: Mode, word: string, words: seq<string>): Reader {
    Reader(mode, Some(word), words)
  }

  lemma {:induction false} ReadSingle(s: string, i: nat, word: string, words: seq<string>)
    requires i <= |s|
    ensures match SingleFrom(s, i)
            case None => QuoteOpen(Read(InWord(Single, word, words), s[i..]))
            case Some((text, next)) =>
              Read(InWord(Single, word, words), s[i..]) == Read(InWord(Plain, word + text, words), s[next..])
    decreases |s| - i
  {
    if i < |s| {
      ReadStep(InWord(Single, word, words), s, i);
      if s[i] == '\'' {
        assert s[i..i] == "" && word + "" == word;
      } else {
        ReadSingle(s, i + 1, word + [s[i]], words);
        var close := IndexFrom(s, '\'', i + 1);
        assert s[i..close] == [s[i]] + s[i + 1..close];
        assert (word + [s[i]]) + s[i + 1..close] == word + s[i..close];
      }
    }
  }

  lemma {:induction false} ReadDouble(s: string, i: nat, word: string, words: seq<string>)
    requires i <= |s|
    ensures match DoubleFrom(s, i)
            case None => QuoteOpen(Read(InWord(Double, word, words), s[i..]))
            case Some((text, next)) =>
              Read(InWord(Double, word, words), s[i..]) == Read(InWord(Plain, word + text, words), s[next..])
    decreases |s| - i
  {
    if i < |s| {
      ReadStep(InWord(Double, word, words), s, i);
      if s[i] == '"' {
        assert word + "" == word;
      } else {
        DoubleStep(s, i);
        hide DoubleFrom, Read;
        if s[i] != '\\' {
          ReadDouble(s, i + 1, word + [s[i]], words);
          Regroup(word, s[i], DoubleFrom(s, i + 1));
        } else if i + 1 < |s| {
          ReadStep(InWord(DoubleEscaped, word, words), s, i + 1);
          ReadDouble(s, i + 2, word + [s[i + 1]], words);
          Regroup(word, s[i + 1], DoubleFrom(s, i + 2));
        } else {
          ReadNothing(InWord(DoubleEscaped, word, words), s);
        }
      }
    }
  }

  lemma {:induction false} ReadNothing(r: Reader, s: string)
    ensures Read(r, s[|s|..]) == r
  {
  }

  lemma {:induction false} Regroup(word: string, c: char, rest: Option<(string, nat)>)
    ensures rest.Some? ==> (word + [c]) + rest.value.0 == word + ([c] + rest.value.0)
  {
  }

  lemma {:induction false} ReadPiece(s: string, i: nat, word: string, words: seq<string>)
    requires i < |s| && !IsSpace(s[i])
    ensures match PieceFrom(s, i)
            case None => Close(Read(InWord(Plain, word, words), s[i..])) == None
            case Some((text, next)) =>
              Close(Read(InWord(Plain, word, words), s[i..])) == Close(Read(InWord(Plain, word + text, words), s[next..]))
  {
    hide Read, DoubleFrom, SingleFrom, IsSpace;
    ReadStep(InWord(Plain, word, words), s, i);
    if s[i] == '\\' {
      if i + 1 < |s| {
        ReadStep(InWord(Escaped, word, words), s, i + 1);
      } else {
        ReadNothing(InWord(Escaped, word, words), s);
        ReadNothing(InWord(Plain, word + "\\", words), s);
      }
    } else if s[i] == '\'' {
      ReadSingle(s, i + 1, word, words);
    } else if s[i] == '"' {
      ReadDouble(s, i + 1, word, words);
    }
  }

  lemma {:induction false} ReadWordFrom(s: string, i: nat, word: string, words: seq<string>)
    requires i <= |s|
    ensures match WordFrom(s, i)
            case None => Close(Read(InWord(Plain, word, words), s[i..])) == None
            case Some((text, next)) =>
              && (next == |s| || IsSpace(s[next]))
              && Close(Read(InWord(Plain, word, words), s[i..])) == Close(Read(InWord(Plain, word + text, words), s[next..]))
    decreases |s| - i
  {
    hide Read, PieceFrom, IsSpace, WordFrom;
    if i == |s| || IsSpace(s[i]) {
      WordEnds(s, i);
      assert word + "" == word;
    } else {
      WordStep(s, i);
      ReadPiece(s, i, word, words);
      var piece := PieceFrom(s, i);
      if piece.Some? {
        var (text, next) := piece.value;
        ReadWordFrom(s, next, word + text, words);
        var rest := WordFrom(s, next);
        assert rest.Some? ==> (word + text) + rest.value.0 == word + (text + rest.value.0);
      }
    }
  }

  // A word starts like one already under way with nothing in it.
  lemma {:induction false} WordOpens(s: string, i: nat, words: seq<string>)
    requires i < |s| && !IsSpace(s[i])
    ensures Read(Reader(Plain, None, words), s[i..]) == Read(InWord(Plain, "", words), s[i..])
  {
    hide Read, IsSpace;
    ReadStep(Reader(Plain, None, words), s, i);
    ReadStep(InWord(Plain, "", words), s, i);
  }

  lemma {:induction false} ReadWords(s: string, i: nat, words: seq<string>)
    requires i <= |s|
    ensures Close(Read(Reader(Plain, None, words), s[i..])) == Before(words, WordsFrom(s, i))
    decreases |s| - i
  {
    hide Read, IsSpace, WordFrom, WordsFrom;
    if i == |s| {
      ReadNothing(Reader(Plain, None, words), s);
      WordsEnd(s, words);
    } else if IsSpace(s[i]) {
      WordsStep(s, i);
      ReadStep(Reader(Plain, None, words), s, i);
      ReadWords(s, i + 1, words);
    } else {
      WordsStep(s, i);
      WordOpens(s, i, words);
      ReadWordFrom(s, i, "", words);
      if WordFrom(s, i).Some? {
        var (word, next) := WordFrom(s, i).value;
        assert "" + word == word;
        ReadWordsOn(s, next, word, words);
        BeforeBefore(words, word, WordsFrom(s, next));
      }
    }
  }

  lemma {:induction false} ReadWordsOn(s: string, next: nat, word: string, words: seq<string>)
    requires next <= |s| && (next == |s| || IsSpace(s[next]))
    ensures Close(Read(InWord(Plain, word, words), s[next..])) == Before(words + [word], WordsFrom(s, next))
    decreases |s| - next, 1
  {
    hide Read, IsSpace, WordFrom, WordsFrom;
    if next == |s| {
      ReadNothing(InWord(Plain, word, words), s);
      WordsEnd(s, words + [word]);
    } else {
      ReadStep(InWord(Plain, word, words), s, next);
      WordsStep(s, next);
      ReadWords(s, next + 1, words + [word]);
    }
  }

  // The splitter finds the words a reader going character by character finds; it fails exactly
  // when the text ends inside a quote.
  lemma {:induction false} SplitReadsWords(s: string)
    ensures WordsFrom(s, 0) == Close(Read(START, s))
    ensures WordsFrom(s, 0).None? <==> QuoteOpen(Read(START, s))
  {
    hide Read, WordsFrom;
    ReadWords(s, 0, []);
    BeforeAll(s);
    assert s[0..] == s;
  }

  // ----- quoting -----

  // `text.replace('\'', "'\\''")`
  function Doubled(text: string): string {
    if text == "" then "" else (if text[0] == '\'' then "'\\''" else [text[0]]) + Doubled(text[1..])
  }

  function Quote(text: string): string {
    "'" + Doubled(text) + "'"
  }

  lemma {:induction false} ReadOne(r: Reader, c: char)
    ensures Read(r, [c]) == Next(r, c)
  {
    hide Next;
    assert [c][1..] == "";
  }

  lemma {:induction false} ReadEscapedQuote(word: string, words: seq<string>)
    ensures Read(InWord(Single, word, words), "'\\''") == InWord(Single, word + "'", words)
  {
    hide IsSpace;
    var s := "'\\''";
    assert s == s[0..];
    ReadStep(InWord(Single, word, words), s, 0);
    ReadStep(InWord(Plain, word, words), s, 1);
    ReadStep(InWord(Escaped, word, words), s, 2);
    NoBlanks();
    ReadStep(InWord(Plain, word + "'", words), s, 3);
    ReadNothing(InWord(Single, word + "'", words), s);
  }

  lemma {:induction false} NoBlanks()
    ensures !IsSpace('\'') && !IsSpace('\\')
  {
  }

  lemma {:induction false} ReadDoubled(text: string, word: string, words: seq<string>)
    ensures Read(InWord(Single, word, words), Doubled(text)) == InWord(Single, word + text, words)
    decreases |text|
  {
    if text == "" {
      assert word + "" == word;
    } else {
      hide Read;
      var first := if text[0] == '\'' then "'\\''" else [text[0]];
      ReadConcat(InWord(Single, word, words), first, Doubled(text[1..]));
      if text[0] == '\'' {
        ReadEscapedQuote(word, words);
      } else {
        ReadOne(InWord(Single, word, words), text[0]);
      }
      ReadDoubled(text[1..], word + [text[0]], words);
      assert (word + [text[0]]) + text[1..] == word + text;
    }
  }

  lemma {:induction false} ReadQuoted(text: string, words: seq<string>)
    ensures Read(Reader(Plain, None, words), Quote(text)) == InWord(Plain, text, words)
  {
    hide Read, Doubled, IsSpace;
    NoBlanks();
    var start := Reader(Plain, None, words);
    assert Quote(text) == "'" + (Doubled(text) + "'");
    ReadConcat(start, "'", Doubled(text) + "'");
    ReadOne(start, '\'');
    ReadConcat(InWord(Single, "", words), Doubled(text), "'");
    ReadDoubled(text, "", words);
    assert "" + text == text;
    ReadOne(InWord(Single, text, words), '\'');
  }

  // Quoted words, each followed by its own blanks.
  function Typed(texts: seq<string>, gaps: seq<string>): string
    requires |gaps| == |texts|
  {
    if texts == [] then "" else Quote(texts[0]) + gaps[0] + Typed(texts[1..], gaps[1..])
  }

  lemma {:induction false} ReadBlanks(blanks: string, word: Option<string>, words: seq<string>)
    requires AllSpace(blanks) && (blanks != "" || word.None?)
    ensures Read(Reader(Plain, word, words), blanks) ==
            Reader(Plain, None, if word.Some? then words + [word.value] else words)
    decreases |blanks|
  {
    hide IsSpace;
    if blanks != "" {
      ReadBlanks(blanks[1..], None, if word.Some? then words + [word.value] else words);
    }
  }

  lemma {:induction false} ReadTyped(texts: seq<string>, gaps: seq<string>, words: seq<string>)
    requires |gaps| == |texts|
    requires forall k :: 0 <= k < |gaps| ==> AllSpace(gaps[k]) && (k < |gaps| - 1 ==> gaps[k] != "")
    ensures Close(Read(Reader(Plain, None, words), Typed(texts, gaps))) == Some(words + texts)
    decreases |texts|
  {
    hide Quote, AllSpace;
    var start := Reader(Plain, None, words);
    if texts == [] {
      assert words + [] == words;
    } else {
      hide Read;
      var rest := Typed(texts[1..], gaps[1..]);
      assert Typed(texts, gaps) == Quote(texts[0]) + (gaps[0] + rest);
      ReadConcat(start, Quote(texts[0]), gaps[0] + rest);
      ReadQuoted(texts[0], words);
      ReadConcat(InWord(Plain, texts[0], words), gaps[0], rest);
      assert (words + [texts[0]]) + texts[1..] == words + texts;
      if gaps[0] != "" {
        ReadBlanks(gaps[0], Some(texts[0]), words);
        ReadTyped(texts[1..], gaps[1..], words + [texts[0]]);
      } else {
        ReadTypedEnd(texts, gaps, words);
      }
    }
  }

  lemma {:induction false} ReadTypedEnd(texts: seq<string>, gaps: seq<string>, words: seq<string>)
    requires |gaps| == |texts| == 1 && gaps[0] == ""
    ensures Close(Read(Read(InWord(Plain, texts[0], words), gaps[0]), Typed(texts[1..], gaps[1..]))) == Some(words + texts)
  {
    assert words + [texts[0]] == words + texts;
  }

  // Splitting undoes quoting: any words, quoted and set apart by any blanks, come back as they were.
  lemma {:induction false} SplitUndoesQuoting(lead: string, texts: seq<string>, gaps: seq<string>)
    requires AllSpace(lead) && |gaps| == |texts|
    requires forall k :: 0 <= k < |gaps| ==> AllSpace(gaps[k]) && (k < |gaps| - 1 ==> gaps[k] != "")
    ensures WordsFrom(lead + Typed(texts, gaps), 0) == Some(texts)
  {
    hide WordsFrom, Read, Close, AllSpace, Typed;
    SplitReadsWords(lead + Typed(texts, gaps));
    ReadConcat(START, lead, Typed(texts, gaps));
    ReadBlanks(lead, None, []);
    ReadTyped(texts, gaps, []);
    assert [] + texts == texts;
  }
}
