// Lines that the check for open quotes misreads, one of each kind, and a fence with such a line, in which
// a line inside a double-quoted text is formatted.
module ShellMissedQuotes {
  import opened Text
  import opened ShellScan
  import opened ShellShape
  import opened ShellConserve
  import opened ShellLayout
  import opened ShellReading
  import opened ShellFormat
  import opened ShellEscapedBlank
  import opened ShellGuard
  import opened ShellOpenQuotes
  import opened ShellFenceQuotes

  // The fence of the example: the text between the first and the last `"` is one double-quoted word,
  // with a command substitution, a `;` and a line break inside.
  const LINE_1 := "\"$('\"')'"
  const LINE_2 := "a; b '\"'"
  const LINE_3 := "\\'"

  predicate FlatAt(line: string, i: nat, mode: Flat.Mode) {
    i <= |line| && Flat.Read(Flat.START, line[..i]).mode == mode
  }

  lemma {:induction false} FlatStep(line: string, i: nat, mode: Flat.Mode, next: Flat.Mode)
    requires FlatAt(line, i, mode) && i < |line|
    requires Flat.Next(Flat.START.(mode := mode), line[i]).mode == next
    ensures FlatAt(line, i + 1, next)
  {
    hide Flat.Read, IsSpace;
    ReadMore(line, i);
  }

  lemma {:induction false} FlatStart(line: string)
    ensures FlatAt(line, 0, Flat.Plain)
  {
    assert line[..0] == "";
  }

  lemma {:induction false} FlatFirst()
    ensures FlatAt(LINE_1, 8, Flat.Plain)
  {
    assert !IsSpace('"') && !IsSpace('\'');
    hide FlatAt, IsSpace;
    FlatStart(LINE_1);
    FlatStep(LINE_1, 0, Flat.Plain, Flat.Double);
    FlatStep(LINE_1, 1, Flat.Double, Flat.Double);
    FlatStep(LINE_1, 2, Flat.Double, Flat.Double);
    FlatStep(LINE_1, 3, Flat.Double, Flat.Double);
    FlatStep(LINE_1, 4, Flat.Double, Flat.Plain);
    FlatStep(LINE_1, 5, Flat.Plain, Flat.Single);
    FlatStep(LINE_1, 6, Flat.Single, Flat.Single);
    FlatStep(LINE_1, 7, Flat.Single, Flat.Plain);
  }

  lemma {:induction false} NoComment(line: string)
    requires Without(line, '#')
    ensures CommentFrom(line, 0) == |line| && line[..|line|] == line
  {
    hide WordMayStart, Flat.Read;
  }

  predicate NestAt(t: State, line: string, i: nat, nest: Reading) {
    i <= |line| && Reads(t, line[..i]).nest == nest && !Reads(t, line[..i]).comment
  }

  lemma {:induction false} NestStep(t: State, line: string, i: nat, nest: Reading, next: Reading)
    requires NestAt(t, line, i, nest) && i < |line| && Next(nest, line[i]) == next
    requires line[i] != '#' || Last(nest.stack) == Some(DollarBrace)
    ensures NestAt(t, line, i + 1, next)
  {
    hide Reads, Next, IsWordStart;
    ReadsMore(t, line, i);
  }

  lemma {:induction false} NestStart(t: State, line: string)
    requires !t.comment
    ensures NestAt(t, line, 0, t.nest)
  {
    assert line[..0] == "";
  }

  lemma {:induction false} NestedFirst()
    ensures NestAt(FIRST, LINE_1, 4, Reading([Double, Paren], Single))
    ensures NestAt(FIRST, LINE_1, 8, Reading([Double], Bare))
  {
    hide NestAt;
    NestStart(FIRST, LINE_1);
    NestStep(FIRST, LINE_1, 0, OPEN, Reading([Double], Bare));
    NestStep(FIRST, LINE_1, 1, Reading([Double], Bare), Reading([Double], Dollar));
    NestStep(FIRST, LINE_1, 2, Reading([Double], Dollar), Reading([Double, Paren], Bare));
    NestStep(FIRST, LINE_1, 3, Reading([Double, Paren], Bare), Reading([Double, Paren], Single));
    NestStep(FIRST, LINE_1, 4, Reading([Double, Paren], Single), Reading([Double, Paren], Single));
    NestStep(FIRST, LINE_1, 5, Reading([Double, Paren], Single), Reading([Double, Paren], Bare));
    NestStep(FIRST, LINE_1, 6, Reading([Double, Paren], Bare), Reading([Double], Bare));
    NestStep(FIRST, LINE_1, 7, Reading([Double], Bare), Reading([Double], Bare));
  }

  lemma {:induction false} FlatClosed(line: string)
    requires Without(line, '#') && FlatAt(line, |line|, Flat.Plain)
    ensures !LeavesQuoteOpen(line)
  {
    NoComment(line);
    hide Flat.Read, CommentFrom;
  }

  // The check takes the nested `"` for the end: the line counts as closed, while it ends in double quotes.
  lemma {:induction false} NestedQuoteIsMissed()
    ensures !LeavesQuoteOpen(LINE_1) && InQuote(Reads(FIRST, LINE_1)) && Misread(FIRST, LINE_1, 4)
  {
    hide FlatAt, LeavesQuoteOpen;
    FlatFirst();
    FlatClosed(LINE_1);
    NestedFirst();
    hide Reads, CommentFrom;
    assert LINE_1[..8] == LINE_1;
    assert Reads(FIRST, LINE_1[..4]).nest.stack == [Double, Paren];
    assert BackslashRun(LINE_1, 4) == 0;
  }

  const LINE_ANSI := "$'a\\'"

  lemma {:induction false} FlatAnsi()
    ensures FlatAt(LINE_ANSI, 5, Flat.Plain)
  {
    assert !IsSpace('$');
    hide FlatAt, IsSpace;
    FlatStart(LINE_ANSI);
    FlatStep(LINE_ANSI, 0, Flat.Plain, Flat.Plain);
    FlatStep(LINE_ANSI, 1, Flat.Plain, Flat.Single);
    FlatStep(LINE_ANSI, 2, Flat.Single, Flat.Single);
    FlatStep(LINE_ANSI, 3, Flat.Single, Flat.Single);
    FlatStep(LINE_ANSI, 4, Flat.Single, Flat.Plain);
  }

  lemma {:induction false} NestedAnsi()
    ensures NestAt(FIRST, LINE_ANSI, 4, Reading([], AnsiEscaped)) && NestAt(FIRST, LINE_ANSI, 5, Reading([], Ansi))
  {
    hide NestAt;
    NestStart(FIRST, LINE_ANSI);
    NestStep(FIRST, LINE_ANSI, 0, OPEN, Reading([], Dollar));
    NestStep(FIRST, LINE_ANSI, 1, Reading([], Dollar), Reading([], Ansi));
    NestStep(FIRST, LINE_ANSI, 2, Reading([], Ansi), Reading([], Ansi));
    NestStep(FIRST, LINE_ANSI, 3, Reading([], Ansi), Reading([], AnsiEscaped));
    NestStep(FIRST, LINE_ANSI, 4, Reading([], AnsiEscaped), Reading([], Ansi));
  }

  // The line `$'a\'` counts as closed: the check takes the escaped `'` for the end.
  lemma {:induction false} AnsiQuoteIsMissed()
    ensures !LeavesQuoteOpen(LINE_ANSI) && InQuote(Reads(FIRST, LINE_ANSI)) && Misread(FIRST, LINE_ANSI, 4)
  {
    FlatAnsi();
    NestedAnsi();
    hide FlatAt, NestAt, LeavesQuoteOpen, InQuote, Misread, Reads;
    FlatClosed(LINE_ANSI);
    AnsiMarks(LINE_ANSI);
  }

  lemma {:induction false} AnsiMarks(line: string)
    requires |line| == 5 && line[4] == '\'' && NestAt(FIRST, line, 4, Reading([], AnsiEscaped))
    requires NestAt(FIRST, line, 5, Reading([], Ansi))
    ensures InQuote(Reads(FIRST, line)) && Misread(FIRST, line, 4)
  {
    assert line[..5] == line;
    hide Reads, CommentFrom;
  }

  const LINE_HASH := "${ #'"

  lemma {:induction false} FlatHash()
    ensures FlatAt(LINE_HASH, 2, Flat.Plain) && FlatAt(LINE_HASH, 3, Flat.Plain)
  {
    assert !IsSpace('$') && !IsSpace('{');
    hide FlatAt, IsSpace;
    FlatStart(LINE_HASH);
    FlatStep(LINE_HASH, 0, Flat.Plain, Flat.Plain);
    FlatStep(LINE_HASH, 1, Flat.Plain, Flat.Plain);
    FlatStep(LINE_HASH, 2, Flat.Plain, Flat.Plain);
  }

  lemma {:induction false} NestedHash()
    ensures NestAt(FIRST, LINE_HASH, 4, Reading([DollarBrace], Bare)) && NestAt(FIRST, LINE_HASH, 5, Reading([DollarBrace], Single))
  {
    hide NestAt;
    NestStart(FIRST, LINE_HASH);
    NestStep(FIRST, LINE_HASH, 0, OPEN, Reading([], Dollar));
    NestStep(FIRST, LINE_HASH, 1, Reading([], Dollar), Reading([DollarBrace], Bare));
    NestStep(FIRST, LINE_HASH, 2, Reading([DollarBrace], Bare), Reading([DollarBrace], Bare));
    NestStep(FIRST, LINE_HASH, 3, Reading([DollarBrace], Bare), Reading([DollarBrace], Bare));
    NestStep(FIRST, LINE_HASH, 4, Reading([DollarBrace], Bare), Reading([DollarBrace], Single));
  }

  // The line `${ #'` counts as closed: the check takes the `#` for a comment.
  lemma {:induction false} HashInExpansionIsMissed()
    ensures !LeavesQuoteOpen(LINE_HASH) && InQuote(Reads(FIRST, LINE_HASH)) && Misread(FIRST, LINE_HASH, 4)
  {
    FlatHash();
    NestedHash();
    hide FlatAt, NestAt, LeavesQuoteOpen, InQuote, Misread, Reads, CommentFrom;
    HashStops(LINE_HASH);
    HashMarks(LINE_HASH);
  }

  lemma {:induction false} HashStops(line: string)
    requires |line| == 5 && line[3] == '#' && line[2] == ' ' && FlatAt(line, 2, Flat.Plain) && FlatAt(line, 3, Flat.Plain)
    requires line[0] != '#' && line[1] != '#'
    ensures CommentFrom(line, 0) == 3 && !LeavesQuoteOpen(line)
  {
    assert IsWordStart(Some(' '));
    hide Flat.Read, IsWordStart;
    assert StartsComment(line, 3);
    CommentNext(line, 0);
    CommentNext(line, 1);
    CommentNext(line, 2);
    CommentNext(line, 3);
  }

  lemma {:induction false} HashMarks(line: string)
    requires |line| == 5 && line[4] == '\'' && NestAt(FIRST, line, 4, Reading([DollarBrace], Bare))
    requires NestAt(FIRST, line, 5, Reading([DollarBrace], Single)) && CommentFrom(line, 0) == 3
    ensures InQuote(Reads(FIRST, line)) && Misread(FIRST, line, 4)
  {
    assert line[..5] == line;
    hide Reads, CommentFrom;
  }

  // Without a `#` the shell's reading is the scanner's.
  lemma {:induction false} NestIsRead(line: string, i: nat)
    requires i <= |line| && Without(line, '#')
    ensures Reads(FIRST, line[..i]).nest == Read(OPEN, line[..i]) && !Reads(FIRST, line[..i]).comment
  {
    hide Read, Next, IsWordStart;
    if i == 0 {
      assert line[..0] == "";
      ReadNone(OPEN);
    } else {
      NestIsRead(line, i - 1);
      ReadsMore(FIRST, line, i - 1);
      assert line[..i] == line[..i - 1] + [line[i - 1]];
      ReadConcat(OPEN, line[..i - 1], [line[i - 1]]);
      ReadOne(Read(OPEN, line[..i - 1]), line[i - 1]);
    }
  }

  lemma {:induction false} LinesOfFormat(command: string, width: nat)
    requires FormatLines(command, width, true).Some?
    ensures var lines := FormatLines(command, width, true).value; Lines(Join(lines, "\n")) == lines
  {
    hide FormatLines, Lines, Join, GoodLine, LinesInk;
    FormatLinesInk(command, width, true);
    var lines := FormatLines(command, width, true).value;
    GoodPlain(lines);
    LinesOfJoin(lines);
  }

  lemma {:induction false} LineParts(line: string, body: string, width: nat)
    requires body == TrimStart(line) && |body| <= |line|
    ensures var indent := line[..|line| - |body|];
            FenceLine(line, width) ==
            match FormatSpec(body, Minus(width, |indent|), true)
            case None => None
            case Some(formatted) => Some(Join(Indented(indent, Lines(formatted)), "\n"))
  {
    hide FormatSpec, TrimStart, Lines, Join, Indented, Minus;
  }

  lemma {:induction false} NothingLess(a: nat)
    ensures Minus(a, 0) == a
  {
  }

  lemma {:induction false} WholeLine(line: string, width: nat)
    requires line != "" && !IsSpace(line[0])
    ensures FenceLine(line, width) ==
            match FormatSpec(line, width, true)
            case None => None
            case Some(formatted) => Some(Join(Indented("", Lines(formatted)), "\n"))
  {
    BodyOf(line);
    hide *;
    LineParts(line, line, width);
    NothingLess(width);
  }

  // A line that starts with a visible character is formatted as the command it is.
  lemma {:induction false} Unindented(line: string, width: nat)
    requires line != "" && !IsSpace(line[0])
    ensures FenceLine(line, width) == FormatSpec(line, width, true)
  {
    WholeLine(line, width);
    hide IsSpace, FenceLine, FormatLines, Lines, Join, Indented;
    if FormatLines(line, width, true).Some? {
      LinesOfFormat(line, width);
      NoIndent(FormatLines(line, width, true).value);
    }
  }

  lemma {:induction false} NoIndent(lines: seq<string>)
    ensures Indented("", lines) == lines
  {
    assert forall k :: 0 <= k < |lines| ==> "" + lines[k] == lines[k];
  }

  lemma {:induction false} BodyOf(line: string)
    requires line != "" && !IsSpace(line[0])
    ensures TrimStart(line) == line && line[..0] == ""
  {
    hide IsSpace;
  }

  lemma {:induction false} FirstUnscanned()
    ensures ScanSpec(LINE_1).None?
  {
    NestedFirst();
    NestIsRead(LINE_1, 8);
    assert LINE_1[..8] == LINE_1;
    hide Read, Reads, ScanSpec;
    if ScanSpec(LINE_1).Some? {
      ScannedIsLevel(LINE_1);
    }
  }

  lemma {:induction false} FirstStays(width: nat)
    ensures FenceLine(LINE_1, width) == None
  {
    FirstUnscanned();
    assert !IsSpace('"');
    hide ScanSpec, IsSpace, FenceLine;
    Unindented(LINE_1, width);
  }

  // ----- the second line -----

  lemma {:induction false} Visible()
    ensures IsSpace(' ') && !IsSpace('a') && !IsSpace('b') && !IsSpace('\'') && !IsSpace('\\') && !IsSpace(';') && !IsSpace('"')
  {
  }

  const STAGE_A := Stage("a", [])
  const STAGE_B := Stage("b '\"'", [])
  const SEGMENT_A := Segment([STAGE_A], Semi)
  const SEGMENT_B := Segment([STAGE_B], NoSep)

  function Here(i: nat, segments: seq<Segment>, current: string): Pos {
    Pos(i, [], 0, Scan(segments, [], current, [], false))
  }

  // One character copied outside all nesting.
  lemma {:induction false} Copies(chars: string, i: nat, n: nat, segments: seq<Segment>, current: string, plain: bool)
    requires i < |chars| && 0 < n && i + n <= |chars| && NextAct(chars, i, [], 0) == Copy(n, [], 0, plain)
    requires Without(chars, '-')
    ensures Ok(chars, Here(i, segments, current))
    ensures Step(chars, Here(i, segments, current)) == Some(Here(i + n, segments, current + chars[i..i + n]))
  {
    hide NextAct, Trim, IsSpace;
  }

  lemma {:induction false} PlainAct(chars: string, i: nat)
    requires i < |chars| && (chars[i] == 'a' || chars[i] == 'b' || chars[i] == ' ')
    ensures NextAct(chars, i, [], 0) == Copy(1, [], 0, true)
  {
    hide IsSpace, CloseQuote;
  }

  lemma {:induction false} QuoteAct(chars: string, i: nat)
    requires i + 2 < |chars| && chars[i..i + 3] == "'\"'" && i > 0 && chars[i - 1] == ' '
    ensures NextAct(chars, i, [], 0) == Copy(3, [], 0, false)
  {
    assert chars[i] == chars[i..i + 3][0] && chars[i + 1] == chars[i..i + 3][1] && chars[i + 2] == chars[i..i + 3][2];
    assert CloseQuote(chars, i + 1, false) == CloseQuote(chars, i + 2, false) == Some(i + 2);
    hide IsSpace;
  }

  lemma {:induction false} ReadsOn(chars: string, i: nat, n: nat, segments: seq<Segment>, current: string, plain: bool, next: string)
    requires i < |chars| && 0 < n && i + n <= |chars| && NextAct(chars, i, [], 0) == Copy(n, [], 0, plain)
    requires Without(chars, '-') && next == current + chars[i..i + n]
    requires Ok(chars, Here(i + n, segments, next))
    ensures Ok(chars, Here(i, segments, current))
    ensures ScanFrom(chars, Here(i, segments, current)) == ScanFrom(chars, Here(i + n, segments, next))
  {
    hide NextAct, FlagsGrowing, Step;
    Copies(chars, i, n, segments, current, plain);
  }

  lemma {:induction false} EndsAt(chars: string, i: nat, segments: seq<Segment>, current: string)
    requires i <= |chars|
    ensures Ok(chars, Here(i, segments, current)) && TakeReady(Here(i, segments, current).sc)
  {
    hide IsSpace;
  }

  lemma {:induction false} SecondActs()
    ensures NextAct(LINE_2, 2, [], 0) == NextAct(LINE_2, 3, [], 0) == NextAct(LINE_2, 4, [], 0) == Copy(1, [], 0, true)
    ensures NextAct(LINE_2, 5, [], 0) == Copy(3, [], 0, false)
    ensures LINE_2[2..3] == " " && LINE_2[3..4] == "b" && LINE_2[4..5] == " " && LINE_2[5..8] == "'\"'"
    ensures Without(LINE_2, '-') && |LINE_2| == 8
  {
    hide NextAct;
    PlainAct(LINE_2, 2);
    PlainAct(LINE_2, 3);
    PlainAct(LINE_2, 4);
    assert LINE_2[5..8] == "'\"'";
    QuoteAct(LINE_2, 5);
  }

  lemma {:induction false} ReadsSecond()
    ensures Ok(LINE_2, Here(2, [SEGMENT_A], "")) && Ok(LINE_2, Here(8, [SEGMENT_A], " b '\"'"))
    ensures ScanFrom(LINE_2, Here(2, [SEGMENT_A], "")) == ScanFrom(LINE_2, Here(8, [SEGMENT_A], " b '\"'"))
  {
    hide NextAct, Ok, ScanFrom, Without, Here;
    SecondActs();
    EndsAt(LINE_2, 8, [SEGMENT_A], " b '\"'");
    ReadsOn(LINE_2, 5, 3, [SEGMENT_A], " b ", false, " b '\"'");
    ReadsOn(LINE_2, 4, 1, [SEGMENT_A], " b", true, " b ");
    ReadsOn(LINE_2, 3, 1, [SEGMENT_A], " ", true, " b");
    ReadsOn(LINE_2, 2, 1, [SEGMENT_A], "", true, " ");
  }

  lemma {:induction false} TrimA()
    ensures Trim("a") == "a"
  {
    Visible();
    hide IsSpace;
    assert "a"[0..] == "a" && TailStart("a", 1) == 1 && "a"[..1] == "a";
  }

  lemma {:induction false} TrimB()
    ensures Trim(" b '\"'") == "b '\"'"
  {
    Visible();
    hide IsSpace;
    assert LeadEnd(" b '\"'", 1) == 1;
    assert LeadEnd(" b '\"'", 0) == 1;
    assert " b '\"'"[1..] == "b '\"'";
    var rest := "b '\"'";
    assert TailStart(rest, 5) == 5 && rest[..5] == rest;
  }

  lemma {:induction false} TrimC()
    ensures Trim(LINE_3) == LINE_3
  {
    Visible();
    hide IsSpace;
    assert LINE_3[0..] == LINE_3 && TailStart(LINE_3, 2) == 2 && LINE_3[..2] == LINE_3;
  }

  lemma {:induction false} CutAt()
    ensures Ok(LINE_2, Here(1, [], "a")) && Step(LINE_2, Here(1, [], "a")) == Some(Here(2, [SEGMENT_A], ""))
  {
    TrimA();
    Takes(Scan([], [], "a", [], false), "a", Semi);
    assert NextAct(LINE_2, 1, [], 0) == Cut(Semi, 1);
    assert [] + [SEGMENT_A] == [SEGMENT_A];
    hide NextAct, Trim, SegmentEnded;
    EndsAt(LINE_2, 1, [], "a");
  }

  lemma {:induction false} ScanGoesOn(chars: string, p: Pos, q: Pos)
    requires Ok(chars, p) && p.i < |chars| && Step(chars, p) == Some(q) && Ok(chars, q)
    ensures ScanFrom(chars, p) == ScanFrom(chars, q)
  {
    hide Step, FlagsGrowing;
  }

  lemma {:induction false} FirstAct()
    ensures NextAct(LINE_2, 0, [], 0) == Copy(1, [], 0, true) && "" + LINE_2[0..1] == "a"
    ensures Without(LINE_2, '-') && |LINE_2| == 8
  {
    hide NextAct;
    PlainAct(LINE_2, 0);
  }

  lemma {:induction false} CutsSecond()
    requires Ok(LINE_2, Here(2, [SEGMENT_A], ""))
    ensures Ok(LINE_2, Here(0, [], ""))
    ensures ScanFrom(LINE_2, Here(0, [], "")) == ScanFrom(LINE_2, Here(2, [SEGMENT_A], ""))
  {
    CutAt();
    FirstAct();
    hide NextAct, Ok, Step, ScanFrom, Without;
    ScanGoesOn(LINE_2, Here(1, [], "a"), Here(2, [SEGMENT_A], ""));
    hide Here;
    ReadsOn(LINE_2, 0, 1, [], "", true, "a");
  }

  lemma {:induction false} SecondScanned()
    ensures ScanSpec(LINE_2) == Some([SEGMENT_A, SEGMENT_B])
  {
    ReadsSecond();
    TrimB();
    Takes(Scan([SEGMENT_A], [], " b '\"'", [], false), "b '\"'", NoSep);
    assert [SEGMENT_A] + [SEGMENT_B] == [SEGMENT_A, SEGMENT_B];
    hide NextAct, Trim, SegmentEnded, Step, FlagsGrowing;
    CutsSecond();
    assert |LINE_2| == 8;
  }

  lemma {:induction false} ThirdScanned()
    ensures ScanSpec(LINE_3) == Some([Segment([Stage(LINE_3, [])], NoSep)])
  {
    TrimC();
    Takes(Scan([], [], LINE_3, [], false), LINE_3, NoSep);
    assert NextAct(LINE_3, 0, [], 0) == Copy(2, [], 0, false);
    assert LINE_3[0..2] == LINE_3 && "" + LINE_3 == LINE_3;
    var seg := Segment([Stage(LINE_3, [])], NoSep);
    assert [] + [seg] == [seg];
    hide NextAct, Trim, SegmentEnded, Step, FlagsGrowing;
    EndsAt(LINE_3, 2, [], LINE_3);
    ReadsOn(LINE_3, 0, 2, [], "", false, LINE_3);
  }

  lemma {:induction false} WordA()
    ensures StagesOk([STAGE_A]) && ParseKeyword(FirstWord("a")).None?
  {
    Visible();
    hide IsSpace;
    assert WordEnd("a", 1) == 1;
    assert FirstWord("a") == "a";
  }

  lemma {:induction false} WordB()
    ensures StagesOk([STAGE_B]) && ParseKeyword(FirstWord("b '\"'")).None?
  {
    Visible();
    hide IsSpace;
    assert WordEnd("b '\"'", 1) == 1;
    assert FirstWord("b '\"'") == "b";
  }

  lemma {:induction false} WordC()
    ensures StagesOk([Stage(LINE_3, [])]) && ParseKeyword(FirstWord(LINE_3)).None?
  {
    Visible();
    hide IsSpace;
    assert WordEnd(LINE_3, 2) == 2 && WordEnd(LINE_3, 1) == 2;
    assert FirstWord(LINE_3) == LINE_3;
  }

  lemma {:induction false} SecondSplit(width: nat)
    ensures FenceLine(LINE_2, width) == Some("a;\nb '\"'")
  {
    Visible();
    SecondScanned();
    WordA();
    WordB();
    hide ScanSpec, IsSpace, FenceLine, LayoutSpec, FirstWord, ParseKeyword, StagesOk;
    TwoLaidOut("a", "b '\"'", width);
    Unindented(LINE_2, width);
    assert [SEGMENT_A, SEGMENT_B][0].sep == Semi;
    assert HasSequence([SEGMENT_A, SEGMENT_B]);
    assert "a" + ";" == "a;";
    assert FormatLines(LINE_2, width, true) == Some(["a;", "b '\"'"]);
    assert ["a;", "b '\"'"][1..] == ["b '\"'"];
    assert "a;" + "\n" + "b '\"'" == "a;\nb '\"'";
  }

  lemma {:induction false} ThirdStays(width: nat)
    ensures FenceLine(LINE_3, width) == None
  {
    Visible();
    ThirdScanned();
    WordC();
    var seg := Segment([Stage(LINE_3, [])], NoSep);
    hide ScanSpec, IsSpace, FenceLine, FirstWord, ParseKeyword, StagesOk, PlaceSegment, SegmentOk;
    Unindented(LINE_3, width);
    Placed([], LINE_3, NoSep, width);
    if SegmentsOk([seg]) {
      assert LayUpTo([seg], 0, width, true) == Some(Lay([], [], false));
      assert LayUpTo([seg], 1, width, true) == Some(Lay([] + [LINE_3 + Suffix(NoSep, true)], [], false));
    }
  }

  // ----- the whole fence -----

  lemma {:induction false} NotBlocked(line: string)
    requires line != "" && !IsSpace(line[|line| - 1]) && !EndsOpen(line)
    requires Without(line, '<') && Without(line, '#') && FlatAt(line, |line|, Flat.Plain)
    ensures !BlocksFence(line)
  {
    FlatClosed(line);
    hide IsSpace, LeavesQuoteOpen, FlatAt;
    assert TailStart(line, |line|) == |line|;
    assert line[..|line|] == line;
  }

  lemma {:induction false} FlatRest()
    ensures FlatAt(LINE_2, 8, Flat.Plain) && FlatAt(LINE_3, 2, Flat.Plain)
  {
    Visible();
    hide FlatAt, IsSpace;
    FlatStart(LINE_2);
    FlatStep(LINE_2, 0, Flat.Plain, Flat.Plain);
    FlatStep(LINE_2, 1, Flat.Plain, Flat.Plain);
    FlatStep(LINE_2, 2, Flat.Plain, Flat.Plain);
    FlatStep(LINE_2, 3, Flat.Plain, Flat.Plain);
    FlatStep(LINE_2, 4, Flat.Plain, Flat.Plain);
    FlatStep(LINE_2, 5, Flat.Plain, Flat.Single);
    FlatStep(LINE_2, 6, Flat.Single, Flat.Single);
    FlatStep(LINE_2, 7, Flat.Single, Flat.Plain);
    FlatStart(LINE_3);
    FlatStep(LINE_3, 0, Flat.Plain, Flat.Escaped);
    FlatStep(LINE_3, 1, Flat.Escaped, Flat.Plain);
  }

  lemma {:induction false} NoneBlocked()
    ensures !BlocksFence(LINE_1) && !BlocksFence(LINE_2) && !BlocksFence(LINE_3)
  {
    Visible();
    FlatFirst();
    FlatRest();
    hide FlatAt, IsSpace, BlocksFence;
    NotBlocked(LINE_1);
    NotBlocked(LINE_2);
    NotBlocked(LINE_3);
  }

  lemma {:induction false} LineTaken(t: State, line: string, nest: Reading, next: Reading)
    requires NestAt(t, line, |line|, nest) && Next(nest, '\n') == next
    ensures Took(Reads(t, line), '\n').nest == next && !Took(Reads(t, line), '\n').comment
  {
    assert line[..|line|] == line;
    hide Reads, Next, IsWordStart;
  }

  lemma {:induction false} NestedRest(t: State, u: State)
    requires t.nest == Reading([Double], Bare) && !t.comment && u.nest == Reading([], Single) && !u.comment
    ensures NestAt(t, LINE_2, 8, Reading([], Single))
    ensures NestAt(u, LINE_3, 2, OPEN)
  {
    hide NestAt;
    NestStart(t, LINE_2);
    NestStep(t, LINE_2, 0, Reading([Double], Bare), Reading([Double], Bare));
    NestStep(t, LINE_2, 1, Reading([Double], Bare), Reading([Double], Bare));
    NestStep(t, LINE_2, 2, Reading([Double], Bare), Reading([Double], Bare));
    NestStep(t, LINE_2, 3, Reading([Double], Bare), Reading([Double], Bare));
    NestStep(t, LINE_2, 4, Reading([Double], Bare), Reading([Double], Bare));
    NestStep(t, LINE_2, 5, Reading([Double], Bare), Reading([Double], Bare));
    NestStep(t, LINE_2, 6, Reading([Double], Bare), OPEN);
    NestStep(t, LINE_2, 7, OPEN, Reading([], Single));
    NestStart(u, LINE_3);
    NestStep(u, LINE_3, 0, Reading([], Single), Reading([], Single));
    NestStep(u, LINE_3, 1, Reading([], Single), OPEN);
  }

  // The block as a whole leaves no quote open; its second and third lines start inside one.
  lemma {:induction false} LinesInQuotes()
    ensures var lines := [LINE_1, LINE_2, LINE_3];
            && StateAt(lines, 1).nest == Reading([Double], Bare) && StateAt(lines, 2).nest == Reading([], Single)
            && StateAt(lines, 3).nest == OPEN
  {
    var lines := [LINE_1, LINE_2, LINE_3];
    NestedFirst();
    hide NestAt, Took, Reads;
    LineTaken(FIRST, LINE_1, Reading([Double], Bare), Reading([Double], Bare));
    assert StateAt(lines, 0) == FIRST && lines[0] == LINE_1 && lines[1] == LINE_2 && lines[2] == LINE_3;
    var t := StateAt(lines, 1);
    assert t == Took(Reads(FIRST, LINE_1), '\n');
    var u := StateAt(lines, 2);
    assert u == Took(Reads(t, LINE_2), '\n');
    SecondTaken(t);
    ThirdTaken(u);
    assert StateAt(lines, 3) == Took(Reads(u, LINE_3), '\n');
  }

  lemma {:induction false} SecondTaken(t: State)
    requires t.nest == Reading([Double], Bare) && !t.comment
    ensures var u := Took(Reads(t, LINE_2), '\n'); u.nest == Reading([], Single) && !u.comment
  {
    hide NestAt, Took, Reads;
    NestedRest(t, State(Reading([], Single), false, false));
    LineTaken(t, LINE_2, Reading([], Single), Reading([], Single));
  }

  lemma {:induction false} ThirdTaken(u: State)
    requires u.nest == Reading([], Single) && !u.comment
    ensures Took(Reads(u, LINE_3), '\n').nest == OPEN
  {
    hide NestAt, Took, Reads;
    NestedRest(State(Reading([Double], Bare), false, false), u);
    LineTaken(u, LINE_3, OPEN, OPEN);
  }

  // A blank of the quoted text becomes a line break, at every width.
  lemma {:induction false} QuotedBlankIsLost(width: nat)
    ensures var lines := [LINE_1, LINE_2, LINE_3];
            && InQuote(StateAt(lines, 1)) && !InQuote(StateAt(lines, 3))
            && FormatFenceSpec(Join(lines, "\n"), width) == Some(Join([LINE_1, "a;\nb '\"'", LINE_3], "\n"))
  {
    LinesInQuotes();
    NoneBlocked();
    FirstStays(width);
    SecondSplit(width);
    ThirdStays(width);
    hide BlocksFence, FenceLine, StateAt, Lines, Join;
    var lines := [LINE_1, LINE_2, LINE_3];
    LinesOfJoin(lines);
    assert FenceItem(lines[0], width) == LINE_1 && FenceItem(lines[1], width) == "a;\nb '\"'" && FenceItem(lines[2], width) == LINE_3;
    assert FenceItems(lines, width) == [LINE_1, "a;\nb '\"'", LINE_3];
    assert FenceLine(lines[1], width).Some?;
  }
}
