// Fenced cells in a chat message, and wrapping a shell command in one.
module ChatCell {
  import opened Text

  datatype Fence = Fence(openLine: nat, closeLine: nat, runtime: Option<string>, code: string)
  datatype Cell = Cell(runtime: string, code: string)

  // The backticks in front of `s`, from `i` on.
  function TicksEnd(s: string, i: nat): (end: nat)
    requires i <= |s|
    ensures i <= end <= |s|
    ensures forall k :: i <= k < end ==> s[k] == '`'
    ensures end < |s| ==> s[end] != '`'
    decreases |s| - i
  {
    if i < |s| && s[i] == '`' then TicksEnd(s, i + 1) else i
  }

  // How many backticks a line starts with, blanks aside.
  function Ticks(line: string): nat {
    TicksEnd(TrimStart(line), 0)
  }

  function Info(line: string): string {
    Trim(TrimStart(line)[Ticks(line)..])
  }

  function BacktickRun(line: string): Option<(nat, string)> {
    if Ticks(line) >= 3 then Some((Ticks(line), Info(line))) else None
  }

  function CellRuntime(info: string): Option<string> {
    if info == "" || info[0] != '!' then None
    else
      var runtime := info[1..];
      if runtime != "" && forall k :: 0 <= k < |runtime| ==> !IsSpace(runtime[k]) then Some(runtime) else None
  }

  // A line that ends a fence opened with so many backticks.
  predicate Closes(line: string, ticks: nat) {
    BacktickRun(line).Some? && BacktickRun(line).value.0 >= ticks && BacktickRun(line).value.1 == ""
  }

  // The first closing line at or after `at`, or the number of lines.
  function CloseFrom(lines: seq<string>, at: nat, ticks: nat): (close: nat)
    requires at <= |lines|
    ensures at <= close <= |lines|
    ensures forall k :: at <= k < close ==> !Closes(lines[k], ticks)
    ensures close < |lines| ==> Closes(lines[close], ticks)
    decreases |lines| - at
  {
    if at == |lines| || Closes(lines[at], ticks) then at else CloseFrom(lines, at + 1, ticks)
  }

  function FencesFrom(lines: seq<string>, index: nat): seq<Fence>
    requires index <= |lines|
    decreases |lines| - index
  {
    if index == |lines| then []
    else
      match BacktickRun(lines[index])
      case None => FencesFrom(lines, index + 1)
      case Some((ticks, info)) =>
        var close := CloseFrom(lines, index + 1, ticks);
        if close == |lines| then []
        else [Fence(index, close, CellRuntime(info), Join(lines[index + 1..close], "\n"))] +
             FencesFrom(lines, close + 1)
  }

  method Fences(message: string) returns (found: seq<Fence>)
    ensures found == FencesFrom(Lines(message), 0)
  {
    hide BacktickRun, CellRuntime, Lines, Join, Closes, FencesFrom, CloseFrom;
    var lines := Lines(message);
    var index := 0;
    found := [];
    Regrouped(FencesFrom(lines, 0), [], []);
    while index < |lines|
      invariant index <= |lines|
      invariant FencesFrom(lines, 0) == found + FencesFrom(lines, index)
      decreases |lines| - index
    {
      FencesRun(lines, index);
      var run := BacktickRun(lines[index]);
      if run.None? {
        index := index + 1;
        continue;
      }
      var (ticks, info) := run.value;
      var close := CloseFrom(lines, index + 1, ticks);
      if close == |lines| {
        Regrouped(found, [], []);
        return;
      }
      var fence := Fence(index, close, CellRuntime(info), Join(lines[index + 1..close], "\n"));
      Regrouped(found, [fence], FencesFrom(lines, close + 1));
      found := found + [fence];
      index := close + 1;
    }
    FencesRun(lines, index);
    Regrouped(found, [], []);
  }

  lemma {:induction false} Regrouped<T>(a: seq<T>, b: seq<T>, c: seq<T>)
    ensures a + (b + c) == (a + b) + c
    ensures a + [] == a
    ensures [] + a == a
  {
  }

  lemma {:induction false} FencesRun(lines: seq<string>, index: nat)
    requires index <= |lines|
    ensures FencesFrom(lines, index) ==
            if index == |lines| then []
            else
              match BacktickRun(lines[index])
              case None => FencesFrom(lines, index + 1)
              case Some((ticks, info)) =>
                var close := CloseFrom(lines, index + 1, ticks);
                if close == |lines| then []
                else [Fence(index, close, CellRuntime(info), Join(lines[index + 1..close], "\n"))] +
                     FencesFrom(lines, close + 1)
  {
    hide BacktickRun, CellRuntime, Join, Closes;
  }

  function CellsOf(fences: seq<Fence>): seq<Cell> {
    if fences == [] then [] else
      (if fences[0].runtime.Some? then [Cell(fences[0].runtime.value, fences[0].code)] else []) + CellsOf(fences[1..])
  }

  function ParseCells(message: string): seq<Cell> {
    CellsOf(FencesFrom(Lines(message), 0))
  }

  // ----- what the fences of a message are -----

  predicate NoRun(lines: seq<string>, from: nat, to: nat) {
    forall k :: from <= k < to && k < |lines| ==> Ticks(lines[k]) < 3
  }

  // From `index` on: the next fence opens at the next line with three backticks or more and closes
  // at the first later line with at least as many and nothing else; an unclosed one ends the list.
  ghost predicate FencesAre(fences: seq<Fence>, lines: seq<string>, index: nat)
    decreases |fences|
  {
    if fences == [] then
      || NoRun(lines, index, |lines|)
      || exists open :: index <= open < |lines| && NoRun(lines, index, open) && 3 <= Ticks(lines[open]) &&
           forall k :: open < k < |lines| ==> !Closes(lines[k], Ticks(lines[open]))
    else
      var (open, close) := (fences[0].openLine, fences[0].closeLine);
      && index <= open < close < |lines|
      && NoRun(lines, index, open) && 3 <= Ticks(lines[open])
      && Ticks(lines[close]) >= Ticks(lines[open]) && Info(lines[close]) == ""
      && (forall k :: open < k < close ==> !Closes(lines[k], Ticks(lines[open])))
      && fences[0] == Fence(open, close, CellRuntime(Info(lines[open])), Join(lines[open + 1..close], "\n"))
      && FencesAre(fences[1..], lines, close + 1)
  }

  lemma {:induction false} FencesAreFound(lines: seq<string>, index: nat)
    requires index <= |lines|
    ensures FencesAre(FencesFrom(lines, index), lines, index)
    decreases |lines| - index
  {
    hide Ticks, Info, CellRuntime, Join, Closes, FencesAre, FencesFrom;
    FencesStep(lines, index);
    if index == |lines| {
      NothingFound(lines, index);
    } else {
      var line := lines[index];
      if Ticks(line) < 3 {
        FencesAreFound(lines, index + 1);
        SkipLine(FencesFrom(lines, index + 1), lines, index);
      } else {
        var close := CloseFrom(lines, index + 1, Ticks(line));
        if close < |lines| {
          FencesAreFound(lines, close + 1);
          FenceFound(FencesFrom(lines, close + 1), lines, index, close);
        } else {
          FenceUnclosed(lines, index);
        }
      }
    }
  }

  lemma {:induction false} FencesStep(lines: seq<string>, index: nat)
    requires index <= |lines|
    ensures FencesFrom(lines, index) ==
            if index == |lines| then []
            else if Ticks(lines[index]) < 3 then FencesFrom(lines, index + 1)
            else
              var close := CloseFrom(lines, index + 1, Ticks(lines[index]));
              if close == |lines| then []
              else [Fence(index, close, CellRuntime(Info(lines[index])), Join(lines[index + 1..close], "\n"))] +
                   FencesFrom(lines, close + 1)
  {
    hide Ticks, Info, CellRuntime, Join, Closes;
  }

  lemma {:induction false} NothingFound(lines: seq<string>, index: nat)
    requires index == |lines|
    ensures FencesAre([], lines, index)
  {
    hide Ticks, Closes;
  }

  lemma {:induction false} FenceFound(fences: seq<Fence>, lines: seq<string>, index: nat, close: nat)
    requires index < close < |lines| && Ticks(lines[index]) >= 3 && FencesAre(fences, lines, close + 1)
    requires Closes(lines[close], Ticks(lines[index]))
    requires forall k :: index < k < close ==> !Closes(lines[k], Ticks(lines[index]))
    ensures var fence := Fence(index, close, CellRuntime(Info(lines[index])), Join(lines[index + 1..close], "\n"));
            FencesAre([fence] + fences, lines, index)
  {
    hide Ticks, Info, CellRuntime, Join, Closes;
    ClosesMeans(lines[close], Ticks(lines[index]));
    var fence := Fence(index, close, CellRuntime(Info(lines[index])), Join(lines[index + 1..close], "\n"));
    assert ([fence] + fences)[1..] == fences;
  }

  lemma {:induction false} FenceUnclosed(lines: seq<string>, index: nat)
    requires index < |lines| && Ticks(lines[index]) >= 3
    requires forall k :: index < k < |lines| ==> !Closes(lines[k], Ticks(lines[index]))
    ensures FencesAre([], lines, index)
  {
    hide Ticks, Closes;
    assert NoRun(lines, index, index);
  }

  lemma {:induction false} ClosesMeans(line: string, ticks: nat)
    requires ticks >= 3
    ensures Closes(line, ticks) <==> Ticks(line) >= ticks && Info(line) == ""
  {
    hide Ticks, Info;
  }

  lemma {:induction false} SkipLine(fences: seq<Fence>, lines: seq<string>, index: nat)
    requires index < |lines| && Ticks(lines[index]) < 3 && FencesAre(fences, lines, index + 1)
    ensures FencesAre(fences, lines, index)
  {
    hide Ticks, Info, CellRuntime, Join, Closes;
    if fences == [] && !NoRun(lines, index + 1, |lines|) {
      var open :| index + 1 <= open < |lines| && NoRun(lines, index + 1, open) && 3 <= Ticks(lines[open]) &&
        forall k :: open < k < |lines| ==> !Closes(lines[k], Ticks(lines[open]));
      assert NoRun(lines, index, open);
    }
  }

  // ----- wrapping a command -----

  // Where the newlines and carriage returns at the end of `s[..i]` start.
  function BreaksStart(s: string, i: nat): (r: nat)
    requires i <= |s|
    ensures r <= i
    ensures forall k :: r <= k < i ==> s[k] == '\n' || s[k] == '\r'
    ensures r > 0 ==> s[r - 1] != '\n' && s[r - 1] != '\r'
  {
    if i > 0 && (s[i - 1] == '\n' || s[i - 1] == '\r') then BreaksStart(s, i - 1) else i
  }

  function WithoutBreaks(body: string): string {
    body[..BreaksStart(body, |body|)]
  }

  function MostTicks(lines: seq<string>): (most: nat)
    ensures forall k :: 0 <= k < |lines| ==> Ticks(lines[k]) <= most
    ensures most > 0 ==> exists k :: 0 <= k < |lines| && Ticks(lines[k]) == most
  {
    if lines == [] then 0 else
      var before, last := MostTicks(lines[..|lines| - 1]), Ticks(lines[|lines| - 1]);
      if last >= before then last else before
  }

  // More backticks than any line of the body starts with, and at least three.
  function FenceOf(body: string): string {
    var longest := MostTicks(Lines(body));
    Repeat('`', if longest + 1 > 3 then longest + 1 else 3)
  }

  function ShellCell(body: string): string {
    var text := WithoutBreaks(body);
    FenceOf(text) + "!shell\n" + text + "\n" + FenceOf(text)
  }

  // The text with every carriage return in front of a newline removed.
  function WithoutCrs(s: string): string {
    if s == "" then ""
    else if s[0] == '\r' && |s| > 1 && s[1] == '\n' then WithoutCrs(s[1..])
    else [s[0]] + WithoutCrs(s[1..])
  }

  predicate HasCrLf(s: string) {
    exists k :: 0 <= k < |s| - 1 && s[k] == '\r' && s[k + 1] == '\n'
  }

  lemma {:induction false} CrsGone(s: string)
    ensures |WithoutCrs(s)| <= |s|
    ensures WithoutCrs(s) == s <==> !HasCrLf(s)
    ensures HasCrLf(s) ==> |WithoutCrs(s)| < |s|
  {
    if s != "" {
      CrsGone(s[1..]);
      CrLfTail(s);
      if !(s[0] == '\r' && |s| > 1 && s[1] == '\n') {
        assert s == [s[0]] + s[1..];
        assert WithoutCrs(s)[1..] == WithoutCrs(s[1..]);
      }
    }
  }

  lemma {:induction false} CrLfTail(s: string)
    requires s != ""
    ensures HasCrLf(s) <==> HasCrLf(s[1..]) || (|s| > 1 && s[0] == '\r' && s[1] == '\n')
  {
    if HasCrLf(s) {
      var k :| 0 <= k < |s| - 1 && s[k] == '\r' && s[k + 1] == '\n';
      assert k > 0 ==> s[1..][k - 1] == '\r' && s[1..][k] == '\n';
    }
    if HasCrLf(s[1..]) {
      var k :| 0 <= k < |s[1..]| - 1 && s[1..][k] == '\r' && s[1..][k + 1] == '\n';
      assert s[k + 1] == '\r' && s[k + 2] == '\n';
    }
  }

  lemma {:induction false} CrsFirst(c: char, s: string)
    ensures WithoutCrs([c] + s) == if c == '\r' && s != "" && s[0] == '\n' then WithoutCrs(s) else [c] + WithoutCrs(s)
  {
    assert ([c] + s)[1..] == s;
  }

  lemma {:induction false} DropCrFirst(c: char, s: string)
    ensures DropCr([c] + s) == if s == "" then if c == '\r' then "" else [c] else [c] + DropCr(s)
  {
    var whole := [c] + s;
    if s == "" {
      assert whole == [c] && whole[..0] == "";
    } else {
      assert whole[|whole| - 1] == s[|s| - 1];
      assert whole[..|whole| - 1] == [c] + s[..|s| - 1];
    }
  }

  lemma {:induction false} CrsOfLine(head: string, tail: string)
    requires Without(head, '\n')
    ensures WithoutCrs(head + ['\n'] + tail) == DropCr(head) + ['\n'] + WithoutCrs(tail)
    decreases |head|
  {
    hide WithoutCrs, DropCr;
    if head == "" {
      assert head + ['\n'] + tail == ['\n'] + tail;
      CrsFirst('\n', tail);
      NoLine();
      assert "" + ['\n'] + WithoutCrs(tail) == ['\n'] + WithoutCrs(tail);
    } else {
      var c, rest := head[0], head[1..];
      var after := rest + ['\n'] + tail;
      assert head == [c] + rest && head + ['\n'] + tail == [c] + after;
      assert after[0] == if rest == "" then '\n' else rest[0];
      CrsFirst(c, after);
      DropCrFirst(c, rest);
      NoLine();
      CrsOfLine(rest, tail);
      assert [c] + (DropCr(rest) + ['\n'] + WithoutCrs(tail)) == [c] + DropCr(rest) + ['\n'] + WithoutCrs(tail);
    }
  }

  lemma {:induction false} NoLine()
    ensures DropCr("") == ""
  {
  }

  lemma {:induction false} LineWithoutBreak(s: string)
    requires s != "" && Without(s, '\n')
    ensures Lines(s) == [s] && WithoutCrs(s) == s
  {
    assert IndexOf(s, '\n') == |s|;
    CrsGone(s);
  }

  // The lines between the fences put together again.
  lemma {:induction false} BodyLines(text: string)
    requires text != "" ==> text[|text| - 1] != '\n' && text[|text| - 1] != '\r'
    ensures Lines(text + "\n") == if text == "" then [""] else Lines(text)
    ensures Join(Lines(text + "\n"), "\n") == WithoutCrs(text)
    decreases |text|
  {
    hide WithoutCrs, Lines;
    var at := IndexOf(text, '\n');
    var head := text[..at];
    if at == |text| {
      LinesOfFirst(text, "");
      assert text + ['\n'] + "" == text + "\n";
      NoLines();
      if text == "" {
      } else {
        LineWithoutBreak(text);
      }
      EmptyIsEmpty();
    } else {
      var tail := text[at + 1..];
      assert text == head + ['\n'] + tail;
      assert text + "\n" == head + ['\n'] + (tail + "\n");
      LinesOfFirst(head, tail + "\n");
      LinesOfFirst(head, tail);
      CrsOfLine(head, tail);
      assert at < |text| - 1;
      assert tail[|tail| - 1] == text[|text| - 1];
      BodyLines(tail);
      SomeLine(tail);
      JoinFirst(DropCr(head), Lines(tail));
    }
  }

  lemma {:induction false} NoLines()
    ensures Lines("") == []
  {
  }

  lemma {:induction false} EmptyIsEmpty()
    ensures WithoutCrs("") == ""
  {
  }

  lemma {:induction false} SomeLine(s: string)
    requires s != ""
    ensures Lines(s) != []
  {
    hide IndexOf;
  }

  lemma {:induction false} JoinFirst(line: string, rest: seq<string>)
    requires rest != []
    ensures Join([line] + rest, "\n") == line + ['\n'] + Join(rest, "\n")
  {
    assert ([line] + rest)[1..] == rest;
  }

  lemma {:induction false} RepeatIsLine(n: nat)
    requires n >= 3
    ensures var fence := Repeat('`', n);
            && Lines(fence) == [fence] && Ticks(fence) == n && Info(fence) == ""
            && Ticks(fence + "!shell") == n && Info(fence + "!shell") == "!shell"
  {
    hide *;
    var fence := Repeat('`', n);
    RepeatIsPlain(n);
    LineWithoutBreak(fence);
    TicksOf(fence, "");
    assert fence + "" == fence;
    TicksOf(fence, "!shell");
    TrimShell();
  }

  lemma {:induction false} RepeatIsPlain(n: nat)
    requires n > 0
    ensures var fence := Repeat('`', n);
            && fence != "" && Without(fence, '\n')
            && Without(fence + "!shell", '\n') && DropCr(fence + "!shell") == fence + "!shell"
  {
  }

  lemma {:induction false} TickIsSolid()
    ensures !IsSpace('`')
  {
  }

  lemma {:induction false} TrimShell()
    ensures Trim("!shell") == "!shell" && Trim("") == ""
  {
    assert !IsSpace('!') && !IsSpace('l');
    hide IsSpace;
    assert LeadEnd("!shell", 0) == 0 && TrimStart("!shell") == "!shell";
    assert TailStart("!shell", 6) == 6;
  }

  lemma {:induction false} TicksOf(fence: string, rest: string)
    requires fence != "" && (forall k :: 0 <= k < |fence| ==> fence[k] == '`') && (rest != "" ==> rest[0] != '`')
    ensures Ticks(fence + rest) == |fence| && Info(fence + rest) == Trim(rest)
  {
    TickIsSolid();
    hide IsSpace, Trim;
    var s := fence + rest;
    assert s[0] == '`' && LeadEnd(s, 0) == 0;
    assert TrimStart(s) == s;
    assert forall k :: 0 <= k < |fence| ==> s[k] == '`';
    assert rest != "" ==> s[|fence|] == rest[0];
    assert s[|fence|..] == rest;
  }

  lemma {:induction false} CellLines(text: string)
    requires text != "" ==> text[|text| - 1] != '\n' && text[|text| - 1] != '\r'
    ensures var fence := FenceOf(text);
            Lines(fence + "!shell\n" + text + "\n" + fence) == [fence + "!shell"] + Lines(text + "\n") + [fence]
  {
    hide Lines, Ticks, Info, MostTicks;
    var fence := FenceOf(text);
    RepeatIsLine(|fence|);
    RepeatIsPlain(|fence|);
    assert fence == Repeat('`', |fence|);
    var head := fence + "!shell";
    assert fence + "!shell\n" + text + "\n" + fence == head + ['\n'] + (text + "\n" + fence);
    LinesOfFirst(head, text + "\n" + fence);
    LinesOfPieces(text + "\n", fence);
    assert [head] + (Lines(text + "\n") + [fence]) == [head] + Lines(text + "\n") + [fence];
  }

  lemma {:induction false} BodyStaysOpen(text: string, k: nat)
    requires text != "" ==> text[|text| - 1] != '\n' && text[|text| - 1] != '\r'
    requires k < |Lines(text + "\n")|
    ensures Ticks(Lines(text + "\n")[k]) < |FenceOf(text)|
  {
    hide Lines, Ticks;
    BodyLines(text);
    if text == "" {
      NoTicks();
    }
  }

  lemma {:induction false} NoTicks()
    ensures Ticks("") == 0
  {
  }

  // A body wrapped in a cell is read back as one `shell` cell holding the body without the breaks
  // at its end, each CRLF in it turned into a newline; so the body comes back unchanged exactly
  // when no CRLF is left in it.
  lemma {:induction false} ShellCellRoundTrip(body: string)
    ensures ParseCells(ShellCell(body)) == [Cell("shell", WithoutCrs(WithoutBreaks(body)))]
    ensures ParseCells(ShellCell(body)) == [Cell("shell", WithoutBreaks(body))] <==> !HasCrLf(WithoutBreaks(body))
  {
    hide Lines, Ticks, Info, FenceOf, WithoutCrs, HasCrLf, FencesFrom, Join, Closes, CellRuntime;
    var text := WithoutBreaks(body);
    var fence, inner := FenceOf(text), Lines(text + "\n");
    CellLines(text);
    BodyLines(text);
    FenceLength(text);
    RepeatIsLine(|fence|);
    var lines := [fence + "!shell"] + inner + [fence];
    forall k | 0 < k < |inner| + 1 ensures !Closes(lines[k], |fence|) {
      BodyStaysOpen(text, k - 1);
      ClosesMeans(lines[k], |fence|);
    }
    ClosesMeans(fence, |fence|);
    var close := CloseFrom(lines, 1, |fence|);
    assert lines[|inner| + 1] == fence;
    assert close == |inner| + 1;
    assert lines[1..close] == inner;
    FencesStep(lines, 0);
    FencesStep(lines, |lines|);
    ShellRuntime();
    OneCell(Fence(0, close, Some("shell"), WithoutCrs(text)));
    CrsGone(text);
  }

  lemma {:induction false} FenceLength(text: string)
    ensures |FenceOf(text)| >= 3 && FenceOf(text) == Repeat('`', |FenceOf(text)|)
  {
  }

  lemma {:induction false} ShellRuntime()
    ensures CellRuntime("!shell") == Some("shell")
  {
  }

  lemma {:induction false} OneCell(fence: Fence)
    requires fence.runtime.Some?
    ensures CellsOf([fence] + []) == [Cell(fence.runtime.value, fence.code)]
  {
    assert ([fence] + [])[1..] == [];
  }

  // The body `a`, CRLF, `b` comes back without its carriage return.
  lemma {:induction false} CrLfIsLost()
    ensures ParseCells(ShellCell("a\r\nb")) == [Cell("shell", "a\nb")]
  {
    hide ParseCells, ShellCell, HasCrLf;
    var body := "a\r\nb";
    ShellCellRoundTrip(body);
    assert BreaksStart(body, 4) == 4 && body[..4] == body;
    assert body[1..] == "\r\nb" && "\r\nb"[1..] == "\nb" && "\nb"[1..] == "b" && "b"[1..] == "";
    assert WithoutCrs("b") == "b" && WithoutCrs("\nb") == "\n" + "b" == "\nb";
    assert WithoutCrs("\r\nb") == "\nb";
    assert WithoutCrs(body) == "a" + "\nb" == "a\nb";
  }

  // ----- what a line and its info say -----

  // Blanks, backticks, and a rest that goes on with neither.
  predicate LineIs(line: string, blanks: string, ticks: nat, rest: string) {
    && line == blanks + Repeat('`', ticks) + rest && AllSpace(blanks)
    && (rest != "" ==> rest[0] != '`' && (ticks == 0 ==> !IsSpace(rest[0])))
  }

  lemma {:induction false} TickIsNoSpace()
    ensures !IsSpace('`')
  {
  }

  // A line opens or may close a fence exactly when three backticks or more follow its blanks; its info
  // is what follows them, trimmed.
  lemma {:induction false} RunOfLine(line: string, blanks: string, ticks: nat, rest: string)
    requires LineIs(line, blanks, ticks, rest)
    ensures BacktickRun(line) == if ticks >= 3 then Some((ticks, Trim(rest))) else None
  {
    TickIsNoSpace();
    hide IsSpace, Trim;
    var n := |blanks|;
    assert forall k :: 0 <= k < n ==> line[k] == blanks[k];
    assert ticks > 0 ==> line[n] == Repeat('`', ticks)[0];
    assert ticks == 0 && rest != "" ==> line[n] == rest[0];
    assert LeadEnd(line, 0) == n;
    var text := TrimStart(line);
    assert text == Repeat('`', ticks) + rest;
    assert forall k :: 0 <= k < ticks ==> text[k] == '`';
    assert rest != "" ==> text[ticks] == rest[0];
    assert TicksEnd(text, 0) == ticks;
    assert text[ticks..] == rest;
  }

  lemma {:induction false} LineParts(line: string) returns (blanks: string, ticks: nat, rest: string)
    ensures LineIs(line, blanks, ticks, rest)
  {
    hide IsSpace;
    var n := LeadEnd(line, 0);
    var text := line[n..];
    blanks, ticks := line[..n], TicksEnd(text, 0);
    rest := text[ticks..];
    assert text[..ticks] == Repeat('`', ticks);
    assert line == blanks + text;
  }

  // A fence is a cell exactly when its info is `!` and a runtime without blanks.
  lemma {:induction false} RuntimeIff(info: string, runtime: string)
    ensures CellRuntime(info) == Some(runtime) <==>
            info == "!" + runtime && runtime != "" && forall k :: 0 <= k < |runtime| ==> !IsSpace(runtime[k])
  {
    hide IsSpace;
    assert info == "!" + runtime ==> info[1..] == runtime;
    assert info != "" && info[0] == '!' ==> info == "!" + info[1..];
  }

  // The fence around a command is the shortest that works: three backticks, or one more than a line of
  // the command starts with.
  lemma {:induction false} FenceIsShortest(body: string)
    ensures var fence, lines := FenceOf(body), Lines(body);
            && |fence| >= 3 && (forall k :: 0 <= k < |fence| ==> fence[k] == '`')
            && (forall k :: 0 <= k < |lines| ==> Ticks(lines[k]) < |fence|)
            && (|fence| > 3 ==> exists k :: 0 <= k < |lines| && Ticks(lines[k]) + 1 == |fence|)
  {
    hide Ticks, Lines;
    var most := MostTicks(Lines(body));
    if most > 0 {
      var k :| 0 <= k < |Lines(body)| && Ticks(Lines(body)[k]) == most;
      assert |FenceOf(body)| > 3 ==> Ticks(Lines(body)[k]) + 1 == |FenceOf(body)|;
    }
  }
}
