// What the sanitizer prints, read off its input: every text is a list of characters, line ends, escape
// sequences and control strings, and each of them prints its own part of the output.
module SanitizerItems {
  import opened Text
  import opened Utf8
  import opened Sanitizer
  import opened SanitizerRuns

  datatype End = ByBell | ByTerminator | ByBackslash

  // The last two are given up before their end: by a character that cannot go on with the sequence, by
  // an escape that does not end the string, or by the end of the text.
  datatype Item =
    | Other(c: char)
    | Newline
    | Return
    | ReturnNewline
    | ControlSequence(params: string, final: char)
    | EscapeSequence(mids: string, final: char)
    | ControlString(kind: char, payload: string, end: End)
    | BrokenSequence(front: string)
    | BrokenString(kind: char, payload: string)

  predicate Among(s: string, low: char, high: char) {
    forall k :: 0 <= k < |s| ==> low <= s[k] <= high
  }

  predicate OpensString(c: char) {
    c == ']' || c == 'P' || c == 'X' || c == '^' || c == '_'
  }

  predicate IsPayload(s: string) {
    forall k :: 0 <= k < |s| ==> s[k] != '\U{07}' && s[k] != '\U{9C}' && s[k] != '\U{1B}'
  }

  predicate ItemOk(item: Item) {
    match item
    case Other(c) => c != '\U{1B}' && c != '\n' && c != '\r'
    case ControlSequence(params, final) => Among(params, ' ', '?') && '@' <= final <= '~'
    case EscapeSequence(mids, final) =>
      Among(mids, ' ', '/') && '0' <= final <= '~' && (mids == "" ==> final != '[' && !OpensString(final))
    case ControlString(kind, payload, _) => OpensString(kind) && IsPayload(payload)
    case BrokenSequence(front) => Among(front, ' ', '/') || (front[0] == '[' && Among(front[1..], ' ', '?'))
    case BrokenString(kind, payload) => OpensString(kind) && IsPayload(payload)
    case _ => true
  }

  function EndText(end: End): string {
    match end
    case ByBell => ['\U{07}']
    case ByTerminator => ['\U{9C}']
    case ByBackslash => ['\U{1B}', '\\']
  }

  function ItemText(item: Item): string {
    match item
    case Other(c) => [c]
    case Newline => "\n"
    case Return => "\r"
    case ReturnNewline => "\r\n"
    case ControlSequence(params, final) => ['\U{1B}', '['] + params + [final]
    case EscapeSequence(mids, final) => ['\U{1B}'] + mids + [final]
    case ControlString(kind, payload, end) => ['\U{1B}', kind] + payload + EndText(end)
    case BrokenSequence(front) => ['\U{1B}'] + front
    case BrokenString(kind, payload) => ['\U{1B}', kind] + payload
  }

  function TextOf(items: seq<Item>): string {
    if items == [] then "" else ItemText(items[0]) + TextOf(items[1..])
  }

  // Whether `rest` may stand behind the item.
  predicate Follows(item: Item, rest: string) {
    match item
    case Return => rest == "" || rest[0] != '\n'
    case BrokenSequence(_) => rest == "" || rest[0] < ' ' || rest[0] > '~'
    case BrokenString(_, _) => rest == "" || (rest[0] == '\U{1B}' && (|rest| == 1 || rest[1] != '\\'))
    case _ => true
  }

  predicate Listed(items: seq<Item>) {
    items == [] || (ItemOk(items[0]) && Follows(items[0], TextOf(items[1..])) && Listed(items[1..]))
  }

  // A colour sequence that may pass: digits, `;` and `:`, at most 64 of them.
  predicate IsColour(item: Item) {
    && item.ControlSequence? && item.final == 'm' && |item.params| <= 64
    && forall k :: 0 <= k < |item.params| ==> '0' <= item.params[k] <= '9' || item.params[k] == ';' || item.params[k] == ':'
  }

  // What an item prints.
  function Prints(item: Item, keepSgr: bool): string {
    match item
    case Newline | Return | ReturnNewline => "\n"
    case Other(c) => if c == '\t' || !(c < ' ' || '\U{7F}' <= c <= '\U{9F}') then [c] else ""
    case ControlSequence(params, final) => if keepSgr && IsColour(item) then ItemText(item) else ""
    case _ => ""
  }

  function PrintsAll(items: seq<Item>, keepSgr: bool): string {
    if items == [] then "" else Prints(items[0], keepSgr) + PrintsAll(items[1..], keepSgr)
  }

  predicate HasColour(items: seq<Item>, keepSgr: bool) {
    keepSgr && exists k :: 0 <= k < |items| && IsColour(items[k])
  }

  // ----- every text is a list of items -----

  // The first position from `i` on with a character outside `low` to `high`.
  function SpanEnd(text: string, i: nat, low: char, high: char): (j: nat)
    requires i <= |text|
    ensures i <= j <= |text| && Among(text[i..j], low, high)
    ensures j < |text| ==> text[j] < low || text[j] > high
    decreases |text| - i
  {
    if i < |text| && low <= text[i] <= high then
      var j := SpanEnd(text, i + 1, low, high);
      assert text[i..j] == [text[i]] + text[i + 1..j];
      j
    else i
  }

  function PayloadEnd(text: string, i: nat): (j: nat)
    requires i <= |text|
    ensures i <= j <= |text| && IsPayload(text[i..j])
    ensures j < |text| ==> text[j] == '\U{07}' || text[j] == '\U{9C}' || text[j] == '\U{1B}'
    decreases |text| - i
  {
    if i < |text| && text[i] != '\U{07}' && text[i] != '\U{9C}' && text[i] != '\U{1B}' then
      var j := PayloadEnd(text, i + 1);
      assert text[i..j] == [text[i]] + text[i + 1..j];
      j
    else i
  }

  function FirstString(text: string): Item
    requires |text| > 1
  {
    var j := PayloadEnd(text, 2);
    var payload := text[2..j];
    if j == |text| then BrokenString(text[1], payload)
    else if text[j] == '\U{07}' then ControlString(text[1], payload, ByBell)
    else if text[j] == '\U{9C}' then ControlString(text[1], payload, ByTerminator)
    else if j + 1 < |text| && text[j + 1] == '\\' then ControlString(text[1], payload, ByBackslash)
    else BrokenString(text[1], payload)
  }

  function FirstSequence(text: string): Item
    requires |text| > 1
  {
    if text[1] == '[' then
      var j := SpanEnd(text, 2, ' ', '?');
      if j < |text| && '@' <= text[j] <= '~' then ControlSequence(text[2..j], text[j]) else BrokenSequence(text[1..j])
    else
      var j := SpanEnd(text, 1, ' ', '/');
      if j < |text| && '0' <= text[j] <= '~' then EscapeSequence(text[1..j], text[j]) else BrokenSequence(text[1..j])
  }

  function First(text: string): Item
    requires text != ""
  {
    if text[0] == '\n' then Newline
    else if text[0] == '\r' then if |text| > 1 && text[1] == '\n' then ReturnNewline else Return
    else if text[0] != '\U{1B}' then Other(text[0])
    else if |text| == 1 then BrokenSequence("")
    else if OpensString(text[1]) then FirstString(text)
    else FirstSequence(text)
  }

  // The first item of a text.
  predicate IsFirst(item: Item, text: string) {
    var n := |ItemText(item)|;
    0 < n <= |text| && ItemText(item) == text[..n] && ItemOk(item) && Follows(item, text[n..])
  }

  lemma {:induction false} FirstStringOk(text: string)
    requires |text| > 1 && text[0] == '\U{1B}' && OpensString(text[1])
    ensures IsFirst(FirstString(text), text)
  {
    var j := PayloadEnd(text, 2);
    hide PayloadEnd, IsPayload;
    assert text[..j] == ['\U{1B}', text[1]] + text[2..j];
    if j < |text| {
      assert text[..j + 1] == text[..j] + [text[j]];
      if j + 1 < |text| {
        assert text[..j + 2] == text[..j] + [text[j], text[j + 1]];
      }
    }
  }

  lemma {:induction false} FirstSequenceOk(text: string)
    requires |text| > 1 && text[0] == '\U{1B}' && !OpensString(text[1])
    ensures IsFirst(FirstSequence(text), text)
  {
    if text[1] == '[' {
      var j := SpanEnd(text, 2, ' ', '?');
      assert text[..j] == ['\U{1B}', '['] + text[2..j] == ['\U{1B}'] + text[1..j];
      assert text[1..j][1..] == text[2..j];
      if j < |text| {
        assert text[..j + 1] == text[..j] + [text[j]];
      }
    } else {
      var j := SpanEnd(text, 1, ' ', '/');
      assert text[..j] == ['\U{1B}'] + text[1..j];
      if j < |text| {
        assert text[..j + 1] == text[..j] + [text[j]];
      }
    }
  }

  lemma {:induction false} FirstOk(text: string)
    requires text != ""
    ensures IsFirst(First(text), text)
  {
    if text[0] == '\U{1B}' && |text| > 1 {
      if OpensString(text[1]) {
        FirstStringOk(text);
      } else {
        FirstSequenceOk(text);
      }
    } else {
      assert text[..1] == [text[0]];
      if text[0] == '\r' && |text| > 1 && text[1] == '\n' {
        assert text[..2] == "\r\n";
      }
    }
  }

  function ItemsOf(text: string): seq<Item>
    decreases |text|
  {
    if text == "" then [] else
      FirstOk(text);
      [First(text)] + ItemsOf(text[|ItemText(First(text))|..])
  }

  lemma {:induction false} OneMoreItem(item: Item, items: seq<Item>, text: string)
    requires IsFirst(item, text) && Listed(items) && TextOf(items) == text[|ItemText(item)|..]
    ensures Listed([item] + items) && TextOf([item] + items) == text
  {
    hide ItemOk, ItemText, Follows;
    var n := |ItemText(item)|;
    assert ([item] + items)[1..] == items;
    assert text == text[..n] + text[n..];
  }

  // Every text is listed by its items.
  lemma {:induction false} ItemsSpell(text: string)
    ensures TextOf(ItemsOf(text)) == text && Listed(ItemsOf(text))
    decreases |text|
  {
    hide First, IsFirst, ItemText, Listed, TextOf;
    if text == "" {
      NothingSpelled();
    } else {
      FirstOk(text);
      FirstSize(text);
      var rest := text[|ItemText(First(text))|..];
      ItemsSpell(rest);
      OneMoreItem(First(text), ItemsOf(rest), text);
    }
  }

  lemma {:induction false} NothingSpelled()
    ensures TextOf([]) == "" && Listed([])
  {
  }

  lemma {:induction false} FirstSize(text: string)
    requires text != ""
    ensures 0 < |ItemText(First(text))| <= |text|
  {
    FirstOk(text);
    hide First, ItemText, ItemOk, Follows;
  }

  // ----- what the automaton does on an item -----

  predicate Ground(st: State) {
    st.escape.NoEscape? && !st.afterCr
  }

  // The text is read to the state and output given.
  predicate Goes(st: State, text: string, next: State, out: string) {
    Steps(st, text) == (next, out)
  }

  lemma {:induction false} GoesOn(st: State, a: string, mid: State, out: string, b: string, next: State, more: string)
    requires Goes(st, a, mid, out) && Goes(mid, b, next, more)
    ensures Goes(st, a + b, next, out + more)
  {
    hide Steps;
    StepsConcat(st, a, b);
  }

  lemma {:induction false} GoesOne(st: State, c: char)
    ensures Goes(st, [c], Step(st, c).0, Step(st, c).1)
  {
    hide Step, Steps;
    StepsOne(st, c);
  }

  lemma {:induction false} GoesNowhere(st: State)
    ensures Goes(st, "", st, "")
  {
  }

  // Through characters that print nothing and lead from `st` to itself.
  lemma {:induction false} GoesRound(st: State, s: string)
    requires forall k :: 0 <= k < |s| ==> Step(st, s[k]) == (st, "")
    ensures Goes(st, s, st, "")
  {
    if s != "" {
      hide Step;
      GoesRound(st, s[1..]);
      assert "" + "" == "";
    }
  }

  function Collected(st: State, params: string): State {
    st.(escape := if |params| <= 64 then Csi(params) else CsiDropped)
  }

  lemma {:induction false} CollectsOne(st: State, params: string, c: char)
    requires Ground(st) && ' ' <= c <= '?'
    ensures Step(Collected(st, params), c) == (Collected(st, params + [c]), "")
  {
  }

  lemma {:induction false} Collects(st: State, params: string, more: string)
    requires Ground(st) && Among(more, ' ', '?')
    ensures Goes(Collected(st, params), more, Collected(st, params + more), "")
    decreases |more|
  {
    if more == "" {
      GoesNowhere(Collected(st, params));
      assert params + more == params;
    } else {
      CollectsOne(st, params, more[0]);
      hide Collected, Step, Goes, Steps;
      GoesOne(Collected(st, params), more[0]);
      Collects(st, params + [more[0]], more[1..]);
      GoesOn(Collected(st, params), [more[0]], Collected(st, params + [more[0]]), "", more[1..],
             Collected(st, params + [more[0]] + more[1..]), "");
      assert params + [more[0]] + more[1..] == params + more && [more[0]] + more[1..] == more && "" + "" == "";
    }
  }

  lemma {:induction false} Opens(st: State, c: char)
    requires Ground(st)
    ensures c == '[' ==> Goes(st, ['\U{1B}', c], Collected(st, ""), "")
    ensures OpensString(c) ==> Goes(st, ['\U{1B}', c], st.(escape := Str), "")
    ensures Goes(st, ['\U{1B}'], st.(escape := Start), "")
  {
    assert ['\U{1B}', c] == ['\U{1B}'] + [c] && "" + "" == "";
    assert Step(st, '\U{1B}') == (st.(escape := Start), "");
    GoesOne(st, '\U{1B}');
    GoesOne(st.(escape := Start), c);
    hide Goes, Steps;
    GoesOn(st, ['\U{1B}'], st.(escape := Start), "", [c], Step(st.(escape := Start), c).0, Step(st.(escape := Start), c).1);
  }

  lemma {:induction false} SequenceFront(st: State, params: string)
    requires Ground(st) && Among(params, ' ', '?')
    ensures Goes(st, ['\U{1B}', '['] + params, Collected(st, params), "")
  {
    hide Goes, Collected;
    Opens(st, '[');
    Collects(st, "", params);
    GoesOn(st, ['\U{1B}', '['], Collected(st, ""), "", params, Collected(st, "" + params), "");
    assert "" + params == params && "" + "" == "";
  }

  function Coloured(st: State, item: Item): State {
    if st.keepSgr && IsColour(item) then st.(styled := true) else st
  }

  lemma {:induction false} SequenceEnds(st: State, params: string, final: char)
    requires Ground(st) && '@' <= final <= '~'
    ensures var item := ControlSequence(params, final);
            Step(Collected(st, params), final) == (Coloured(st, item), Prints(item, st.keepSgr))
  {
    assert ['\U{1B}', '['] + params + "m" == ['\U{1B}', '['] + params + ['m'];
    assert PlainParams(params) <==>
           forall k :: 0 <= k < |params| ==> '0' <= params[k] <= '9' || params[k] == ';' || params[k] == ':';
  }

  lemma {:induction false} StringFront(st: State, kind: char, payload: string)
    requires Ground(st) && OpensString(kind) && IsPayload(payload)
    ensures Goes(st, ['\U{1B}', kind] + payload, st.(escape := Str), "")
  {
    var inside := st.(escape := Str);
    Opens(st, kind);
    GoesRound(inside, payload);
    hide Goes;
    GoesOn(st, ['\U{1B}', kind], inside, "", payload, inside, "");
    assert "" + "" == "";
  }

  lemma {:induction false} StringEnds(st: State, end: End)
    requires Ground(st)
    ensures Goes(st.(escape := Str), EndText(end), st, "")
  {
    var inside := st.(escape := Str);
    match end
    case ByBell => GoesOne(inside, '\U{07}');
    case ByTerminator => GoesOne(inside, '\U{9C}');
    case ByBackslash =>
      GoesOne(inside, '\U{1B}');
      GoesOne(st.(escape := StrEsc), '\\');
      GoesOn(inside, ['\U{1B}'], st.(escape := StrEsc), "", ['\\'], st, "");
      assert ['\U{1B}'] + ['\\'] == ['\U{1B}', '\\'] && "" + "" == "";
  }

  lemma {:induction false} MidsFront(st: State, mids: string)
    requires Ground(st) && Among(mids, ' ', '/')
    ensures Goes(st, ['\U{1B}'] + mids, st.(escape := if mids == "" then Start else Intermediate), "")
  {
    Opens(st, ' ');
    var start, inside := st.(escape := Start), st.(escape := Intermediate);
    if mids == "" {
      assert ['\U{1B}'] + mids == ['\U{1B}'];
    } else {
      GoesOne(start, mids[0]);
      GoesRound(inside, mids[1..]);
      assert Step(start, mids[0]) == (inside, "");
      hide Goes, Step;
      GoesOn(start, [mids[0]], inside, "", mids[1..], inside, "");
      assert [mids[0]] + mids[1..] == mids && "" + "" == "";
      GoesOn(st, ['\U{1B}'], start, "", mids, inside, "");
    }
  }

  // An item that is read to its end leads back to the ground.
  lemma {:induction false} WholeItem(st: State, item: Item)
    requires Ground(st) && ItemOk(item) && !item.Return? && !item.BrokenSequence? && !item.BrokenString?
    ensures Goes(st, ItemText(item), Coloured(st, item), Prints(item, st.keepSgr))
  {
    match item
    case Other(c) =>
      GoesOne(st, c);
    case Newline =>
      GoesOne(st, '\n');
    case ReturnNewline =>
      GoesOne(st, '\r');
      GoesOne(st.(afterCr := true), '\n');
      GoesOn(st, "\r", st.(afterCr := true), "\n", "\n", st, "");
      assert "\r" + "\n" == "\r\n" && "\n" + "" == "\n";
    case ControlSequence(params, final) =>
      SequenceFront(st, params);
      SequenceEnds(st, params, final);
      hide Goes, Collected, Prints, Coloured;
      GoesOne(Collected(st, params), final);
      GoesOn(st, ['\U{1B}', '['] + params, Collected(st, params), "", [final], Coloured(st, item), Prints(item, st.keepSgr));
      assert "" + Prints(item, st.keepSgr) == Prints(item, st.keepSgr);
    case EscapeSequence(mids, final) =>
      MidsFront(st, mids);
      var inside := st.(escape := if mids == "" then Start else Intermediate);
      GoesOne(inside, final);
      assert Step(inside, final) == (st, "");
      GoesOn(st, ['\U{1B}'] + mids, inside, "", [final], st, "");
      assert "" + "" == "";
    case ControlString(kind, payload, end) =>
      StringFront(st, kind, payload);
      StringEnds(st, end);
      GoesOn(st, ['\U{1B}', kind] + payload, st.(escape := Str), "", EndText(end), st, "");
      assert "" + "" == "";
  }

  // Behind the item the rest is read as from the ground.
  predicate AsGround(st: State, ground: State, rest: string) {
    Steps(st, rest).1 == Steps(ground, rest).1 && Steps(st, rest).0.styled == Steps(ground, rest).0.styled
  }

  lemma {:induction false} SameStep(st: State, ground: State, rest: string)
    requires st.styled == ground.styled && (rest != "" ==> Step(st, rest[0]) == Step(ground, rest[0]))
    ensures AsGround(st, ground, rest)
  {
    hide Step;
  }

  lemma {:induction false} BrokenBehind(st: State, front: string)
    requires Ground(st) && ItemOk(BrokenSequence(front))
    ensures exists open :: Goes(st, ['\U{1B}'] + front, open, "") && open.styled == st.styled &&
              forall c :: c < ' ' || c > '~' ==> Step(open, c) == Step(st, c)
  {
    if Among(front, ' ', '/') {
      MidsFront(st, front);
      var open := st.(escape := if front == "" then Start else Intermediate);
      assert forall c :: c < ' ' || c > '~' ==> Step(open, c) == Step(st, c);
    } else {
      SequenceFront(st, front[1..]);
      var open := Collected(st, front[1..]);
      assert ['\U{1B}', '['] + front[1..] == ['\U{1B}'] + front;
      assert forall c :: c < ' ' || c > '~' ==> Step(open, c) == Step(st, c);
    }
  }

  lemma {:induction false} StringBehind(st: State, rest: string)
    requires Ground(st) && Follows(BrokenString(']', ""), rest)
    ensures AsGround(st.(escape := Str), st, rest)
  {
    if rest != "" {
      var a, b := st.(escape := StrEsc), st.(escape := Start);
      assert Step(st.(escape := Str), '\U{1B}') == (a, "") && Step(st, '\U{1B}') == (b, "");
      if |rest| > 1 {
        assert Step(a, rest[1]) == Step(b, rest[1]);
      }
      hide Step;
      SameStep(a, b, rest[1..]);
    }
  }

  lemma {:induction false} ReturnBehind(st: State, rest: string)
    requires Ground(st) && Follows(Return, rest)
    ensures Goes(st, "\r", st.(afterCr := true), "\n") && AsGround(st.(afterCr := true), st, rest)
  {
    GoesOne(st, '\r');
    assert "\r" == ['\r'] && Step(st, '\r') == (st.(afterCr := true), "\n");
    SameStep(st.(afterCr := true), st, rest);
  }

  // The item prints its part, and the rest is read as from the ground.
  ghost predicate ReadPast(st: State, item: Item, rest: string) {
    exists mid :: Goes(st, ItemText(item), mid, Prints(item, st.keepSgr)) && AsGround(mid, Coloured(st, item), rest)
  }

  lemma {:induction false} ReadsPast(st: State, item: Item, rest: string, mid: State)
    requires Goes(st, ItemText(item), mid, Prints(item, st.keepSgr)) && AsGround(mid, Coloured(st, item), rest)
    ensures ReadPast(st, item, rest)
  {
  }

  // An item that prints nothing.
  lemma {:induction false} SilentPast(st: State, item: Item, rest: string, mid: State)
    requires Prints(item, st.keepSgr) == "" && !IsColour(item)
    requires Goes(st, ItemText(item), mid, "") && AsGround(mid, st, rest)
    ensures ReadPast(st, item, rest)
  {
    assert Coloured(st, item) == st;
    hide Goes, AsGround, ItemText, Prints;
    ReadsPast(st, item, rest, mid);
  }

  lemma {:induction false} BrokenPast(st: State, front: string, rest: string)
    requires Ground(st) && ItemOk(BrokenSequence(front)) && Follows(BrokenSequence(front), rest)
    ensures ReadPast(st, BrokenSequence(front), rest)
  {
    BrokenBehind(st, front);
    hide Goes, Step, AsGround;
    var open :| Goes(st, ['\U{1B}'] + front, open, "") && open.styled == st.styled &&
      forall c :: c < ' ' || c > '~' ==> Step(open, c) == Step(st, c);
    SameStep(open, st, rest);
    SilentPast(st, BrokenSequence(front), rest, open);
  }

  lemma {:induction false} StringPast(st: State, kind: char, payload: string, rest: string)
    requires Ground(st) && ItemOk(BrokenString(kind, payload)) && Follows(BrokenString(kind, payload), rest)
    ensures ReadPast(st, BrokenString(kind, payload), rest)
  {
    StringFront(st, kind, payload);
    StringBehind(st, rest);
    hide Goes, AsGround;
    SilentPast(st, BrokenString(kind, payload), rest, st.(escape := Str));
  }

  lemma {:induction false} ReturnPast(st: State, rest: string)
    requires Ground(st) && Follows(Return, rest)
    ensures ReadPast(st, Return, rest)
  {
    ReturnBehind(st, rest);
    hide Goes, AsGround;
    assert Coloured(st, Return) == st;
    ReadsPast(st, Return, rest, st.(afterCr := true));
  }

  lemma {:induction false} WholePast(st: State, item: Item, rest: string)
    requires Ground(st) && ItemOk(item) && !item.Return? && !item.BrokenSequence? && !item.BrokenString?
    ensures ReadPast(st, item, rest)
  {
    WholeItem(st, item);
    var next := Coloured(st, item);
    assert AsGround(next, next, rest);
    hide *;
    ReadsPast(st, item, rest, next);
  }

  // One item, and then the rest as from the ground.
  lemma {:induction false} ItemThenRest(st: State, item: Item, rest: string)
    requires Ground(st) && ItemOk(item) && Follows(item, rest)
    ensures ReadPast(st, item, rest)
  {
    hide *;
    match item
    case Return => ReturnPast(st, rest);
    case BrokenSequence(front) => BrokenPast(st, front, rest);
    case BrokenString(kind, payload) => StringPast(st, kind, payload, rest);
    case _ => WholePast(st, item, rest);
  }

  lemma {:induction false} RestJoins(st: State, a: string, mid: State, out: string, ground: State, b: string)
    requires Goes(st, a, mid, out) && AsGround(mid, ground, b)
    ensures Steps(st, a + b).1 == out + Steps(ground, b).1
    ensures Steps(st, a + b).0.styled == Steps(ground, b).0.styled
  {
    hide Steps;
    StepsConcat(st, a, b);
  }

  // A listed text prints what its items print, in order, and nothing else.
  lemma {:induction false} ItemsPrint(st: State, items: seq<Item>)
    requires Ground(st) && Listed(items)
    ensures Steps(st, TextOf(items)).1 == PrintsAll(items, st.keepSgr)
    ensures Steps(st, TextOf(items)).0.styled <==> st.styled || HasColour(items, st.keepSgr)
    decreases |items|
  {
    if items != [] {
      hide Goes, Steps, ItemText, Prints, ItemOk, Follows, AsGround, IsColour;
      var item, rest := items[0], TextOf(items[1..]);
      ItemThenRest(st, item, rest);
      var mid :| Goes(st, ItemText(item), mid, Prints(item, st.keepSgr)) && AsGround(mid, Coloured(st, item), rest);
      RestJoins(st, ItemText(item), mid, Prints(item, st.keepSgr), Coloured(st, item), rest);
      ItemsPrint(Coloured(st, item), items[1..]);
      ColourFirst(items, st.keepSgr);
    } else {
      GoesNowhere(st);
    }
  }

  lemma {:induction false} ColourFirst(items: seq<Item>, keepSgr: bool)
    requires items != []
    ensures HasColour(items, keepSgr) <==> (keepSgr && IsColour(items[0])) || HasColour(items[1..], keepSgr)
  {
    hide IsColour;
    if k :| 0 <= k < |items| - 1 && IsColour(items[1..][k]) {
      assert IsColour(items[k + 1]);
    }
    assert forall k :: 0 < k < |items| ==> items[k] == items[1..][k - 1];
  }

  // ----- whole runs -----

  // The text a run reads: its bytes decoded, a cut-off character at the end replaced.
  function ReadText(chunks: seq<seq<byte>>): string {
    var (text, rest) := Decode(Flatten(chunks));
    text + if rest == [] then "" else [REPLACEMENT]
  }

  // A run prints what the items of its text print, and a reset behind any colour.
  lemma {:induction false} RunPrints(keepSgr: bool, chunks: seq<seq<byte>>)
    ensures var items := ItemsOf(ReadText(chunks));
            RunOutput(keepSgr, chunks) == PrintsAll(items, keepSgr) + if HasColour(items, keepSgr) then "\U{1B}[0m" else ""
  {
    hide Decode, Steps, PrintsAll, HasColour;
    var s0 := Fresh(keepSgr);
    ChunksDoNotMatter(s0, chunks);
    var bytes := Flatten(chunks);
    assert [] + bytes == bytes;
    var (text, rest) := Decode(bytes);
    var end := if rest == [] then "" else [REPLACEMENT];
    StepsConcat(s0.st, text, end);
    ItemsSpell(text + end);
    ItemsPrint(s0.st, ItemsOf(text + end));
    ResetText();
    var (st, out) := Steps(s0.st, text);
    var (last, more) := Steps(st, end);
    Regrouped(out, more, if last.styled then SGR_RESET else "");
  }

  lemma {:induction false} ResetText()
    ensures SGR_RESET == "\U{1B}[0m"
  {
    assert [ESC] + "[0m" == "\U{1B}[0m";
  }

  lemma {:induction false} Regrouped(a: string, b: string, c: string)
    ensures a + (b + c) == (a + b) + c
  {
  }
}
