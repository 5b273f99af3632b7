// The layout's block stack is a bracket matcher: what it accepts is exactly a forest of
// loops and ifs whose inner keywords stand under a header of their kind.
module ShellBlocks {
  import opened Text
  import opened ShellScan
  import opened ShellShape
  import opened ShellLayout

  // The block structure of a command: openers, inner keywords, closers, plain statements.
  // Statements chained with `&&` or `||` have no token.
  datatype Token =
    | Open(kind: Block)
    | MidElif | MidDo | MidThen | MidElse
    | Close(kind: Block)
    | Plain

  function MarkOf(keyword: Keyword): Token
    requires keyword == Do || keyword == Then || keyword == Else
  {
    match keyword
    case Do => MidDo
    case Then => MidThen
    case _ => MidElse
  }

  // The tokens of one segment, from what its first stage now starts with.
  function TokensOf(stage: Stage, chain: bool): seq<Token>
    requires StageOk(stage)
    decreases |stage.text|
  {
    var word := FirstWord(stage.text);
    AfterWordOk(stage);
    match ParseKeyword(word)
    case None => if chain then [] else [Plain]
    case Some(Header) => [Open(BlockOf(word))]
    case Some(Elif) => [MidElif]
    case Some(Done) => [Close(BlockOf(word))]
    case Some(Fi) => [Close(BlockOf(word))]
    case Some(keyword) =>
      [MarkOf(keyword)] + if AfterWord(stage).text == "" then [] else TokensOf(AfterWord(stage), false)
  }

  // A stage's first token is told by its first word, which ends at a blank.
  lemma {:induction false} TokenByWord(stage: Stage, chain: bool, word: string, rest: string)
    requires StageOk(stage) && stage.text == word + rest && (rest != "" ==> IsSpace(rest[0]))
    requires forall k :: 0 <= k < |word| ==> !IsSpace(word[k])
    ensures var tokens := TokensOf(stage, chain);
            && (word in {"for", "while", "until", "select"} ==> tokens == [Open(Loop)])
            && (word == "if" ==> tokens == [Open(If)])
            && (word == "elif" ==> tokens == [MidElif])
            && (word == "done" ==> tokens == [Close(Loop)])
            && (word == "fi" ==> tokens == [Close(If)])
            && (word in {"do", "then", "else"} ==>
                  var later := TrimStart(rest);
                  && tokens != []
                  && tokens[0] == (if word == "do" then MidDo else if word == "then" then MidThen else MidElse)
                  && (later == "" ==> |tokens| == 1)
                  && (later != "" ==> exists left :: StageOk(left) && left.text == later && tokens[1..] == TokensOf(left, false)))
            && (word !in {"for", "while", "until", "select", "if", "elif", "done", "fi", "do", "then", "else"} ==>
                  tokens == if chain then [] else [Plain])
  {
    WordIs(stage.text, word, rest);
    assert stage.text[|word|..] == rest;
    RestIs(stage);
    TokensUnfold(stage, chain);
    KeywordByWord(word);
    hide *;
  }

  lemma {:induction false} RestIs(stage: Stage)
    ensures AfterWord(stage).text == TrimStart(stage.text[|FirstWord(stage.text)|..])
  {
    hide FirstWord, TrimStart, LaterFlags;
  }

  lemma {:induction false} TokensUnfold(stage: Stage, chain: bool)
    requires StageOk(stage)
    ensures AfterWord(stage).text != "" ==> StageOk(AfterWord(stage))
    ensures var word := FirstWord(stage.text);
            TokensOf(stage, chain) ==
            match ParseKeyword(word)
            case None => if chain then [] else [Plain]
            case Some(Header) => [Open(BlockOf(word))]
            case Some(Elif) => [MidElif]
            case Some(Done) => [Close(BlockOf(word))]
            case Some(Fi) => [Close(BlockOf(word))]
            case Some(keyword) =>
              [MarkOf(keyword)] + if AfterWord(stage).text == "" then [] else TokensOf(AfterWord(stage), false)
  {
    AfterWordOk(stage);
    hide StageOk, FirstWord, AfterWord, ParseKeyword, BlockOf;
  }

  lemma {:induction false} KeywordByWord(word: string)
    ensures word in {"for", "while", "until", "select"} ==> ParseKeyword(word) == Some(Header) && BlockOf(word) == Loop
    ensures word == "if" ==> ParseKeyword(word) == Some(Header) && BlockOf(word) == If
    ensures word == "elif" ==> ParseKeyword(word) == Some(Elif)
    ensures word == "done" ==> ParseKeyword(word) == Some(Done) && BlockOf(word) == Loop
    ensures word == "fi" ==> ParseKeyword(word) == Some(Fi) && BlockOf(word) == If
    ensures word == "do" ==> ParseKeyword(word) == Some(Do) && MarkOf(Do) == MidDo
    ensures word == "then" ==> ParseKeyword(word) == Some(Then) && MarkOf(Then) == MidThen
    ensures word == "else" ==> ParseKeyword(word) == Some(Else) && MarkOf(Else) == MidElse
    ensures word !in {"for", "while", "until", "select", "if", "elif", "done", "fi", "do", "then", "else"} ==> ParseKeyword(word).None?
  {
  }

  lemma {:induction false} WordIs(text: string, word: string, rest: string)
    requires text == word + rest && text != "" && !IsSpace(text[0]) && (rest != "" ==> IsSpace(rest[0]))
    requires forall k :: 0 <= k < |word| ==> !IsSpace(word[k])
    ensures FirstWord(text) == word
  {
    hide IsSpace;
    assert LeadEnd(text, 0) == 0;
    WordEndIs(text, |word|, 0);
    assert rest != "" ==> text[|word|] == rest[0];
    assert text[0..|word|] == word;
  }

  lemma {:induction false} WordEndIs(text: string, end: nat, i: nat)
    requires i <= end <= |text| && (end < |text| ==> IsSpace(text[end])) && forall k :: 0 <= k < end ==> !IsSpace(text[k])
    ensures WordEnd(text, i) == end
    decreases end - i
  {
    hide IsSpace;
    if i < end {
      WordEndIs(text, end, i + 1);
    }
  }

  // The tokens of the first `k` segments.
  function CommandTokens(segments: seq<Segment>, k: nat): seq<Token>
    requires SegmentsOk(segments) && k <= |segments|
  {
    if k == 0 then []
    else
      assert SegmentOk(segments[k - 1]) && StageOk(segments[k - 1].stages[0]);
      CommandTokens(segments, k - 1) + TokensOf(segments[k - 1].stages[0], IsChain(PrevSep(segments, k - 1)))
  }

  // ----- the stack machine on tokens -----

  datatype State = State(stack: seq<Block>, header: bool)

  predicate Opens(t: Token) {
    t.Open? || t == MidElif
  }

  function StepToken(st: State, t: Token): Option<State> {
    match t
    case Plain => Some(State(st.stack, false))
    case Open(kind) => Some(State(st.stack + [kind], true))
    case MidElif => if Last(st.stack) == Some(If) then Some(State(st.stack, true)) else None
    case MidDo => if st.header && Last(st.stack) == Some(Loop) then Some(State(st.stack, false)) else None
    case MidThen => if st.header && Last(st.stack) == Some(If) then Some(State(st.stack, false)) else None
    case MidElse => if Last(st.stack) == Some(If) then Some(State(st.stack, false)) else None
    case Close(kind) =>
      if !st.header && Last(st.stack) == Some(kind) then Some(State(st.stack[..|st.stack| - 1], false)) else None
  }

  function Run(tokens: seq<Token>, st: State): Option<State> {
    if tokens == [] then Some(st)
    else
      match StepToken(st, tokens[0])
      case None => None
      case Some(next) => Run(tokens[1..], next)
  }

  predicate Accepted(tokens: seq<Token>) {
    Run(tokens, State([], false)) == Some(State([], false))
  }

  lemma {:induction false} RunConcat(a: seq<Token>, b: seq<Token>, st: State)
    ensures Run(a + b, st)
         == match Run(a, st)
            case None => None
            case Some(mid) => Run(b, mid)
  {
    hide StepToken;
    if a == [] {
      assert a + b == b;
    } else {
      assert (a + b)[1..] == a[1..] + b;
      var next := StepToken(st, a[0]);
      if next.Some? {
        RunConcat(a[1..], b, next.value);
      }
    }
  }

  lemma {:induction false} RunFirst(t: Token, rest: seq<Token>, st: State)
    ensures Run([t] + rest, st)
         == match StepToken(st, t)
            case None => None
            case Some(next) => Run(rest, next)
  {
    hide StepToken;
    assert ([t] + rest)[1..] == rest;
  }

  // ----- the layout drives this machine -----

  function StateOf(lay: Lay): State {
    State(lay.stack, lay.headerOpen)
  }

  lemma {:induction false} KeywordToken(lay: Lay, keyword: Keyword, word: string, joined: string, sep: Sep, fence: bool)
    requires LayOk(lay) && ParseKeyword(word) == Some(keyword)
    requires KeywordDone(lay, keyword, word, joined, sep, fence).Some?
    ensures var (lay', more) := KeywordDone(lay, keyword, word, joined, sep, fence).value;
            && (more <==> keyword == Do || keyword == Then || keyword == Else)
            && StepToken(StateOf(lay),
                         if more then MarkOf(keyword)
                         else if keyword == Header then Open(BlockOf(word))
                         else if keyword == Elif then MidElif
                         else Close(BlockOf(word))) == Some(StateOf(lay'))
  {
    hide Line, Join;
  }

  lemma {:induction false} PlaceRuns(lay: Lay, stages: seq<Stage>, sep: Sep, prev: Sep, chain: bool, width: nat, fence: bool)
    requires LayOk(lay) && StagesOk(stages) && stages != [] && StageOk(stages[0])
    requires Place(lay, stages, sep, prev, chain, width, fence).Some?
    ensures Run(TokensOf(stages[0], chain), StateOf(lay))
         == Some(StateOf(Place(lay, stages, sep, prev, chain, width, fence).value))
    decreases |stages[0].text|
  {
    hide ParseKeyword, JoinStages, StageOk, KeywordDone, StatementLines, StatementIndent, FirstWord, StepToken, Run,
         MarkOf, AfterWord, BlockOf;
    var word := FirstWord(stages[0].text);
    var keyword := ParseKeyword(word);
    RunNothing(StateOf(lay));
    if keyword.None? {
      PlainToken(lay);
      assert [Plain] + [] == [Plain];
      RunFirst(Plain, [], StateOf(lay));
      RunNothing(State(lay.stack, false));
    } else {
      var joined := JoinStages(stages);
      KeywordToken(lay, keyword.value, word, joined, sep, fence);
      var (lay', more) := KeywordDone(lay, keyword.value, word, joined, sep, fence).value;
      RunNothing(StateOf(lay'));
      var first := AfterWord(stages[0]);
      if more {
        AfterWordOk(stages[0]);
        var rest := if first.text == "" then [] else TokensOf(first, false);
        RunFirst(MarkOf(keyword.value), rest, StateOf(lay));
        if first.text != "" {
          PlaceRuns(lay', stages[0 := first], sep, prev, false, width, fence);
        }
      } else {
        var t := TokensOf(stages[0], chain)[0];
        assert TokensOf(stages[0], chain) == [t] + [];
        RunFirst(t, [], StateOf(lay));
      }
    }
  }

  lemma {:induction false} RunNothing(st: State)
    ensures Run([], st) == Some(st)
  {
  }

  lemma {:induction false} PlainToken(lay: Lay)
    ensures StepToken(StateOf(lay), Plain) == Some(State(lay.stack, false))
  {
  }

  lemma {:induction false} LayUpToRuns(segments: seq<Segment>, k: nat, width: nat, fence: bool)
    requires k <= |segments| && SegmentsOk(segments) && LayUpTo(segments, k, width, fence).Some?
    ensures Run(CommandTokens(segments, k), State([], false)) == Some(StateOf(LayUpTo(segments, k, width, fence).value))
  {
    hide Run, Place, TokensOf, StageOk;
    if k == 0 {
      RunNothing(State([], false));
    } else {
      LayUpToRuns(segments, k - 1, width, fence);
      var seg, prev := segments[k - 1], PrevSep(segments, k - 1);
      assert SegmentOk(seg);
      var lay := LayUpTo(segments, k - 1, width, fence).value;
      PlaceRuns(lay, seg.stages, seg.sep, prev, IsChain(prev), width, fence);
      RunConcat(CommandTokens(segments, k - 1), TokensOf(seg.stages[0], IsChain(prev)), State([], false));
    }
  }

  // ----- the independent reading: a forest -----

  datatype Item = Mark(token: Token) | Nested(kind: Block, body: seq<Item>)

  function Spell(items: seq<Item>): seq<Token>
    decreases items
  {
    if items == [] then [] else
      (match items[0]
       case Mark(t) => [t]
       case Nested(kind, body) => [Open(kind)] + Spell(body) + [Close(kind)])
      + Spell(items[1..])
  }

  // `do` only directly in a loop; `then`, `elif` and `else` only directly in an if.
  predicate FitsIn(t: Token, inside: Option<Block>) {
    match t
    case Plain => true
    case MidDo => inside == Some(Loop)
    case MidThen | MidElif | MidElse => inside == Some(If)
    case Open(_) | Close(_) => false
  }

  predicate WellPlaced(items: seq<Item>, inside: Option<Block>)
    decreases items
  {
    items == [] ||
    (&& (match items[0]
         case Mark(t) => FitsIn(t, inside)
         case Nested(kind, body) => WellPlaced(body, Some(kind)))
     && WellPlaced(items[1..], inside))
  }

  // `do` and `then` directly follow their header; no block or command ends in a header.
  predicate Adjacent(tokens: seq<Token>) {
    && (forall k :: 0 <= k < |tokens| && (tokens[k] == MidDo || tokens[k] == MidThen) ==> k > 0 && Opens(tokens[k - 1]))
    && (forall k :: 0 < k < |tokens| && tokens[k].Close? ==> !Opens(tokens[k - 1]))
    && (tokens != [] ==> !Opens(tokens[|tokens| - 1]))
  }

  ghost predicate Bracketed(tokens: seq<Token>) {
    && Adjacent(tokens)
    && exists items :: WellPlaced(items, None) && Spell(items) == tokens
  }

  // The same adjacency, read from the left with what stood before.
  predicate FollowsOn(tokens: seq<Token>, header: bool) {
    if tokens == [] then !header else
      && (tokens[0] == MidDo || tokens[0] == MidThen ==> header)
      && (tokens[0].Close? ==> !header)
      && FollowsOn(tokens[1..], Opens(tokens[0]))
  }

  // Whether `tokens[k]` may stand after its neighbour, and `k == |tokens|` may be the end.
  predicate FitsAt(tokens: seq<Token>, header: bool, k: nat)
    requires k <= |tokens|
  {
    var before := if k == 0 then header else Opens(tokens[k - 1]);
    if k == |tokens| then !before
    else (tokens[k] == MidDo || tokens[k] == MidThen ==> before) && (tokens[k].Close? ==> !before)
  }

  lemma {:induction false} FollowsIffFits(tokens: seq<Token>, header: bool)
    ensures FollowsOn(tokens, header) <==> forall k :: 0 <= k <= |tokens| ==> FitsAt(tokens, header, k)
  {
    if tokens != [] {
      var rest, opens := tokens[1..], Opens(tokens[0]);
      FollowsIffFits(rest, opens);
      assert FitsAt(tokens, header, 0) <==>
          (tokens[0] == MidDo || tokens[0] == MidThen ==> header) && (tokens[0].Close? ==> !header);
      forall k | 0 <= k <= |rest| ensures FitsAt(rest, opens, k) <==> FitsAt(tokens, header, k + 1) {
      }
      if forall k :: 0 <= k <= |tokens| ==> FitsAt(tokens, header, k) {
        forall k | 0 <= k <= |rest| ensures FitsAt(rest, opens, k) {
          assert FitsAt(tokens, header, k + 1);
        }
      }
      if FollowsOn(tokens, header) {
        forall k | 0 < k <= |tokens| ensures FitsAt(tokens, header, k) {
          assert FitsAt(rest, opens, k - 1);
        }
      }
    } else {
      assert FollowsOn(tokens, header) <==> FitsAt(tokens, header, 0);
    }
  }

  lemma {:induction false} FollowsIsAdjacent(tokens: seq<Token>)
    ensures FollowsOn(tokens, false) <==> Adjacent(tokens)
  {
    hide FollowsOn;
    FollowsIffFits(tokens, false);
    if Adjacent(tokens) {
      forall k | 0 <= k <= |tokens| ensures FitsAt(tokens, false, k) {
      }
    }
    if forall k :: 0 <= k <= |tokens| ==> FitsAt(tokens, false, k) {
      assert FitsAt(tokens, false, |tokens|);
      forall k | 0 <= k < |tokens| && (tokens[k] == MidDo || tokens[k] == MidThen)
        ensures k > 0 && Opens(tokens[k - 1])
      {
        assert FitsAt(tokens, false, k);
      }
      forall k | 0 < k < |tokens| && tokens[k].Close? ensures !Opens(tokens[k - 1]) {
        assert FitsAt(tokens, false, k);
      }
      assert Adjacent(tokens);
    }
  }

  // ----- acceptance gives a forest -----

  function InsideAt(stack: seq<Block>, level: nat): Option<Block>
    requires level <= |stack|
  {
    if level == 0 then None else Some(stack[level - 1])
  }

  // What is still to come under each open block, innermost first, with its closers.
  function Weave(stack: seq<Block>, forests: seq<seq<Item>>): seq<Token>
    requires |forests| == |stack| + 1
    decreases |stack|
  {
    var n := |stack|;
    if n == 0 then Spell(forests[0])
    else Spell(forests[n]) + [Close(stack[n - 1])] + Weave(stack[..n - 1], forests[..n])
  }

  predicate AllPlaced(stack: seq<Block>, forests: seq<seq<Item>>) {
    && |forests| == |stack| + 1
    && forall k :: 0 <= k < |forests| ==> WellPlaced(forests[k], InsideAt(stack, k))
  }

  lemma {:induction false} WeaveTop(stack: seq<Block>, forests: seq<seq<Item>>, top: seq<Item>, t: seq<Token>)
    requires |forests| == |stack| + 1 && Spell(top) == t + Spell(forests[|stack|])
    ensures Weave(stack, forests[|stack| := top]) == t + Weave(stack, forests)
  {
    hide Spell;
    var n := |stack|;
    assert forests[n := top][..n] == forests[..n];
  }

  lemma {:induction false} SpellMark(t: Token, items: seq<Item>)
    ensures Spell([Mark(t)] + items) == [t] + Spell(items)
    ensures forall inside :: WellPlaced([Mark(t)] + items, inside) <==> FitsIn(t, inside) && WellPlaced(items, inside)
  {
    assert ([Mark(t)] + items)[1..] == items;
  }

  lemma {:induction false} SpellNested(kind: Block, body: seq<Item>, items: seq<Item>)
    ensures Spell([Nested(kind, body)] + items) == [Open(kind)] + Spell(body) + [Close(kind)] + Spell(items)
    ensures forall inside ::
              WellPlaced([Nested(kind, body)] + items, inside) <==> WellPlaced(body, Some(kind)) && WellPlaced(items, inside)
  {
    assert ([Nested(kind, body)] + items)[1..] == items;
  }

  lemma {:induction false} RunToForests(tokens: seq<Token>, st: State) returns (forests: seq<seq<Item>>)
    requires Run(tokens, st) == Some(State([], false))
    requires st.header ==> st.stack != []
    ensures AllPlaced(st.stack, forests) && Weave(st.stack, forests) == tokens
    ensures FollowsOn(tokens, st.header)
  {
    var n := |st.stack|;
    if tokens == [] {
      forests := [[]];
    } else {
      var t, rest := tokens[0], tokens[1..];
      assert tokens == [t] + rest;
      var next := StepToken(st, t).value;
      var later := RunToForests(rest, next);
      match t
      case Open(kind) =>
        forests := OpenForests(st.stack, kind, later);
      case Close(kind) =>
        forests := later + [[]];
        CloseForests(st.stack, later);
      case _ =>
        forests := MarkForests(st.stack, t, later);
    }
  }

  lemma {:induction false} MarkForests(stack: seq<Block>, t: Token, later: seq<seq<Item>>) returns (forests: seq<seq<Item>>)
    requires AllPlaced(stack, later) && FitsIn(t, InsideAt(stack, |stack|))
    ensures AllPlaced(stack, forests) && Weave(stack, forests) == [t] + Weave(stack, later)
  {
    hide Spell, WellPlaced, Weave, FitsIn;
    var top := [Mark(t)] + later[|stack|];
    SpellMark(t, later[|stack|]);
    forests := later[|stack| := top];
    WeaveTop(stack, later, top, [t]);
  }

  lemma {:induction false} OpenForests(stack: seq<Block>, kind: Block, later: seq<seq<Item>>) returns (forests: seq<seq<Item>>)
    requires AllPlaced(stack + [kind], later)
    ensures AllPlaced(stack, forests)
    ensures Weave(stack, forests) == [Open(kind)] + Weave(stack + [kind], later)
  {
    hide Spell, WellPlaced;
    var n := |stack|;
    var outer := later[..n + 1];
    var top := [Nested(kind, later[n + 1])] + outer[n];
    SpellNested(kind, later[n + 1], outer[n]);
    forests := outer[n := top];
    assert (stack + [kind])[..n] == stack;
    forall k | 0 <= k < |forests| ensures WellPlaced(forests[k], InsideAt(stack, k)) {
      assert WellPlaced(later[k], InsideAt(stack + [kind], k));
      assert WellPlaced(later[n + 1], InsideAt(stack + [kind], n + 1));
    }
    OpenWeave(stack, kind, later, outer, top);
  }

  lemma {:induction false} OpenWeave(stack: seq<Block>, kind: Block, later: seq<seq<Item>>, outer: seq<seq<Item>>, top: seq<Item>)
    requires |later| == |stack| + 2 && outer == later[..|stack| + 1]
    requires Spell(top) == [Open(kind)] + Spell(later[|stack| + 1]) + [Close(kind)] + Spell(outer[|stack|])
    ensures Weave(stack, outer[|stack| := top]) == [Open(kind)] + Weave(stack + [kind], later)
  {
    hide Spell;
    var n := |stack|;
    WeaveTop(stack, outer, top, [Open(kind)] + Spell(later[n + 1]) + [Close(kind)]);
    assert (stack + [kind])[..n] == stack;
  }

  lemma {:induction false} CloseForests(stack: seq<Block>, later: seq<seq<Item>>)
    requires stack != [] && AllPlaced(stack[..|stack| - 1], later)
    ensures AllPlaced(stack, later + [[]])
    ensures Weave(stack, later + [[]]) == [Close(stack[|stack| - 1])] + Weave(stack[..|stack| - 1], later)
  {
    var n := |stack|;
    assert (later + [[]])[..n] == later;
    forall k | 0 <= k < n ensures WellPlaced((later + [[]])[k], InsideAt(stack, k)) {
      assert WellPlaced(later[k], InsideAt(stack[..n - 1], k));
    }
  }

  // ----- a forest is accepted -----

  lemma {:induction false} ForestRuns(items: seq<Item>, rest: seq<Token>, st: State)
    requires WellPlaced(items, Last(st.stack)) && FollowsOn(Spell(items) + rest, st.header)
    ensures exists header ::
              Run(Spell(items) + rest, st) == Run(rest, State(st.stack, header)) && FollowsOn(rest, header)
    decreases items
  {
    if items == [] {
      assert Spell(items) + rest == rest;
      assert Run(Spell(items) + rest, st) == Run(rest, State(st.stack, st.header)) && FollowsOn(rest, st.header);
    } else {
      var after := Spell(items[1..]) + rest;
      match items[0]
      case Mark(t) =>
        assert Spell(items) + rest == [t] + after;
        FollowsFirst(t, after, st.header);
        RunFirst(t, after, st);
        ForestRuns(items[1..], rest, State(st.stack, Opens(t)));
      case Nested(kind, body) =>
        var tail := [Close(kind)] + after;
        assert Spell(items) + rest == [Open(kind)] + (Spell(body) + tail);
        FollowsFirst(Open(kind), Spell(body) + tail, st.header);
        RunFirst(Open(kind), Spell(body) + tail, st);
        var inner := State(st.stack + [kind], true);
        ForestRuns(body, tail, inner);
        var header :| Run(Spell(body) + tail, inner) == Run(tail, State(inner.stack, header)) && FollowsOn(tail, header);
        FollowsFirst(Close(kind), after, header);
        RunFirst(Close(kind), after, State(inner.stack, header));
        assert inner.stack[..|st.stack|] == st.stack;
        ForestRuns(items[1..], rest, State(st.stack, false));
    }
  }

  lemma {:induction false} FollowsFirst(t: Token, rest: seq<Token>, header: bool)
    ensures FollowsOn([t] + rest, header)
       <==> && (t == MidDo || t == MidThen ==> header) && (t.Close? ==> !header) && FollowsOn(rest, Opens(t))
  {
    assert ([t] + rest)[1..] == rest;
  }

  // The stack machine accepts exactly the bracketed token lists.
  lemma {:induction false} AcceptedIffBracketed(tokens: seq<Token>)
    ensures Accepted(tokens) <==> Bracketed(tokens)
  {
    hide Run, Spell, WellPlaced, FollowsOn, Weave;
    FollowsIsAdjacent(tokens);
    if Accepted(tokens) {
      var forests := RunToForests(tokens, State([], false));
      assert Weave([], forests) == Spell(forests[0]) by { WeaveFlat(forests); }
      assert WellPlaced(forests[0], InsideAt([], 0));
    }
    if Bracketed(tokens) {
      var items :| WellPlaced(items, None) && Spell(items) == tokens;
      assert Spell(items) + [] == tokens;
      ForestRuns(items, [], State([], false));
      var header :| Run(tokens, State([], false)) == Run([], State([], header)) && FollowsOn([], header);
      RunNothing(State([], header));
      assert !header by { EndFollows(header); }
    }
  }

  lemma {:induction false} WeaveFlat(forests: seq<seq<Item>>)
    requires |forests| == 1
    ensures Weave([], forests) == Spell(forests[0])
  {
    hide Spell;
  }

  lemma {:induction false} EndFollows(header: bool)
    requires FollowsOn([], header)
    ensures !header
  {
  }

  // ----- exactly which commands are laid out -----

  // What a stage comes to behind its leading `do`, `then` and `else`.
  datatype Lead = Statement | Keyworded(keyword: Keyword) | Nothing

  predicate LeadsOn(keyword: Keyword) {
    keyword == Do || keyword == Then || keyword == Else
  }

  function LeadOf(stage: Stage): Lead
    requires StageOk(stage)
    decreases |stage.text|
  {
    AfterWordOk(stage);
    match ParseKeyword(FirstWord(stage.text))
    case None => Statement
    case Some(keyword) =>
      if !LeadsOn(keyword) then Keyworded(keyword)
      else if AfterWord(stage).text == "" then Nothing
      else LeadOf(AfterWord(stage))
  }

  function FirstKeyword(stage: Stage): Option<Keyword> {
    ParseKeyword(FirstWord(stage.text))
  }

  // Where keywords may stand: not behind `&&` or `||`; behind `&` only a header; no header or `elif`
  // ends with `&`; and a lone `do`, `then` or `else` is its segment's only stage, before `;` or the end.
  predicate Fits(stage: Stage, alone: bool, sep: Sep, prev: Sep, chain: bool)
    requires StageOk(stage)
  {
    && (chain ==> FirstKeyword(stage).None?)
    && (prev == Background && FirstKeyword(stage).Some? ==> FirstKeyword(stage) == Some(Header))
    && (LeadOf(stage) == Keyworded(Header) || LeadOf(stage) == Keyworded(Elif) ==> sep != Background)
    && (LeadOf(stage) == Nothing ==> alone && (sep == NoSep || sep == Semi))
  }

  predicate SegmentFits(segments: seq<Segment>, k: nat)
    requires SegmentsOk(segments) && k < |segments|
  {
    assert SegmentOk(segments[k]);
    Fits(segments[k].stages[0], |segments[k].stages| == 1, segments[k].sep, PrevSep(segments, k), IsChain(PrevSep(segments, k)))
  }

  // Something was printed before a block was opened.
  predicate Printed(lay: Lay) {
    lay.stack != [] ==> lay.lines != []
  }

  // The token of a keyword.
  function TokenOf(keyword: Keyword, word: string): Token {
    if LeadsOn(keyword) then MarkOf(keyword)
    else if keyword == Header then Open(BlockOf(word))
    else if keyword == Elif then MidElif
    else Close(BlockOf(word))
  }

  lemma {:induction false} KeywordIff(lay: Lay, keyword: Keyword, word: string, joined: string, sep: Sep, fence: bool)
    requires LayOk(lay) && Printed(lay) && ParseKeyword(word) == Some(keyword)
    ensures var done := KeywordDone(lay, keyword, word, joined, sep, fence);
            && (done.Some? <==>
                StepToken(StateOf(lay), TokenOf(keyword, word)).Some? && (keyword == Header || keyword == Elif ==> sep != Background))
            && (done.Some? ==>
                && done.value.1 == LeadsOn(keyword)
                && StepToken(StateOf(lay), TokenOf(keyword, word)) == Some(StateOf(done.value.0)))
  {
    hide Line, Join;
  }

  // The tokens behind the first keyword.
  function RestTokens(stage: Stage): seq<Token>
    requires StageOk(stage)
  {
    AfterWordOk(stage);
    if LeadsOn(FirstKeyword(stage).GetOr(Done)) && AfterWord(stage).text != "" then TokensOf(AfterWord(stage), false) else []
  }

  lemma {:induction false} TokensFirst(stage: Stage, chain: bool)
    requires StageOk(stage) && FirstKeyword(stage).Some?
    ensures TokensOf(stage, chain) == [TokenOf(FirstKeyword(stage).value, FirstWord(stage.text))] + RestTokens(stage)
  {
    hide StageOk, FirstWord, AfterWord, ParseKeyword, BlockOf;
  }

  lemma {:induction false} RunsFirst(st: State, stage: Stage, chain: bool)
    requires StageOk(stage) && FirstKeyword(stage).Some?
    ensures var next := StepToken(st, TokenOf(FirstKeyword(stage).value, FirstWord(stage.text)));
            Run(TokensOf(stage, chain), st).Some? <==> next.Some? && Run(RestTokens(stage), next.value).Some?
  {
    hide StageOk, FirstWord, FirstKeyword, TokenOf, StepToken, Run, TokensOf, RestTokens;
    TokensFirst(stage, chain);
    RunFirst(TokenOf(FirstKeyword(stage).value, FirstWord(stage.text)), RestTokens(stage), st);
  }

  predicate RestFits(stage: Stage, alone: bool, sep: Sep, prev: Sep)
    requires StageOk(stage) && FirstKeyword(stage).Some?
  {
    AfterWordOk(stage);
    var keyword := FirstKeyword(stage).value;
    if !LeadsOn(keyword) then keyword == Header || keyword == Elif ==> sep != Background
    else if AfterWord(stage).text == "" then alone && (sep == NoSep || sep == Semi)
    else Fits(AfterWord(stage), alone, sep, prev, false)
  }

  lemma {:induction false} FitsFirst(stage: Stage, alone: bool, sep: Sep, prev: Sep, chain: bool)
    requires StageOk(stage) && FirstKeyword(stage).Some?
    ensures Fits(stage, alone, sep, prev, chain) <==>
            !chain && (prev == Background ==> FirstKeyword(stage) == Some(Header)) && RestFits(stage, alone, sep, prev)
  {
    hide StageOk, FirstWord, AfterWord, ParseKeyword;
  }

  lemma {:induction false} PlaceFirst(lay: Lay, stages: seq<Stage>, sep: Sep, prev: Sep, chain: bool, width: nat, fence: bool)
    requires LayOk(lay) && StagesOk(stages) && stages != [] && FirstKeyword(stages[0]).Some?
    ensures var keyword := FirstKeyword(stages[0]).value;
            var done := KeywordDone(lay, keyword, FirstWord(stages[0].text), JoinStages(stages), sep, fence);
            Place(lay, stages, sep, prev, chain, width, fence).Some? <==>
            && !chain && (prev == Background ==> keyword == Header) && done.Some?
            && (done.value.1 ==> PlaceRest(done.value.0, stages, sep, prev, width, fence).Some?)
  {
    hide StageOk, FirstWord, ParseKeyword, KeywordDone, PlaceRest, JoinStages, Stated;
  }

  // A segment is placed exactly when its tokens run and its keywords stand where they may.
  lemma {:induction false} PlaceIff(lay: Lay, stages: seq<Stage>, sep: Sep, prev: Sep, chain: bool, width: nat, fence: bool)
    requires LayOk(lay) && Printed(lay) && StagesOk(stages) && stages != [] && StageOk(stages[0])
    ensures Place(lay, stages, sep, prev, chain, width, fence).Some? <==>
            Run(TokensOf(stages[0], chain), StateOf(lay)).Some? && Fits(stages[0], |stages| == 1, sep, prev, chain)
    decreases |stages[0].text|, 1
  {
    var stage := stages[0];
    if FirstKeyword(stage).None? {
      StatementFits(lay, stages, sep, prev, chain, width, fence);
    } else {
      hide *;
      var word, keyword := FirstWord(stage.text), FirstKeyword(stage).value;
      PlaceFirst(lay, stages, sep, prev, chain, width, fence);
      FitsFirst(stage, |stages| == 1, sep, prev, chain);
      RunsFirst(StateOf(lay), stage, chain);
      KeywordIs(stage);
      KeywordIff(lay, keyword, word, JoinStages(stages), sep, fence);
      RestMeans(stage, |stages| == 1, sep, prev);
      if KeywordDone(lay, keyword, word, JoinStages(stages), sep, fence).Some? {
        var (lay', more) := KeywordDone(lay, keyword, word, JoinStages(stages), sep, fence).value;
        if more && prev != Background {
          PlaceRestIff(lay', stages, sep, prev, width, fence);
        }
        RunNothing(StateOf(lay'));
      }
    }
  }

  lemma {:induction false} KeywordIs(stage: Stage)
    ensures FirstKeyword(stage) == ParseKeyword(FirstWord(stage.text))
  {
  }

  lemma {:induction false} RestMeans(stage: Stage, alone: bool, sep: Sep, prev: Sep)
    requires StageOk(stage) && FirstKeyword(stage).Some?
    ensures var keyword := FirstKeyword(stage).value;
            && (!LeadsOn(keyword) ==>
                  && RestTokens(stage) == []
                  && (RestFits(stage, alone, sep, prev) <==> (keyword == Header || keyword == Elif ==> sep != Background)))
            && (LeadsOn(keyword) ==> keyword != Header && keyword != Elif)
  {
    hide StageOk, FirstKeyword, AfterWord, Fits;
  }

  lemma {:induction false} PlaceRestIff(lay: Lay, stages: seq<Stage>, sep: Sep, prev: Sep, width: nat, fence: bool)
    requires LayOk(lay) && lay.lines != [] && StagesOk(stages) && stages != [] && StageOk(stages[0]) && prev != Background
    requires FirstKeyword(stages[0]).Some? && LeadsOn(FirstKeyword(stages[0]).value)
    ensures PlaceRest(lay, stages, sep, prev, width, fence).Some? <==>
            Run(RestTokens(stages[0]), StateOf(lay)).Some? && RestFits(stages[0], |stages| == 1, sep, prev)
    decreases |stages[0].text|, 0
  {
    hide StageOk, AfterWord, Run, TokensOf, Place, Fits, Suffix, FirstKeyword;
    AfterWordOk(stages[0]);
    var first := AfterWord(stages[0]);
    if first.text == "" {
      RunNothing(StateOf(lay));
    } else {
      PlaceIff(lay, stages[0 := first], sep, prev, false, width, fence);
    }
  }

  lemma {:induction false} StatementFits(lay: Lay, stages: seq<Stage>, sep: Sep, prev: Sep, chain: bool, width: nat, fence: bool)
    requires LayOk(lay) && StagesOk(stages) && stages != [] && StageOk(stages[0]) && FirstKeyword(stages[0]).None?
    ensures Place(lay, stages, sep, prev, chain, width, fence).Some?
    ensures Run(TokensOf(stages[0], chain), StateOf(lay)).Some?
    ensures Fits(stages[0], |stages| == 1, sep, prev, chain)
  {
    hide StageOk, FirstWord, AfterWord, ParseKeyword, Stated, Run, StepToken;
    RunNothing(StateOf(lay));
    PlainToken(lay);
    RunFirst(Plain, [], StateOf(lay));
    RunNothing(State(lay.stack, false));
    assert [Plain] + [] == [Plain];
  }

  lemma {:induction false} PlacePrints(lay: Lay, stages: seq<Stage>, sep: Sep, prev: Sep, chain: bool, width: nat, fence: bool)
    requires LayOk(lay) && StagesOk(stages) && stages != []
    requires Place(lay, stages, sep, prev, chain, width, fence).Some?
    ensures Place(lay, stages, sep, prev, chain, width, fence).value.lines != []
    decreases |stages[0].text|
  {
    hide ParseKeyword, JoinStages, StageOk, KeywordDone, StatementIndent, FirstWord, AfterWord, StageLines, PipeLines, Line;
    if FirstKeyword(stages[0]).None? {
      StatementPrints(StatementIndent(lay, chain), stages, sep, width, fence);
    } else {
      AfterWordOk(stages[0]) by { StageFlags(stages, 0); assert StageOk(stages[0]); }
      var first := AfterWord(stages[0]);
      var done := KeywordDone(lay, FirstKeyword(stages[0]).value, FirstWord(stages[0].text), JoinStages(stages), sep, fence).value;
      if done.1 && first.text != "" {
        PlacePrints(done.0, stages[0 := first], sep, prev, false, width, fence);
      }
    }
  }

  lemma {:induction false} StatementPrints(indent: nat, stages: seq<Stage>, sep: Sep, width: nat, fence: bool)
    requires StagesOk(stages) && stages != []
    ensures StatementLines(indent, stages, sep, width, fence) != []
  {
    hide StageOk, FlagsOk, Line, Pieces, JoinStages, Suffix;
    StageFlags(stages, |stages| - 1);
  }

  lemma {:induction false} LayUpToIff(segments: seq<Segment>, k: nat, width: nat, fence: bool)
    requires k <= |segments| && SegmentsOk(segments)
    ensures LayUpTo(segments, k, width, fence).Some? <==>
            Run(CommandTokens(segments, k), State([], false)).Some? && forall j :: 0 <= j < k ==> SegmentFits(segments, j)
    ensures LayUpTo(segments, k, width, fence).Some? ==> Printed(LayUpTo(segments, k, width, fence).value)
  {
    hide Run, Place, TokensOf, StageOk, Fits;
    if k == 0 {
      RunNothing(State([], false));
    } else {
      LayUpToIff(segments, k - 1, width, fence);
      var seg, prev := segments[k - 1], PrevSep(segments, k - 1);
      assert SegmentOk(seg) && StageOk(seg.stages[0]);
      assert SegmentFits(segments, k - 1) == Fits(seg.stages[0], |seg.stages| == 1, seg.sep, prev, IsChain(prev));
      assert CommandTokens(segments, k) == CommandTokens(segments, k - 1) + TokensOf(seg.stages[0], IsChain(prev));
      RunConcat(CommandTokens(segments, k - 1), TokensOf(seg.stages[0], IsChain(prev)), State([], false));
      if LayUpTo(segments, k - 1, width, fence).Some? {
        LayUpToRuns(segments, k - 1, width, fence);
        var lay := LayUpTo(segments, k - 1, width, fence).value;
        PlaceIff(lay, seg.stages, seg.sep, prev, IsChain(prev), width, fence);
        if LayUpTo(segments, k, width, fence).Some? {
          PlacePrints(lay, seg.stages, seg.sep, prev, IsChain(prev), width, fence);
        }
      }
    }
  }

  // A command is laid out exactly when its blocks are well nested and every keyword stands where
  // it may; the width and the kind of output do not matter.
  lemma {:induction false} LayoutIff(segments: seq<Segment>, width: nat, fence: bool)
    requires SegmentsOk(segments)
    ensures LayoutSpec(segments, width, fence).Some? <==>
            && Bracketed(CommandTokens(segments, |segments|))
            && forall k :: 0 <= k < |segments| ==> SegmentFits(segments, k)
  {
    hide LayUpTo, Run, CommandTokens, Bracketed, SegmentOk, SegmentFits;
    LayUpToIff(segments, |segments|, width, fence);
    AcceptedIffBracketed(CommandTokens(segments, |segments|));
    if LayUpTo(segments, |segments|, width, fence).Some? {
      LayUpToRuns(segments, |segments|, width, fence);
    }
  }
}
