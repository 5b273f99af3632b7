// The scanner of the shell command formatter: cuts a command into segments (ended by
// `;`, `&&`, `||`, `&` or the end) and each segment into pipeline stages.
// A stage remembers where its flags start, as offsets into its text.
module ShellScan {
  import opened Text

  datatype Sep = NoSep | Semi | And | Or | Background | Pipe

  function Suffix(sep: Sep, fence: bool): string {
    match sep
    case NoSep => ""
    case Semi => if fence then ";" else ""
    case And => " &&"
    case Or => " ||"
    case Background => " &"
    case Pipe => " |"
  }

  predicate IsChain(sep: Sep) {
    sep == And || sep == Or
  }

  datatype Stage = Stage(text: string, flags: seq<nat>)
  datatype Segment = Segment(stages: seq<Stage>, sep: Sep)
  datatype Ctx = Double | Paren | DollarBrace | Backtick

  // What one round of the scanner's loop does with the characters at its index.
  datatype Act =
    | Reject
    | Copy(n: nat, stack: seq<Ctx>, groups: nat, plain: bool)
    | Cut(sep: Sep, n: nat)
    | Bar

  // The scanner's fields, as a value.
  datatype Scan = Scan(segments: seq<Segment>, stages: seq<Stage>, current: string,
                       flags: seq<nat>, optionsEnded: bool)

  const START := Scan([], [], "", [], false)

  function At(chars: string, i: nat): Option<char> {
    if i < |chars| then Some(chars[i]) else None
  }

  function Before(chars: string, i: nat): Option<char>
    requires i <= |chars|
  {
    if i == 0 then None else Some(chars[i - 1])
  }

  function Last<T>(s: seq<T>): Option<T> {
    if s == [] then None else Some(s[|s| - 1])
  }

  predicate IsOperator(c: char) {
    c == ';' || c == '&' || c == '|'
  }

  // The one-byte blanks, before which a flag may be cut.
  predicate IsGap(c: char): (gap: bool)
    ensures gap ==> IsSpace(c)
  {
    c == ' ' || c == '\t'
  }

  predicate IsWordStart(prev: Option<char>) {
    prev.None? || IsSpace(prev.value) || IsOperator(prev.value) || prev.value == '('
  }

  predicate IsAlpha(c: char) {
    'a' <= c <= 'z' || 'A' <= c <= 'Z'
  }

  // How many backslashes stand directly before position `end`.
  function BackslashRun(chars: string, end: nat): nat
    requires end <= |chars|
  {
    if end > 0 && chars[end - 1] == '\\' then 1 + BackslashRun(chars, end - 1) else 0
  }

  // Whether the quote at `i` opens a `$'...'` string, where backslash escapes.
  predicate IsAnsi(chars: string, i: nat)
    requires i < |chars|
  {
    i > 0 && chars[i - 1] == '$' && BackslashRun(chars, i - 1) % 2 == 0
  }

  // The index of the closing single quote at or after `close`.
  function CloseQuote(chars: string, close: nat, ansi: bool): (r: Option<nat>)
    ensures r.Some? ==> close <= r.value < |chars| && chars[r.value] == '\''
    decreases |chars| - close
  {
    if close >= |chars| then None
    else if chars[close] == '\'' then Some(close)
    else CloseQuote(chars, close + (if ansi && chars[close] == '\\' then 2 else 1), ansi)
  }

  function InDouble(c: char, next: Option<char>, stack: seq<Ctx>, groups: nat): Act
    requires stack != []
  {
    if c == '"' then Copy(1, stack[..|stack| - 1], groups, false)
    else if c == '$' && next == Some('(') then Copy(2, stack + [Paren], groups, false)
    else if c == '$' && next == Some('{') then Copy(2, stack + [DollarBrace], groups, false)
    else if c == '`' then Copy(1, stack + [Backtick], groups, false)
    else Copy(1, stack, groups, false)
  }

  // Outside quotes and double quotes: nesting first, then groups, then separators.
  function Unquoted(chars: string, i: nat, stack: seq<Ctx>, groups: nat): Act
    requires i < |chars|
  {
    var c, next, prev := chars[i], At(chars, i + 1), Before(chars, i);
    if c == '"' then Copy(1, stack + [Double], groups, false)
    else if c == '(' then Copy(1, stack + [Paren], groups, false)
    else if c == ')' then
      if Last(stack) == Some(Paren) then Copy(1, stack[..|stack| - 1], groups, false) else Reject
    else if c == '`' then
      Copy(1, if Last(stack) == Some(Backtick) then stack[..|stack| - 1] else stack + [Backtick], groups, false)
    else if c == '$' && next == Some('{') then Copy(2, stack + [DollarBrace], groups, false)
    else if c == '}' && Last(stack) == Some(DollarBrace) then Copy(1, stack[..|stack| - 1], groups, false)
    else if c == '#' && IsWordStart(prev) then Reject
    else if stack != [] then Copy(1, stack, groups, false)
    else Grouped(c, next, prev, groups)
  }

  predicate AtBoundary(prev: Option<char>) {
    prev.None? || IsSpace(prev.value) || prev.value == ';'
  }

  predicate OpensGroup(c: char, next: Option<char>, prev: Option<char>) {
    c == '{' && AtBoundary(prev) && next.Some? && IsSpace(next.value)
  }

  predicate ClosesGroup(c: char, next: Option<char>, prev: Option<char>, groups: nat) {
    c == '}' && groups > 0 && AtBoundary(prev)
    && (next.None? || IsSpace(next.value) || IsOperator(next.value) || next.value == ')')
  }

  function Grouped(c: char, next: Option<char>, prev: Option<char>, groups: nat): Act {
    if OpensGroup(c, next, prev) then Copy(1, [], groups + 1, false)
    else if ClosesGroup(c, next, prev, groups) then Copy(1, [], groups - 1, false)
    else if groups > 0 then Copy(1, [], groups, false)
    else TopLevel(c, next, prev)
  }

  function TopLevel(c: char, next: Option<char>, prev: Option<char>): Act {
    if c == ';' then if next == Some(';') then Reject else Cut(Semi, 1)
    else if c == '&' then
      if next == Some('&') then Cut(And, 2)
      else if prev == Some('>') || prev == Some('<') || next == Some('>') then Copy(1, [], 0, true)
      else Cut(Background, 1)
    else if c == '|' then
      if next == Some('|') then Cut(Or, 2)
      else if next == Some('&') then Reject
      else if prev == Some('>') then Copy(1, [], 0, true)
      else Bar
    else Copy(1, [], 0, true)
  }

  function NextAct(chars: string, i: nat, stack: seq<Ctx>, groups: nat): (a: Act)
    requires i < |chars|
    ensures a.Copy? ==> 1 <= a.n && i + a.n <= |chars|
    ensures a.Cut? ==> 1 <= a.n && i + a.n <= |chars|
  {
    var c := chars[i];
    if c == '\\' then
      if i + 1 < |chars| then Copy(2, stack, groups, false) else Reject
    else if c == '\'' && Last(stack) != Some(Double) then
      var close := CloseQuote(chars, i + 1, IsAnsi(chars, i));
      if close.Some? then Copy(close.value + 1 - i, stack, groups, false) else Reject
    else if Last(stack) == Some(Double) then InDouble(c, At(chars, i + 1), stack, groups)
    else Unquoted(chars, i, stack, groups)
  }

  // Whether a blank at `i`, copied at the top level, starts a flag.
  predicate FlagHere(chars: string, i: nat, sc: Scan)
    requires i < |chars|
  {
    && IsGap(chars[i])
    && At(chars, i + 1) == Some('-')
    && i + 2 < |chars| && (chars[i + 2] == '-' || IsAlpha(chars[i + 2]))
    && Trim(sc.current) != ""
    && !sc.optionsEnded
  }

  // A lone `--` ends the options.
  predicate EndsOptions(chars: string, i: nat) {
    At(chars, i + 2) == Some('-') && (i + 3 < |chars| ==> IsSpace(chars[i + 3]))
  }

  function Copied(chars: string, i: nat, n: nat, plain: bool, sc: Scan): Scan
    requires i < |chars| && i + n <= |chars|
  {
    var flagged := if plain && FlagHere(chars, i, sc)
                   then sc.(flags := sc.flags + [|sc.current| + 1], optionsEnded := EndsOptions(chars, i))
                   else sc;
    flagged.(current := sc.current + chars[i..i + n])
  }

  function Shift(flags: seq<nat>, lead: nat): seq<nat>
    requires forall k :: 0 <= k < |flags| ==> lead <= flags[k]
  {
    seq(|flags|, k requires 0 <= k < |flags| => flags[k] - lead)
  }

  predicate TakeReady(sc: Scan) {
    forall k :: 0 <= k < |sc.flags| ==> LeadEnd(sc.current, 0) <= sc.flags[k]
  }

  function StageTaken(sc: Scan): Option<Scan>
    requires TakeReady(sc)
  {
    var leading := LeadEnd(sc.current, 0);
    var stage := Stage(Trim(sc.current), Shift(sc.flags, leading));
    if stage.text == "" then None
    else Some(sc.(stages := sc.stages + [stage], current := "", flags := [], optionsEnded := false))
  }

  function SegmentEnded(sc: Scan, sep: Sep): Option<Scan>
    requires TakeReady(sc)
  {
    match StageTaken(sc)
    case None => None
    case Some(took) => Some(took.(segments := took.segments + [Segment(took.stages, sep)], stages := []))
  }

  function Finished(sc: Scan): Option<seq<Segment>>
    requires TakeReady(sc)
  {
    if Trim(sc.current) == "" && sc.stages == [] then
      if sc.segments == [] || IsChain(sc.segments[|sc.segments| - 1].sep) then None else Some(sc.segments)
    else
      match SegmentEnded(sc, NoSep)
      case None => None
      case Some(ended) => Some(ended.segments)
  }

  // ----- flag offsets -----

  // Offsets into a finished text: increasing, each just after a one-byte blank and at a dash.
  predicate FlagsOk(text: string, flags: seq<nat>) {
    && (forall k :: 0 <= k < |flags| ==>
          2 <= flags[k] < |text| && text[flags[k]] == '-' && IsGap(text[flags[k] - 1]))
    && (forall j, k :: 0 <= j < k < |flags| ==> flags[j] < flags[k])
  }

  // Offsets into a text still growing: the last one may be its end, with its dash yet to come.
  predicate FlagsGrowing(chars: string, i: nat, stack: seq<Ctx>, groups: nat, sc: Scan) {
    && (forall k :: 0 <= k < |sc.flags| ==> FlagGrowing(sc.current, sc.flags[k]))
    && (forall k :: 0 <= k < |sc.flags| && sc.flags[k] == |sc.current| ==>
          i < |chars| && chars[i] == '-' && stack == [] && groups == 0)
    && (forall j, k :: 0 <= j < k < |sc.flags| ==> sc.flags[j] < sc.flags[k])
  }

  predicate FlagGrowing(current: string, flag: nat) {
    && LeadEnd(current, 0) + 2 <= flag <= |current|
    && IsGap(current[flag - 1])
    && (flag < |current| ==> current[flag] == '-')
  }

  lemma {:induction false} LeadGrows(s: string, more: string)
    requires LeadEnd(s, 0) < |s|
    ensures LeadEnd(s + more, 0) == LeadEnd(s, 0)
  {
    hide IsSpace;
    assert forall k :: 0 <= k < |s| ==> (s + more)[k] == s[k];
  }

  lemma {:induction false} FlagStaysGrowing(current: string, more: string, flag: nat)
    requires FlagGrowing(current, flag)
    requires flag == |current| ==> more != "" && more[0] == '-'
    ensures FlagGrowing(current + more, flag)
  {
    hide IsSpace;
    LeadGrows(current, more);
  }

  lemma {:induction false} TrimBlank(s: string)
    ensures Trim(s) == "" <==> LeadEnd(s, 0) == |s|
  {
    hide IsSpace;
    var t := TrimStart(s);
    assert t != "" ==> t[0] == s[LeadEnd(s, 0)];
  }

  lemma {:induction false} DashIsPlain(chars: string, i: nat)
    requires i < |chars|
    ensures chars[i] == '-' ==> NextAct(chars, i, [], 0) == Copy(1, [], 0, true)
  {
  }

  lemma {:induction false} FlagsStayGrowing(current: string, more: string, flags: seq<nat>)
    requires forall k :: 0 <= k < |flags| ==> FlagGrowing(current, flags[k])
    requires forall k :: 0 <= k < |flags| && flags[k] == |current| ==> more != "" && more[0] == '-'
    ensures forall k :: 0 <= k < |flags| ==> FlagGrowing(current + more, flags[k])
  {
    hide IsSpace;
    forall k | 0 <= k < |flags| ensures FlagGrowing(current + more, flags[k]) {
      FlagStaysGrowing(current, more, flags[k]);
    }
  }

  lemma {:induction false} NewFlagGrowing(current: string, blank: char)
    requires Trim(current) != "" && IsGap(blank)
    ensures FlagGrowing(current + [blank], |current| + 1)
  {
    hide IsSpace;
    TrimBlank(current);
    LeadGrows(current, [blank]);
  }

  lemma {:induction false} PlainCopiesOne(chars: string, i: nat, stack: seq<Ctx>, groups: nat)
    requires i < |chars|
    ensures var a := NextAct(chars, i, stack, groups);
            a.Copy? && a.plain ==> a.n == 1 && a.stack == [] && a.groups == 0
  {
  }

  lemma {:induction false} FlagBound(current: string, flags: seq<nat>)
    requires forall k :: 0 <= k < |flags| ==> FlagGrowing(current, flags[k])
    ensures forall k :: 0 <= k < |flags| ==> flags[k] < |current| + 1
  {
  }

  // Copying `more` keeps the offsets right; `added` says a flag starts after the copied blank.
  lemma {:induction false} GrowingAfterCopy(current: string, more: string, flags: seq<nat>, added: bool)
    requires forall k :: 0 <= k < |flags| ==> FlagGrowing(current, flags[k])
    requires forall j, k :: 0 <= j < k < |flags| ==> flags[j] < flags[k]
    requires forall k :: 0 <= k < |flags| && flags[k] == |current| ==> more != "" && more[0] == '-'
    requires added ==> |more| == 1 && IsGap(more[0]) && Trim(current) != ""
    ensures var flags' := if added then flags + [|current| + 1] else flags;
            && (forall k :: 0 <= k < |flags'| ==> FlagGrowing(current + more, flags'[k]))
            && (forall j, k :: 0 <= j < k < |flags'| ==> flags'[j] < flags'[k])
  {
    hide *;
    FlagsStayGrowing(current, more, flags);
    FlagBound(current, flags);
    if added {
      assert more == [more[0]];
      NewFlagGrowing(current, more[0]);
    }
  }

  lemma {:induction false} FlagFollowsBlank(chars: string, i: nat, sc: Scan)
    requires i < |chars|
    ensures FlagHere(chars, i, sc) ==> IsGap(chars[i]) && Trim(sc.current) != ""
    ensures FlagHere(chars, i, sc) ==> i + 1 < |chars| && chars[i + 1] == '-'
  {
  }

  lemma {:induction false} CopyKeepsFlags(chars: string, i: nat, stack: seq<Ctx>, groups: nat, sc: Scan, a: Act)
    requires i < |chars| && FlagsGrowing(chars, i, stack, groups, sc)
    requires a == NextAct(chars, i, stack, groups) && a.Copy?
    ensures FlagsGrowing(chars, i + a.n, a.stack, a.groups, Copied(chars, i, a.n, a.plain, sc))
  {
    hide IsSpace, Trim, FlagGrowing, FlagHere, NextAct;
    DashIsPlain(chars, i);
    FlagFollowsBlank(chars, i, sc);
    PlainCopiesOne(chars, i, stack, groups);
    FlagBound(sc.current, sc.flags);
    GrowingAfterCopy(sc.current, chars[i..i + a.n], sc.flags, a.plain && FlagHere(chars, i, sc));
  }

  lemma {:induction false} ReadyFromGrowing(chars: string, i: nat, stack: seq<Ctx>, groups: nat, sc: Scan)
    requires FlagsGrowing(chars, i, stack, groups, sc)
    ensures TakeReady(sc)
  {
    hide IsSpace;
    forall k | 0 <= k < |sc.flags| ensures LeadEnd(sc.current, 0) <= sc.flags[k] {
      assert FlagGrowing(sc.current, sc.flags[k]);
    }
  }

  // ----- the whole scan -----

  // Where the scan stands: the index, the nesting stack, the open `{` groups, the scanner.
  datatype Pos = Pos(i: nat, stack: seq<Ctx>, groups: nat, sc: Scan)

  predicate Ok(chars: string, p: Pos) {
    p.i <= |chars| && FlagsGrowing(chars, p.i, p.stack, p.groups, p.sc)
  }

  function Apply(chars: string, p: Pos, a: Act): Option<Pos>
    requires p.i < |chars| && TakeReady(p.sc)
    requires (a.Copy? || a.Cut?) ==> p.i + a.n <= |chars|
  {
    match a
    case Reject => None
    case Copy(n, stack, groups, plain) => Some(Pos(p.i + n, stack, groups, Copied(chars, p.i, n, plain, p.sc)))
    case Cut(sep, n) =>
      var ended := SegmentEnded(p.sc, sep);
      if ended.None? then None else Some(Pos(p.i + n, [], 0, ended.value))
    case Bar =>
      var took := StageTaken(p.sc);
      if took.None? then None else Some(Pos(p.i + 1, [], 0, took.value))
  }

  function Step(chars: string, p: Pos): Option<Pos>
    requires Ok(chars, p) && p.i < |chars|
  {
    ReadyFromGrowing(chars, p.i, p.stack, p.groups, p.sc);
    Apply(chars, p, NextAct(chars, p.i, p.stack, p.groups))
  }

  lemma {:induction false} StepOk(chars: string, p: Pos)
    requires Ok(chars, p) && p.i < |chars|
    ensures Step(chars, p).Some? ==> Ok(chars, Step(chars, p).value) && p.i < Step(chars, p).value.i
  {
    hide IsSpace, NextAct;
    ReadyFromGrowing(chars, p.i, p.stack, p.groups, p.sc);
    var a := NextAct(chars, p.i, p.stack, p.groups);
    if a.Copy? {
      CopyKeepsFlags(chars, p.i, p.stack, p.groups, p.sc, a);
    } else {
      var q := Apply(chars, p, a);
      assert q.Some? ==> q.value.sc.flags == [];
    }
  }

  function ScanFrom(chars: string, p: Pos): Option<seq<Segment>>
    requires Ok(chars, p)
    decreases |chars| - p.i
  {
    if p.i == |chars| then
      ReadyFromGrowing(chars, p.i, p.stack, p.groups, p.sc);
      if p.stack != [] || p.groups > 0 then None else Finished(p.sc)
    else
      StepOk(chars, p);
      match Step(chars, p)
      case None => None
      case Some(q) => ScanFrom(chars, q)
  }

  lemma {:induction false} StartOk(chars: string)
    ensures Ok(chars, Pos(0, [], 0, START))
  {
  }

  function ScanSpec(chars: string): Option<seq<Segment>> {
    ScanFrom(chars, Pos(0, [], 0, START))
  }

  // ----- the scanner itself -----

  class Scanner {
    var segments: seq<Segment>
    var stages: seq<Stage>
    var current: string
    var flags: seq<nat>
    var optionsEnded: bool

    function Value(): Scan
      reads this
    {
      Scan(segments, stages, current, flags, optionsEnded)
    }

    constructor ()
      ensures Value() == START
    {
      segments, stages, current, flags, optionsEnded := [], [], "", [], false;
    }

    method TakeStage() returns (ok: bool)
      requires TakeReady(Value())
      modifies this
      ensures ok <==> StageTaken(old(Value())).Some?
      ensures ok ==> Value() == StageTaken(old(Value())).value
    {
      ghost var before := Value();
      var leading := LeadEnd(current, 0);
      var stage := Stage(Trim(current), Shift(flags, leading));
      assert StageTaken(before).Some? <==> stage.text != "";
      assert stage.text != "" ==>
          StageTaken(before).value == before.(stages := before.stages + [stage], current := "", flags := [], optionsEnded := false);
      flags := [];
      current := "";
      optionsEnded := false;
      if stage.text == "" {
        return false;
      }
      stages := stages + [stage];
      return true;
    }

    method EndSegment(sep: Sep) returns (ok: bool)
      requires TakeReady(Value())
      modifies this
      ensures ok <==> SegmentEnded(old(Value()), sep).Some?
      ensures ok ==> Value() == SegmentEnded(old(Value()), sep).value
    {
      ok := TakeStage();
      if !ok {
        return;
      }
      segments := segments + [Segment(stages, sep)];
      stages := [];
    }

    method CopyPlain(chars: string, i: nat)
      requires i < |chars|
      modifies this
      ensures Value() == Copied(chars, i, 1, true, old(Value()))
    {
      if FlagHere(chars, i, Value()) {
        flags := flags + [|current| + 1];
        optionsEnded := EndsOptions(chars, i);
      }
      current := current + chars[i..i + 1];
    }

    // A character outside all nesting: note a flag, then end a segment or stage, or copy.
    method Separate(chars: string, i: nat) returns (ok: bool, n: nat)
      requires i < |chars| && TakeReady(Value())
      modifies this
      ensures ok <==> Apply(chars, Pos(i, [], 0, old(Value())), TopLevel(chars[i], At(chars, i + 1), Before(chars, i))).Some?
      ensures ok ==>
          Apply(chars, Pos(i, [], 0, old(Value())), TopLevel(chars[i], At(chars, i + 1), Before(chars, i)))
          == Some(Pos(i + n, [], 0, Value()))
    {
      hide IsSpace, StageTaken, SegmentEnded, Copied;
      var c, next, prev := chars[i], At(chars, i + 1), Before(chars, i);
      n := 1;
      if c == ';' {
        if next == Some(';') {
          return false, 0;
        }
        ok := EndSegment(Semi);
      } else if c == '&' && next == Some('&') {
        ok := EndSegment(And);
        n := 2;
      } else if c == '&' && (prev == Some('>') || prev == Some('<') || next == Some('>')) {
        CopyPlain(chars, i);
        ok := true;
      } else if c == '&' {
        ok := EndSegment(Background);
      } else if c == '|' && next == Some('|') {
        ok := EndSegment(Or);
        n := 2;
      } else if c == '|' && next == Some('&') {
        return false, 0;
      } else if c == '|' && prev == Some('>') {
        CopyPlain(chars, i);
        ok := true;
      } else if c == '|' {
        ok := TakeStage();
      } else {
        CopyPlain(chars, i);
        ok := true;
      }
    }

    method Finish() returns (r: Option<seq<Segment>>)
      requires TakeReady(Value())
      modifies this
      ensures r == Finished(old(Value()))
    {
      if Trim(current) == "" && stages == [] {
        if segments == [] || IsChain(segments[|segments| - 1].sep) {
          return None;
        }
        return Some(segments);
      }
      var ok := EndSegment(NoSep);
      if !ok {
        return None;
      }
      return Some(segments);
    }
  }

  // The index of the closing quote, found with the source's own loop.
  method FindClose(chars: string, i: nat, ansi: bool) returns (r: Option<nat>)
    requires i < |chars|
    ensures r == CloseQuote(chars, i + 1, ansi)
  {
    var close := i + 1;
    while true
      invariant CloseQuote(chars, close, ansi) == CloseQuote(chars, i + 1, ansi)
      decreases |chars| + 2 - close
    {
      if close >= |chars| {
        return None;
      }
      if chars[close] == '\'' {
        return Some(close);
      }
      close := close + (if ansi && chars[close] == '\\' then 2 else 1);
    }
  }

  // The nesting stack and group count after the character at `i`, when it is not quoted:
  // `Done(ok, n, ...)` says the character is dealt with, by copying `n` characters or rejecting.
  method Nest(chars: string, i: nat, stack: seq<Ctx>, groups: nat)
    returns (ok: bool, n: nat, stack': seq<Ctx>, groups': nat)
    requires i < |chars|
    ensures !ok ==> Unquoted(chars, i, stack, groups) == Reject
    ensures ok && n > 0 ==> Unquoted(chars, i, stack, groups) == Copy(n, stack', groups', false)
    ensures ok && n == 0 ==>
        && stack == stack' == [] && groups == groups' == 0
        && Unquoted(chars, i, stack, groups) == TopLevel(chars[i], At(chars, i + 1), Before(chars, i))
  {
    var c, next, prev := chars[i], At(chars, i + 1), Before(chars, i);
    ok, stack', groups' := true, stack, groups;
    var consumed := stack != [];
    if c == '"' {
      stack', consumed := stack' + [Double], true;
    } else if c == '(' {
      stack', consumed := stack' + [Paren], true;
    } else if c == ')' {
      if Last(stack') != Some(Paren) {
        return false, 0, stack', groups';
      }
      stack', consumed := stack'[..|stack'| - 1], true;
    } else if c == '`' {
      if Last(stack') == Some(Backtick) {
        stack' := stack'[..|stack'| - 1];
      } else {
        stack' := stack' + [Backtick];
      }
      consumed := true;
    } else if c == '$' && next == Some('{') {
      return true, 2, stack' + [DollarBrace], groups';
    } else if c == '}' && Last(stack') == Some(DollarBrace) {
      stack', consumed := stack'[..|stack'| - 1], true;
    } else if c == '#' && IsWordStart(prev) {
      return false, 0, stack', groups';
    }
    if consumed {
      return true, 1, stack', groups';
    }
    var openGroup := OpensGroup(c, next, prev);
    var closeGroup := ClosesGroup(c, next, prev, groups);
    if openGroup {
      groups' := groups' + 1;
    }
    if closeGroup {
      groups' := groups' - 1;
    }
    n := if groups' > 0 || closeGroup then 1 else 0;
  }

  // The quoting part of one round: a backslash, a single quote, or anything in double quotes.
  method Quoted(chars: string, i: nat, stack: seq<Ctx>, groups: nat)
    returns (ok: bool, n: nat, stack': seq<Ctx>)
    requires i < |chars|
    ensures !ok ==> NextAct(chars, i, stack, groups) == Reject
    ensures ok && n > 0 ==> NextAct(chars, i, stack, groups) == Copy(n, stack', groups, false)
    ensures ok && n == 0 ==>
        stack' == stack && NextAct(chars, i, stack, groups) == Unquoted(chars, i, stack, groups)
  {
    var c := chars[i];
    ok, n, stack' := true, 1, stack;
    if c == '\\' {
      return i + 1 < |chars|, 2, stack;
    }
    var inDouble := Last(stack) == Some(Double);
    if c == '\'' && !inDouble {
      var close := FindClose(chars, i, IsAnsi(chars, i));
      if close.None? {
        return false, 0, stack;
      }
      return true, close.value + 1 - i, stack;
    }
    if !inDouble {
      return true, 0, stack;
    }
    if c == '"' {
      stack' := stack[..|stack| - 1];
    } else if c == '$' && At(chars, i + 1) == Some('(') {
      stack', n := stack + [Paren], 2;
    } else if c == '$' && At(chars, i + 1) == Some('{') {
      stack', n := stack + [DollarBrace], 2;
    } else if c == '`' {
      stack' := stack + [Backtick];
    }
  }

  lemma {:induction false} StepCopies(chars: string, p: Pos, n: nat, stack: seq<Ctx>, groups: nat)
    requires Ok(chars, p) && p.i < |chars|
    requires NextAct(chars, p.i, p.stack, p.groups) == Copy(n, stack, groups, false)
    ensures Step(chars, p)
         == Some(Pos(p.i + n, stack, groups, p.sc.(current := p.sc.current + chars[p.i..p.i + n])))
  {
  }

  // One round of the scanner's loop.
  method Round(scanner: Scanner, chars: string, i: nat, stack: seq<Ctx>, groups: nat)
    returns (ok: bool, i': nat, stack': seq<Ctx>, groups': nat)
    requires Ok(chars, Pos(i, stack, groups, scanner.Value())) && i < |chars|
    modifies scanner
    ensures Step(chars, Pos(i, stack, groups, old(scanner.Value())))
         == if ok then Some(Pos(i', stack', groups', scanner.Value())) else None
  {
    hide NextAct, Unquoted, TopLevel, StageTaken, SegmentEnded, IsSpace, FlagHere, FlagsGrowing;
    ghost var p := Pos(i, stack, groups, scanner.Value());
    ReadyFromGrowing(chars, i, stack, groups, p.sc);
    var n;
    ok, n, stack' := Quoted(chars, i, stack, groups);
    groups' := groups;
    if ok && n == 0 {
      ok, n, stack', groups' := Nest(chars, i, stack, groups);
    }
    i' := i + n;
    if ok && n > 0 {
      scanner.current := scanner.current + chars[i..i'];
      StepCopies(chars, p, n, stack', groups');
    } else if ok {
      ok, n := scanner.Separate(chars, i);
      i' := i + n;
    }
  }

  method ScanCommand(chars: string) returns (r: Option<seq<Segment>>)
    ensures r == ScanSpec(chars)
  {
    var scanner := new Scanner();
    var stack: seq<Ctx> := [];
    var groups: nat := 0;
    var i := 0;
    while i < |chars|
      invariant Ok(chars, Pos(i, stack, groups, scanner.Value()))
      invariant ScanFrom(chars, Pos(i, stack, groups, scanner.Value())) == ScanSpec(chars)
      decreases |chars| - i
    {
      StepOk(chars, Pos(i, stack, groups, scanner.Value()));
      var ok;
      ok, i, stack, groups := Round(scanner, chars, i, stack, groups);
      if !ok {
        return None;
      }
    }
    ReadyFromGrowing(chars, i, stack, groups, scanner.Value());
    if stack != [] || groups > 0 {
      return None;
    }
    r := scanner.Finish();
  }
}
