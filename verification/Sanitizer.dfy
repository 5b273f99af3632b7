// The streaming terminal sanitizer: UTF-8 bytes in any chunks go through an escape-sequence
// automaton; text, newlines, tabs and colour (SGR, section 8.3.117 of ECMA-48) come out.
module Sanitizer {
  import opened Utf8

  const ESC: char := '\U{1B}'
  const BELL: char := '\U{07}'
  const STRING_END: char := '\U{9C}'
  const SGR_PARAMS_MAX: nat := 64
  const SGR_RESET: string := [ESC] + "[0m"

  datatype Escape = NoEscape | Start | Intermediate | Csi(params: string) | CsiDropped | Str | StrEsc

  // The automaton's state, without the bytes of an unfinished character.
  datatype State = State(keepSgr: bool, escape: Escape, afterCr: bool, styled: bool)

  predicate IsControl(c: char) {
    c < ' ' || '\U{7F}' <= c <= '\U{9F}'
  }

  predicate IsSgrParam(c: char) {
    '0' <= c <= '9' || c == ';' || c == ':'
  }

  predicate PlainParams(params: string) {
    forall k :: 0 <= k < |params| ==> IsSgrParam(params[k])
  }

  function SgrText(params: string): string {
    [ESC, '['] + params + "m"
  }

  // A character outside escape sequences.
  function TextStep(st: State, c: char, afterCr: bool): (State, string) {
    if c == ESC then (st.(escape := Start), "")
    else if c == '\n' && afterCr then (st, "")
    else if c == '\r' then (st.(afterCr := true), "\n")
    else if c == '\n' || c == '\t' then (st, [c])
    else if IsControl(c) then (st, "")
    else (st, [c])
  }

  // The character after an escape.
  function StartStep(st: State, c: char): (State, string) {
    if c == '[' then (st.(escape := Csi("")), "")
    else if c == ']' || c == 'P' || c == 'X' || c == '^' || c == '_' then (st.(escape := Str), "")
    else if ' ' <= c <= '/' then (st.(escape := Intermediate), "")
    else if '0' <= c <= '~' then (st, "")
    else TextStep(st, c, false)
  }

  function SgrStep(st: State, params: string): (State, string) {
    if st.keepSgr && PlainParams(params) then (st.(styled := true), SgrText(params)) else (st, "")
  }

  function CsiStep(st: State, params: string, c: char): (State, string) {
    if ' ' <= c <= '?' then
      (st.(escape := if |params| < SGR_PARAMS_MAX then Csi(params + [c]) else CsiDropped), "")
    else if c == 'm' then SgrStep(st, params)
    else if '@' <= c <= '~' then (st, "")
    else TextStep(st, c, false)
  }

  function Step(before: State, c: char): (State, string) {
    var st := before.(escape := NoEscape, afterCr := false);
    match before.escape
    case NoEscape => TextStep(st, c, before.afterCr)
    case Start => StartStep(st, c)
    case Intermediate =>
      if ' ' <= c <= '/' then (st.(escape := Intermediate), "")
      else if '0' <= c <= '~' then (st, "")
      else TextStep(st, c, false)
    case Csi(params) => CsiStep(st, params, c)
    case CsiDropped =>
      if ' ' <= c <= '?' then (st.(escape := CsiDropped), "")
      else if '@' <= c <= '~' then (st, "")
      else TextStep(st, c, false)
    case Str =>
      if c == BELL || c == STRING_END then (st, "")
      else (st.(escape := if c == ESC then StrEsc else Str), "")
    case StrEsc => if c == '\\' then (st, "") else StartStep(st, c)
  }

  function Steps(st: State, text: string): (State, string)
    decreases |text|
  {
    if text == "" then (st, "") else
      var (next, out) := Step(st, text[0]);
      var (last, more) := Steps(next, text[1..]);
      (last, out + more)
  }

  lemma {:induction false} StepsConcat(st: State, a: string, b: string)
    ensures var (mid, out) := Steps(st, a);
            var (last, more) := Steps(mid, b);
            Steps(st, a + b) == (last, out + more)
    decreases |a|
  {
    hide Step;
    if a == "" {
      assert a + b == b;
      assert "" + Steps(st, b).1 == Steps(st, b).1;
    } else {
      assert (a + b)[1..] == a[1..] + b;
      var (next, first) := Step(st, a[0]);
      StepsConcat(next, a[1..], b);
      var (mid, out) := Steps(next, a[1..]);
      assert first + (out + Steps(mid, b).1) == (first + out) + Steps(mid, b).1;
    }
  }

  lemma {:induction false} StepsOne(st: State, c: char)
    ensures Steps(st, [c]) == Step(st, c)
  {
    hide Step;
    assert [c][1..] == "";
    assert Step(st, c).1 + "" == Step(st, c).1;
  }

  // The whole sanitizer: the automaton and the bytes of the unfinished character.
  datatype San = San(st: State, pending: seq<byte>)

  function Fresh(keepSgr: bool): San {
    San(State(keepSgr, NoEscape, false, false), [])
  }

  function Fed(s: San, bytes: seq<byte>): (San, string) {
    var (text, rest) := Decode(s.pending + bytes);
    var (st, out) := Steps(s.st, text);
    (San(st, rest), out)
  }

  function Finished(s: San): (San, string) {
    var (st, out) := Steps(s.st, if s.pending == [] then "" else [REPLACEMENT]);
    (San(State(st.keepSgr, NoEscape, false, false), []), out + if st.styled then SGR_RESET else "")
  }

  // ----- the class -----

  class Sanitizer {
    const keepSgr: bool
    var pending: seq<byte>
    var escape: Escape
    var afterCr: bool
    var styled: bool

    function St(): State
      reads this
    {
      State(keepSgr, escape, afterCr, styled)
    }

    function Value(): San
      reads this
    {
      San(St(), pending)
    }

    constructor (keepSgr: bool)
      ensures Value() == Fresh(keepSgr)
    {
      this.keepSgr := keepSgr;
      pending, escape, afterCr, styled := [], NoEscape, false, false;
    }

    method Text(c: char, wasCr: bool) returns (out: string)
      modifies this`escape, this`afterCr
      ensures (St(), out) == TextStep(old(St()), c, wasCr)
    {
      out := "";
      if c == ESC {
        escape := Start;
      } else if c == '\n' && wasCr {
      } else if c == '\r' {
        out := "\n";
        afterCr := true;
      } else if c == '\n' || c == '\t' {
        out := [c];
      } else if IsControl(c) {
      } else {
        out := [c];
      }
    }

    method Sgr(params: string) returns (out: string)
      modifies this`styled
      ensures (St(), out) == SgrStep(old(St()), params)
    {
      out := "";
      if keepSgr && PlainParams(params) {
        out := [ESC, '['] + params + "m";
        styled := true;
      }
    }

    method StepStart(c: char) returns (out: string)
      requires escape == NoEscape && !afterCr
      modifies this`escape, this`afterCr
      ensures (St(), out) == StartStep(old(St()), c)
    {
      out := "";
      if c == '[' {
        escape := Csi("");
      } else if c == ']' || c == 'P' || c == 'X' || c == '^' || c == '_' {
        escape := Str;
      } else if ' ' <= c <= '/' {
        escape := Intermediate;
      } else if '0' <= c <= '~' {
      } else {
        out := Text(c, false);
      }
    }

    method StepOne(c: char) returns (out: string)
      modifies this`escape, this`afterCr, this`styled
      ensures (St(), out) == Step(old(St()), c)
    {
      hide TextStep, StartStep, SgrStep;
      var wasCr, was := afterCr, escape;
      afterCr, escape := false, NoEscape;
      out := "";
      match was
      case NoEscape => out := Text(c, wasCr);
      case Start => out := StepStart(c);
      case Intermediate =>
        if ' ' <= c <= '/' {
          escape := Intermediate;
        } else if '0' <= c <= '~' {
        } else {
          out := Text(c, false);
        }
      case Csi(params) =>
        if ' ' <= c <= '?' && |params| < SGR_PARAMS_MAX {
          escape := Csi(params + [c]);
        } else if ' ' <= c <= '?' {
          escape := CsiDropped;
        } else if c == 'm' {
          out := Sgr(params);
        } else if '@' <= c <= '~' {
        } else {
          out := Text(c, false);
        }
      case CsiDropped =>
        if ' ' <= c <= '?' {
          escape := CsiDropped;
        } else if '@' <= c <= '~' {
        } else {
          out := Text(c, false);
        }
      case Str =>
        if c == BELL || c == STRING_END {
        } else if c == ESC {
          escape := StrEsc;
        } else {
          escape := Str;
        }
      case StrEsc =>
        if c == '\\' {
        } else {
          out := StepStart(c);
        }
    }

    method StepAll(text: string) returns (out: string)
      modifies this`escape, this`afterCr, this`styled
      ensures (St(), out) == Steps(old(St()), text)
    {
      hide Step;
      out := "";
      var k := 0;
      while k < |text|
        invariant k <= |text|
        invariant (St(), out) == Steps(old(St()), text[..k])
      {
        ghost var before := St();
        var more := StepOne(text[k]);
        StepsOne(before, text[k]);
        StepsConcat(old(St()), text[..k], [text[k]]);
        assert text[..k + 1] == text[..k] + [text[k]];
        out := out + more;
        k := k + 1;
      }
      assert text[..|text|] == text;
    }

    method Feed(bytes: seq<byte>) returns (out: string)
      modifies this
      ensures (Value(), out) == Fed(old(Value()), bytes)
    {
      hide Decode, FromUtf8, Steps;
      var input := pending + bytes;
      pending := [];
      out := "";
      var rest := input;
      ghost var seen := "";
      StepsNone(St());
      assert "" + Decode(rest).0 == Decode(rest).0;
      while true
        invariant pending == []
        invariant (St(), out) == Steps(old(St()), seen)
        invariant Decode(input) == (seen + Decode(rest).0, Decode(rest).1)
        decreases |rest|
      {
        DecodeByChecks(rest);
        ghost var decoded := Decode(rest);
        var checked := FromUtf8(rest);
        ghost var before := St();
        var more := StepAll(checked.text);
        StepsConcat(old(St()), seen, checked.text);
        out := out + more;
        if checked.validUpTo == |rest| {
          return;
        }
        var invalid := rest[checked.validUpTo..];
        if checked.errorLen.None? {
          pending := invalid;
          return;
        }
        more := StepAll([REPLACEMENT]);
        StepsConcat(old(St()), seen + checked.text, [REPLACEMENT]);
        out := out + more;
        rest := invalid[checked.errorLen.value..];
        Regroup(seen, checked.text, [REPLACEMENT], Decode(rest).0);
        seen := seen + checked.text + [REPLACEMENT];
      }
    }

    method Finish() returns (out: string)
      modifies this
      ensures (Value(), out) == Finished(old(Value()))
    {
      hide Step, Steps;
      out := "";
      StepsNone(St());
      if pending != [] {
        out := StepAll([REPLACEMENT]);
      }
      pending := [];
      escape := NoEscape;
      afterCr := false;
      assert out + "" == out;
      if styled {
        out := out + SGR_RESET;
      }
      styled := false;
    }
  }

  lemma {:induction false} StepsNone(st: State)
    ensures Steps(st, "") == (st, "")
  {
  }

  lemma {:induction false} Regroup(a: string, b: string, c: string, d: string)
    ensures a + (b + c + d) == (a + b + c) + d
  {
  }
}
