// Durations typed as `1h30m` and printed back.
module Spans {
  import opened Text

  datatype Error = Empty | MissingUnit | NotWhole | UnknownUnit(c: char) | Misordered | TooLarge | Zero

  datatype Parsed = Ok(secs: nat) | Err(error: Error)

  predicate IsDigit(c: char) {
    '0' <= c <= '9'
  }

  predicate AllDigits(s: string) {
    forall k :: 0 <= k < |s| ==> IsDigit(s[k])
  }

  // Where the leading digits of `s`, read from `i` on, end.
  function DigitsEnd(s: string, i: nat): (end: nat)
    requires i <= |s|
    ensures i <= end <= |s|
    ensures forall k :: i <= k < end ==> IsDigit(s[k])
    ensures end < |s| ==> !IsDigit(s[end])
    decreases |s| - i
  {
    if i < |s| && IsDigit(s[i]) then DigitsEnd(s, i + 1) else i
  }

  function Value(digits: string): nat
    requires AllDigits(digits)
  {
    if digits == "" then 0 else
      10 * Value(digits[..|digits| - 1]) + ((digits[|digits| - 1] as int) - ('0' as int))
  }

  // `str::parse::<u64>` on a text of digits.
  function ParseU64(digits: string): Option<nat>
    requires AllDigits(digits)
  {
    if digits == "" || Value(digits) > U64_MAX then None else Some(Value(digits))
  }

  function UnitOf(c: char): Option<nat> {
    if c == 'h' then Some(3600) else if c == 'm' then Some(60) else if c == 's' then Some(1) else None
  }

  // `amount.checked_mul(unit)` and `total.checked_add` of it.
  function CheckedTotal(total: nat, amount: nat, unit: nat): Option<nat> {
    if amount * unit > U64_MAX || total + amount * unit > U64_MAX then None else Some(total + amount * unit)
  }

  // What one amount with its unit at the front of `rest` gives: the total, the unit, what is left.
  datatype Step = Took(total: nat, unit: nat, rest: string) | Refused(error: Error)

  function TakePart(rest: string, total: nat, previous: nat): (step: Step)
    ensures step.Took? ==> |step.rest| < |rest|
  {
    var end := DigitsEnd(rest, 0);
    if end == |rest| then Refused(MissingUnit)
    else
      var amount := ParseU64(rest[..end]);
      if amount.None? then Refused(NotWhole)
      else
        var unit := UnitOf(rest[end]);
        if unit.None? then Refused(UnknownUnit(rest[end]))
        else if unit.value >= previous then Refused(Misordered)
        else
          match CheckedTotal(total, amount.value, unit.value)
          case None => Refused(TooLarge)
          case Some(sum) => Took(sum, unit.value, rest[end + 1..])
  }

  function ParseParts(rest: string, total: nat, previous: nat): Parsed
    decreases |rest|
  {
    if rest == "" then if total == 0 then Err(Zero) else Ok(total)
    else
      match TakePart(rest, total, previous)
      case Refused(error) => Err(error)
      case Took(sum, unit, more) => ParseParts(more, sum, unit)
  }

  function ParseAfterSpec(raw: string): Parsed {
    var text := Trim(raw);
    if text == "" then Err(Empty) else ParseParts(text, 0, U64_MAX)
  }

  method ParseAfter(raw: string) returns (r: Parsed)
    ensures r == ParseAfterSpec(raw)
  {
    hide Trim, IsDigit, DigitsEnd, Value;
    var text := Trim(raw);
    if text == "" {
      return Err(Empty);
    }
    var rest := text;
    var total: nat, previous: nat := 0, U64_MAX;
    while rest != ""
      invariant ParseParts(text, 0, U64_MAX) == ParseParts(rest, total, previous)
      decreases |rest|
    {
      var end := DigitsEnd(rest, 0);
      if end == |rest| {
        return Err(MissingUnit);
      }
      var amount := ParseU64(rest[..end]);
      if amount.None? {
        return Err(NotWhole);
      }
      var unit: nat;
      match rest[end] {
        case 'h' => unit := 3600;
        case 'm' => unit := 60;
        case 's' => unit := 1;
        case other => return Err(UnknownUnit(other));
      }
      if unit >= previous {
        return Err(Misordered);
      }
      var sum := CheckedTotal(total, amount.value, unit);
      if sum.None? {
        return Err(TooLarge);
      }
      previous, total, rest := unit, sum.value, rest[end + 1..];
    }
    r := if total == 0 then Err(Zero) else Ok(total);
  }

  // ----- which texts are accepted -----

  // An amount in digits and its unit.
  datatype Part = Part(digits: string, unit: char)

  predicate Proper(part: Part) {
    part.digits != "" && AllDigits(part.digits) && UnitOf(part.unit).Some?
  }

  // Proper parts, each unit smaller than the one before and than `previous`.
  predicate Descending(parts: seq<Part>, previous: nat) {
    parts != [] ==>
      && Proper(parts[0]) && UnitOf(parts[0].unit).value < previous
      && Descending(parts[1..], UnitOf(parts[0].unit).value)
  }

  function Written(parts: seq<Part>): string {
    if parts == [] then "" else parts[0].digits + [parts[0].unit] + Written(parts[1..])
  }

  function Sum(parts: seq<Part>, previous: nat): nat
    requires Descending(parts, previous)
  {
    if parts == [] then 0 else
      Value(parts[0].digits) * UnitOf(parts[0].unit).value + Sum(parts[1..], UnitOf(parts[0].unit).value)
  }

  lemma {:induction false} DigitsThenUnit(digits: string, unit: char, more: string)
    requires AllDigits(digits) && !IsDigit(unit)
    ensures DigitsEnd(digits + [unit] + more, 0) == |digits|
  {
    var s := digits + [unit] + more;
    var end := DigitsEnd(s, 0);
    assert s[|digits|] == unit;
    assert forall k :: 0 <= k < |digits| ==> s[k] == digits[k];
  }

  lemma {:induction false} UnitIsNoDigit(c: char)
    requires UnitOf(c).Some?
    ensures !IsDigit(c) && !IsSpace(c) && 1 <= UnitOf(c).value <= 3600
  {
  }

  lemma {:induction false} TakeWritten(part: Part, more: string, total: nat, previous: nat)
    requires Proper(part) && UnitOf(part.unit).value < previous
    requires total + Value(part.digits) * UnitOf(part.unit).value <= U64_MAX
    ensures TakePart(part.digits + [part.unit] + more, total, previous) ==
            Took(total + Value(part.digits) * UnitOf(part.unit).value, UnitOf(part.unit).value, more)
  {
    UnitIsNoDigit(part.unit);
    hide AllDigits, IsDigit, Value, UnitOf;
    DigitsThenUnit(part.digits, part.unit, more);
    var rest := part.digits + [part.unit] + more;
    assert rest[..|part.digits|] == part.digits && rest[|part.digits| + 1..] == more;
    assert Value(part.digits) <= Value(part.digits) * UnitOf(part.unit).value;
  }

  lemma {:induction false} ParseWritten(parts: seq<Part>, total: nat, previous: nat)
    requires Descending(parts, previous) && total + Sum(parts, previous) <= U64_MAX
    ensures var sum := total + Sum(parts, previous);
            ParseParts(Written(parts), total, previous) == if sum == 0 then Err(Zero) else Ok(sum)
    decreases |parts|
  {
    hide TakePart, Value;
    if parts != [] {
      var unit := UnitOf(parts[0].unit).value;
      var amount := Value(parts[0].digits) * unit;
      TakeWritten(parts[0], Written(parts[1..]), total, previous);
      ParseWritten(parts[1..], total + amount, unit);
    }
  }

  // What a part taken from the front of a text was.
  lemma {:induction false} TakenPart(rest: string, total: nat, previous: nat) returns (part: Part)
    requires TakePart(rest, total, previous).Took? && total <= U64_MAX
    ensures var step := TakePart(rest, total, previous);
            && Proper(part) && UnitOf(part.unit) == Some(step.unit) && step.unit < previous
            && rest == part.digits + [part.unit] + step.rest
            && step.total == total + Value(part.digits) * step.unit <= U64_MAX
  {
    hide IsDigit, Value, UnitOf;
    var end := DigitsEnd(rest, 0);
    part := Part(rest[..end], rest[end]);
    assert rest == part.digits + [part.unit] + rest[end + 1..];
  }

  lemma {:induction false} PartsOf(rest: string, total: nat, previous: nat) returns (parts: seq<Part>)
    requires ParseParts(rest, total, previous).Ok? && total <= U64_MAX
    ensures Written(parts) == rest && Descending(parts, previous)
    ensures ParseParts(rest, total, previous) == Ok(total + Sum(parts, previous))
    ensures total + Sum(parts, previous) <= U64_MAX
    decreases |rest|
  {
    hide TakePart, Proper, Value, UnitOf;
    if rest == "" {
      parts := [];
    } else {
      var step := TakePart(rest, total, previous);
      var part := TakenPart(rest, total, previous);
      var more := PartsOf(step.rest, step.total, step.unit);
      parts := [part] + more;
      assert parts[1..] == more;
    }
  }

  // A text is accepted exactly when, blanks around it aside, it writes amounts with units from the
  // largest down, each unit at most once, that add up to a positive 64-bit number of seconds.
  lemma {:induction false} AcceptedIff(raw: string, n: nat)
    ensures ParseAfterSpec(raw) == Ok(n) <==>
            exists parts: seq<Part> :: Descending(parts, U64_MAX) && Trim(raw) == Written(parts) &&
                                       Sum(parts, U64_MAX) == n && 1 <= n <= U64_MAX
  {
    hide Trim, ParseParts, Sum, Descending, Written;
    var text := Trim(raw);
    if ParseAfterSpec(raw) == Ok(n) {
      OkIsPositive(text, 0, U64_MAX);
      var parts := PartsOf(text, 0, U64_MAX);
    }
    forall parts: seq<Part> |
      && Descending(parts, U64_MAX) && text == Written(parts)
      && Sum(parts, U64_MAX) == n && 1 <= n <= U64_MAX
      ensures ParseAfterSpec(raw) == Ok(n)
    {
      ParseWritten(parts, 0, U64_MAX);
      NoPartsNoSum(parts);
    }
  }

  lemma {:induction false} OkIsPositive(rest: string, total: nat, previous: nat)
    ensures ParseParts(rest, total, previous).Ok? ==> ParseParts(rest, total, previous).secs > 0
    decreases |rest|
  {
    hide TakePart;
    if rest != "" && TakePart(rest, total, previous).Took? {
      var step := TakePart(rest, total, previous);
      OkIsPositive(step.rest, step.total, step.unit);
    }
  }

  lemma {:induction false} NoPartsNoSum(parts: seq<Part>)
    requires Descending(parts, U64_MAX) && Sum(parts, U64_MAX) > 0
    ensures Written(parts) != ""
  {
  }

  // ----- printing -----

  function Decimal(n: nat): (digits: string)
    ensures digits != ""
  {
    var last := [(('0' as int) + n % 10) as char];
    if n < 10 then last else Decimal(n / 10) + last
  }

  function PartIf(amount: nat, unit: char): seq<Part> {
    if amount > 0 then [Part(Decimal(amount), unit)] else []
  }

  // Hours, minutes and seconds.
  function ClockOf(secs: nat): (clock: (nat, nat, nat))
    ensures clock.0 * 3600 + clock.1 * 60 + clock.2 == secs
  {
    (secs / 3600, secs % 3600 / 60, secs % 60)
  }

  function SpanParts(secs: nat): seq<Part> {
    var (hours, minutes, seconds) := ClockOf(secs);
    PartIf(hours, 'h') + PartIf(minutes, 'm') + PartIf(seconds, 's')
  }

  lemma {:induction false} PartShown(amount: nat, unit: char)
    ensures PartIf(amount, unit) == if amount > 0 then [Part(Decimal(amount), unit)] else []
  {
  }

  lemma {:induction false} UnitValues()
    ensures UnitOf('h') == Some(3600) && UnitOf('m') == Some(60) && UnitOf('s') == Some(1)
  {
  }

  function FormatSpan(secs: nat): string {
    if SpanParts(secs) == [] then "0s" else Written(SpanParts(secs))
  }

  lemma {:induction false} DecimalValue(n: nat)
    ensures AllDigits(Decimal(n)) && Value(Decimal(n)) == n
  {
    var last := [(('0' as int) + n % 10) as char];
    if n < 10 {
      assert last[..0] == "";
    } else {
      DecimalValue(n / 10);
      assert (Decimal(n / 10) + last)[..|Decimal(n / 10)|] == Decimal(n / 10);
    }
  }

  lemma {:induction false} ProperPart(amount: nat, unit: char)
    requires UnitOf(unit).Some?
    ensures Proper(Part(Decimal(amount), unit)) && Value(Decimal(amount)) == amount
  {
    hide Decimal, UnitOf;
    DecimalValue(amount);
  }

  lemma {:induction false} SumFirst(part: Part, more: seq<Part>, previous: nat)
    requires Proper(part) && UnitOf(part.unit).value < previous && Descending(more, UnitOf(part.unit).value)
    ensures Descending([part] + more, previous)
    ensures Sum([part] + more, previous) ==
            Value(part.digits) * UnitOf(part.unit).value + Sum(more, UnitOf(part.unit).value)
  {
    hide Proper, UnitOf, Value;
    assert ([part] + more)[1..] == more;
  }

  lemma {:induction false} SpanSeconds(n: nat, previous: nat)
    requires previous > 1
    ensures Descending(PartIf(n, 's'), previous) && Sum(PartIf(n, 's'), previous) == n
  {
    hide Proper, Value, Decimal;
    if n > 0 {
      ProperPart(n, 's');
      SumFirst(Part(Decimal(n), 's'), [], previous);
      assert [Part(Decimal(n), 's')] + [] == [Part(Decimal(n), 's')];
    }
  }

  lemma {:induction false} SpanMinutes(m: nat, s: nat, previous: nat)
    requires previous > 60
    ensures Descending(PartIf(m, 'm') + PartIf(s, 's'), previous)
    ensures Sum(PartIf(m, 'm') + PartIf(s, 's'), previous) == m * 60 + s
  {
    hide Proper, Value, Decimal, Descending, Sum;
    SpanSeconds(s, 60);
    SpanSeconds(s, previous);
    if m > 0 {
      ProperPart(m, 'm');
      SumFirst(Part(Decimal(m), 'm'), PartIf(s, 's'), previous);
    } else {
      assert PartIf(m, 'm') + PartIf(s, 's') == PartIf(s, 's');
    }
  }

  lemma {:induction false} SpanSum(secs: nat)
    ensures Descending(SpanParts(secs), U64_MAX) && Sum(SpanParts(secs), U64_MAX) == secs
  {
    hide Proper, Value, Decimal, Descending, Sum, PartIf, UnitOf, ClockOf;
    var (h, m, s) := ClockOf(secs);
    UnitValues();
    SpanMinutes(m, s, 3600);
    SpanMinutes(m, s, U64_MAX);
    var parts := PartIf(h, 'h') + (PartIf(m, 'm') + PartIf(s, 's'));
    assert SpanParts(secs) == parts;
    if h > 0 {
      ProperPart(h, 'h');
      SumFirst(Part(Decimal(h), 'h'), PartIf(m, 'm') + PartIf(s, 's'), U64_MAX);
      assert PartIf(h, 'h') == [Part(Decimal(h), 'h')] by { PartShown(h, 'h'); }
    } else {
      assert PartIf(h, 'h') == [] by { PartShown(h, 'h'); }
      assert parts == PartIf(m, 'm') + PartIf(s, 's');
    }
  }

  lemma {:induction false} WrittenEnds(parts: seq<Part>, previous: nat)
    requires Descending(parts, previous) && parts != []
    ensures var s := Written(parts); s != "" && !IsSpace(s[0]) && !IsSpace(s[|s| - 1])
    decreases |parts|
  {
    hide IsSpace;
    DigitsAreSolid(parts[0].digits);
    UnitIsNoDigit(parts[0].unit);
    if |parts| > 1 {
      WrittenEnds(parts[1..], UnitOf(parts[0].unit).value);
    }
  }

  lemma {:induction false} DigitsAreSolid(digits: string)
    requires AllDigits(digits) && digits != ""
    ensures !IsSpace(digits[0])
  {
  }

  lemma {:induction false} TrimSolid(s: string)
    requires s != "" && !IsSpace(s[0]) && !IsSpace(s[|s| - 1])
    ensures Trim(s) == s
  {
    hide IsSpace;
    assert LeadEnd(s, 0) == 0 && TrimStart(s) == s;
    assert TailStart(s, |s|) == |s|;
  }

  // Every positive 64-bit duration printed reads back as itself; zero is printed but refused.
  lemma {:induction false} SpanRoundTrip(secs: nat)
    requires secs <= U64_MAX
    ensures ParseAfterSpec(FormatSpan(secs)) == if secs == 0 then Err(Zero) else Ok(secs)
  {
    hide ParseParts, Written, Trim, PartIf, Descending, Sum, IsSpace;
    if secs == 0 {
      ZeroSpan();
    } else {
      SpanSum(secs);
      var parts := SpanParts(secs);
      assert parts != [] by { SomethingSummed(parts); }
      WrittenEnds(parts, U64_MAX);
      TrimSolid(Written(parts));
      ParseWritten(parts, 0, U64_MAX);
    }
  }

  lemma {:induction false} SomethingSummed(parts: seq<Part>)
    requires Descending(parts, U64_MAX) && Sum(parts, U64_MAX) > 0
    ensures parts != []
  {
  }

  lemma {:induction false} ZeroSpan()
    ensures ParseAfterSpec(FormatSpan(0)) == Err(Zero)
  {
    hide ParseParts, Trim, Value;
    assert SpanParts(0) == [];
    var part := Part("0", 's');
    assert Value("0") == 0 by { DecimalValue(0); assert Decimal(0) == "0"; }
    SumFirst(part, [], U64_MAX);
    assert [part] + [] == [part] && [part][1..] == [];
    assert Written([part]) == "0s";
    TrimSolid("0s");
    ParseWritten([part], 0, U64_MAX);
  }

  // ----- which error -----

  predicate Digits(s: string) {
    forall k :: 0 <= k < |s| ==> s[k] in "0123456789"
  }

  lemma {:induction false} DigitIs(c: char)
    ensures IsDigit(c) <==> c in "0123456789"
  {
    var all := ['0', '1', '2', '3', '4', '5', '6', '7', '8', '9'];
    assert "0123456789" == all;
    if IsDigit(c) {
      assert all[(c as int) - ('0' as int)] == c;
    }
  }

  lemma {:induction false} DigitsAre(s: string)
    ensures AllDigits(s) <==> Digits(s)
  {
    forall k | 0 <= k < |s| ensures IsDigit(s[k]) <==> s[k] in "0123456789" {
      DigitIs(s[k]);
    }
    hide IsDigit;
  }

  // What is wrong with the rest of a text, behind amounts that add up to `total` and end with the unit
  // `previous`.
  ghost predicate Fault(rest: string, total: nat, previous: nat, error: Error) {
    match error
    case Empty => false
    case Zero => rest == "" && total == 0
    case MissingUnit => rest != "" && Digits(rest)
    case _ =>
      exists digits: string, c: char, more: string ::
        && rest == digits + [c] + more && Digits(digits) && c !in "0123456789"
        && match error
           case NotWhole => digits == "" || NumberOf(digits) > 0xFFFF_FFFF_FFFF_FFFF
           case UnknownUnit(d) => Whole(digits) && c == d && c !in "hms"
           case Misordered => Whole(digits) && c in "hms" && Seconds(c) >= previous
           case _ => Whole(digits) && c in "hms" && Seconds(c) < previous && total + NumberOf(digits) * Seconds(c) > 0xFFFF_FFFF_FFFF_FFFF
  }

  function NumberOf(digits: string): nat {
    if digits == "" then 0 else
      var c := digits[|digits| - 1];
      10 * NumberOf(digits[..|digits| - 1]) + if '0' <= c <= '9' then (c as int) - ('0' as int) else 0
  }

  predicate Whole(digits: string) {
    digits != "" && NumberOf(digits) <= 0xFFFF_FFFF_FFFF_FFFF
  }

  function Seconds(unit: char): nat {
    if unit == 'h' then 3600 else if unit == 'm' then 60 else 1
  }

  lemma {:induction false} NumberIsValue(digits: string)
    requires AllDigits(digits)
    ensures NumberOf(digits) == Value(digits)
  {
    if digits != "" {
      NumberIsValue(digits[..|digits| - 1]);
    }
  }

  lemma {:induction false} SecondsOfUnit(c: char)
    ensures UnitOf(c).Some? <==> c in "hms"
    ensures UnitOf(c).Some? ==> UnitOf(c).value == Seconds(c)
  {
    assert "hms" == ['h', 'm', 's'];
  }

  // The parser stops exactly at a fault.
  lemma {:induction false} RefusedAt(rest: string, total: nat, previous: nat)
    requires rest != "" && TakePart(rest, total, previous).Refused?
    ensures Fault(rest, total, previous, TakePart(rest, total, previous).error)
  {
    var end := DigitsEnd(rest, 0);
    var error := TakePart(rest, total, previous).error;
    if end == |rest| {
      assert rest[..end] == rest;
      DigitsAre(rest);
    } else {
      var digits, c, more := rest[..end], rest[end], rest[end + 1..];
      assert rest == digits + [c] + more;
      DigitsAre(digits);
      DigitIs(c);
      NumberIsValue(digits);
      SecondsOfUnit(c);
      hide Value, NumberOf, UnitOf, Seconds, Digits, IsDigit, DigitsEnd;
      assert ParseU64(digits).None? <==> !Whole(digits);
      hide Whole;
      assert error.MissingUnit? || error.Empty? || error.Zero? || Fault(rest, total, previous, error);
    }
  }

  // The text starts with the parts, and behind them goes wrong as the error says.
  ghost predicate Breaks(rest: string, total: nat, previous: nat, parts: seq<Part>, left: string, error: Error) {
    && rest == Written(parts) + left && Descending(parts, previous)
    && Fault(left, total + Sum(parts, previous), if parts == [] then previous else Seconds(parts[|parts| - 1].unit), error)
  }

  lemma {:induction false} BreaksLater(part: Part, rest: string, total: nat, previous: nat, more: seq<Part>, left: string, error: Error)
    requires Proper(part) && UnitOf(part.unit).value < previous
    requires var unit := UnitOf(part.unit).value;
             Breaks(rest, total + Value(part.digits) * unit, unit, more, left, error)
    ensures Breaks(part.digits + [part.unit] + rest, total, previous, [part] + more, left, error)
  {
    assert UnitOf(part.unit).Some?;
    hide Fault, Proper, Value, UnitOf, Seconds;
    SecondsOfUnit(part.unit);
    var parts := [part] + more;
    assert parts[1..] == more;
    assert Written(parts) == part.digits + [part.unit] + Written(more);
    Regrouped(part.digits + [part.unit], Written(more), left);
    assert more != [] ==> parts[|parts| - 1] == more[|more| - 1];
  }

  lemma {:induction false} Regrouped(a: string, b: string, c: string)
    ensures a + (b + c) == (a + b) + c
  {
  }

  // A text that is refused goes wrong, as its error says, behind the amounts it starts with.
  lemma {:induction false} ErrorFound(rest: string, total: nat, previous: nat) returns (parts: seq<Part>, left: string)
    requires ParseParts(rest, total, previous).Err? && total <= U64_MAX
    ensures Breaks(rest, total, previous, parts, left, ParseParts(rest, total, previous).error)
    decreases |rest|
  {
    if rest == "" || TakePart(rest, total, previous).Refused? {
      parts, left := [], rest;
      hide Fault, TakePart, Breaks;
      if rest == "" {
        ZeroFault(total, previous);
      } else {
        RefusedAt(rest, total, previous);
      }
      BreaksNow(rest, total, previous, ParseParts(rest, total, previous).error);
    } else {
      hide Breaks, TakePart, Proper, Value, UnitOf;
      var step := TakePart(rest, total, previous);
      var part := TakenPart(rest, total, previous);
      var more;
      more, left := ErrorFound(step.rest, step.total, step.unit);
      BreaksLater(part, step.rest, total, previous, more, left, ParseParts(rest, total, previous).error);
      parts := [part] + more;
    }
  }

  lemma {:induction false} BreaksNow(rest: string, total: nat, previous: nat, error: Error)
    requires Fault(rest, total, previous, error)
    ensures Breaks(rest, total, previous, [], rest, error)
  {
    hide Fault;
    assert "" + rest == rest;
  }

  lemma {:induction false} ZeroFault(total: nat, previous: nat)
    requires ParseParts("", total, previous).Err?
    ensures Fault("", total, previous, ParseParts("", total, previous).error)
  {
  }
}
