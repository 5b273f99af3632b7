// Token counts with saturating 64-bit addition, and ordered maps of lines.
module Tokens {
  import opened Text
  import opened Usage

  datatype Count = Count(
    input: U64, output: U64, cacheRead: U64, cacheWrite: U64,
    write5m: Option<U64>, write1h: Option<U64>,
    partial5m: bool, partial1h: bool, partialReasoning: bool,
    reasoning: Option<U64>)

  const ZERO := Count(0, 0, 0, 0, None, None, false, false, false, None)

  function Saturating(a: U64, b: U64): U64 {
    if a + b <= U64_MAX then a + b else U64_MAX
  }

  function EitherSum(a: Option<U64>, b: Option<U64>): Option<U64> {
    if a.None? then b else if b.None? then a else Some(Saturating(a.value, b.value))
  }

  function CountOf(line: UsageLine): Count {
    Count(line.inputTokens, line.outputTokens, line.cacheReadTokens, line.cacheCreationTokens,
          line.cacheWrite5m, line.cacheWrite1h,
          line.cacheWrite5m.None?, line.cacheWrite1h.None?, line.reasoningTokens.None?,
          line.reasoningTokens)
  }

  function Plus(a: Count, b: Count): Count {
    Count(Saturating(a.input, b.input), Saturating(a.output, b.output),
          Saturating(a.cacheRead, b.cacheRead), Saturating(a.cacheWrite, b.cacheWrite),
          EitherSum(a.write5m, b.write5m), EitherSum(a.write1h, b.write1h),
          a.partial5m || b.partial5m, a.partial1h || b.partial1h, a.partialReasoning || b.partialReasoning,
          EitherSum(a.reasoning, b.reasoning))
  }

  lemma {:induction false} EitherAssociative(a: Option<U64>, b: Option<U64>, c: Option<U64>)
    ensures EitherSum(EitherSum(a, b), c) == EitherSum(a, EitherSum(b, c))
    ensures EitherSum(a, b) == EitherSum(b, a)
  {
  }

  // Saturating addition of counts is a commutative monoid.
  lemma {:induction false} PlusIsMonoid(a: Count, b: Count, c: Count)
    ensures Plus(Plus(a, b), c) == Plus(a, Plus(b, c))
    ensures Plus(a, b) == Plus(b, a)
    ensures Plus(ZERO, a) == a == Plus(a, ZERO)
  {
    EitherAssociative(a.write5m, b.write5m, c.write5m);
    EitherAssociative(a.write1h, b.write1h, c.write1h);
    EitherAssociative(a.reasoning, b.reasoning, c.reasoning);
    hide EitherSum;
    assert EitherSum(None, a.write5m) == a.write5m == EitherSum(a.write5m, None) by { EitherUnit(a.write5m); }
    assert EitherSum(None, a.write1h) == a.write1h == EitherSum(a.write1h, None) by { EitherUnit(a.write1h); }
    assert EitherSum(None, a.reasoning) == a.reasoning == EitherSum(a.reasoning, None) by { EitherUnit(a.reasoning); }
  }

  lemma {:induction false} EitherUnit(a: Option<U64>)
    ensures EitherSum(None, a) == a == EitherSum(a, None)
  {
  }

  // The sum of the lines' counts, in order.
  function SumOf(lines: seq<UsageLine>): Count {
    if lines == [] then ZERO else Plus(SumOf(lines[..|lines| - 1]), CountOf(lines[|lines| - 1]))
  }

  lemma {:induction false} SumConcat(a: seq<UsageLine>, b: seq<UsageLine>)
    ensures SumOf(a + b) == Plus(SumOf(a), SumOf(b))
  {
    hide Plus, CountOf;
    if b == [] {
      assert a + b == a;
      PlusIsMonoid(SumOf(a), ZERO, ZERO);
    } else {
      var front, last := b[..|b| - 1], b[|b| - 1];
      assert (a + b)[..|a + b| - 1] == a + front;
      SumConcat(a, front);
      PlusIsMonoid(SumOf(a), SumOf(front), CountOf(last));
    }
  }

  // ----- the sums as whole numbers -----

  type Field = UsageLine -> U64
  type Part = UsageLine -> Option<U64>

  // The plain sum of a field, without a bound.
  function Total(lines: seq<UsageLine>, field: Field): nat {
    if lines == [] then 0 else Total(lines[1..], field) + field(lines[0])
  }

  // The plain sum of a part over the lines that have it.
  function PartTotal(lines: seq<UsageLine>, part: Part): nat {
    if lines == [] then 0 else PartTotal(lines[1..], part) + part(lines[0]).GetOr(0)
  }

  predicate SomeLacks(lines: seq<UsageLine>, part: Part) {
    exists k :: 0 <= k < |lines| && part(lines[k]).None?
  }

  predicate AllLack(lines: seq<UsageLine>, part: Part) {
    forall k :: 0 <= k < |lines| ==> part(lines[k]).None?
  }

  // A sum is shown as it is, or as the greatest number of 64 bits.
  function Capped(n: nat): U64 {
    if n < 0x1_0000_0000_0000_0000 then n else 0xFFFF_FFFF_FFFF_FFFF
  }

  function CappedPart(lines: seq<UsageLine>, part: Part): Option<U64> {
    if AllLack(lines, part) then None else Some(Capped(PartTotal(lines, part)))
  }

  const INPUT: Field := (line: UsageLine) => line.inputTokens
  const OUTPUT: Field := (line: UsageLine) => line.outputTokens
  const CACHE_READ: Field := (line: UsageLine) => line.cacheReadTokens
  const CACHE_WRITE: Field := (line: UsageLine) => line.cacheCreationTokens
  const WRITE_5M: Part := (line: UsageLine) => line.cacheWrite5m
  const WRITE_1H: Part := (line: UsageLine) => line.cacheWrite1h
  const REASONING: Part := (line: UsageLine) => line.reasoningTokens

  // The count adds up the lines, number by number.
  predicate AddsUp(count: Count, lines: seq<UsageLine>) {
    && count.input == Capped(Total(lines, INPUT)) && count.output == Capped(Total(lines, OUTPUT))
    && count.cacheRead == Capped(Total(lines, CACHE_READ)) && count.cacheWrite == Capped(Total(lines, CACHE_WRITE))
    && count.write5m == CappedPart(lines, WRITE_5M) && count.write1h == CappedPart(lines, WRITE_1H)
    && count.reasoning == CappedPart(lines, REASONING)
    && (count.partial5m <==> SomeLacks(lines, WRITE_5M)) && (count.partial1h <==> SomeLacks(lines, WRITE_1H))
    && (count.partialReasoning <==> SomeLacks(lines, REASONING))
  }

  lemma {:induction false} TotalLast(lines: seq<UsageLine>, field: Field)
    requires lines != []
    ensures var n := |lines| - 1; Total(lines, field) == Total(lines[..n], field) + field(lines[n])
  {
    var n := |lines| - 1;
    if n > 0 {
      TotalLast(lines[1..], field);
      assert lines[1..][..n - 1] == lines[..n][1..];
    }
  }

  lemma {:induction false} PartTotalLast(lines: seq<UsageLine>, part: Part)
    requires lines != []
    ensures var n := |lines| - 1; PartTotal(lines, part) == PartTotal(lines[..n], part) + part(lines[n]).GetOr(0)
  {
    var n := |lines| - 1;
    if n > 0 {
      PartTotalLast(lines[1..], part);
      assert lines[1..][..n - 1] == lines[..n][1..];
    }
  }

  lemma {:induction false} CappedAdds(sum: nat, more: U64)
    ensures Saturating(Capped(sum), more) == Capped(sum + more)
  {
  }

  lemma {:induction false} FieldAdds(lines: seq<UsageLine>, field: Field)
    requires lines != []
    ensures var n := |lines| - 1;
            Saturating(Capped(Total(lines[..n], field)), field(lines[n])) == Capped(Total(lines, field))
  {
    hide Capped, Saturating, Total;
    TotalLast(lines, field);
    CappedAdds(Total(lines[..|lines| - 1], field), field(lines[|lines| - 1]));
  }

  lemma {:induction false} LackingTotal(lines: seq<UsageLine>, part: Part)
    requires AllLack(lines, part)
    ensures PartTotal(lines, part) == 0
  {
    if lines != [] {
      LackingTotal(lines[1..], part);
    }
  }

  lemma {:induction false} LackLast(lines: seq<UsageLine>, part: Part)
    requires lines != []
    ensures var n := |lines| - 1;
            && (AllLack(lines, part) <==> AllLack(lines[..n], part) && part(lines[n]).None?)
            && (SomeLacks(lines, part) <==> SomeLacks(lines[..n], part) || part(lines[n]).None?)
  {
    var n := |lines| - 1;
    assert forall k :: 0 <= k < n ==> lines[..n][k] == lines[k];
    if k :| 0 <= k < n && part(lines[..n][k]).None? {
      assert part(lines[k]).None?;
    }
  }

  lemma {:induction false} PartAdds(lines: seq<UsageLine>, part: Part)
    requires lines != []
    ensures var n := |lines| - 1; EitherSum(CappedPart(lines[..n], part), part(lines[n])) == CappedPart(lines, part)
  {
    hide Capped, Saturating, PartTotal, AllLack, SomeLacks;
    var n := |lines| - 1;
    LackLast(lines, part);
    PartTotalLast(lines, part);
    if AllLack(lines[..n], part) {
      LackingTotal(lines[..n], part);
    }
    if part(lines[n]).Some? {
      CappedAdds(PartTotal(lines[..n], part), part(lines[n]).value);
      CappedSmall(part(lines[n]).value);
    }
  }

  lemma {:induction false} CappedSmall(n: U64)
    ensures Capped(n) == n
  {
  }

  // The sum of the counts is the sum of the numbers, each capped at the end.
  lemma {:induction false} SumAddsUp(lines: seq<UsageLine>)
    ensures AddsUp(SumOf(lines), lines)
  {
    if lines == [] {
      NothingAddsUp();
    } else {
      var n := |lines| - 1;
      SumAddsUp(lines[..n]);
      hide Capped, Saturating, EitherSum, Total, CappedPart, SomeLacks;
      FieldAdds(lines, INPUT);
      FieldAdds(lines, OUTPUT);
      FieldAdds(lines, CACHE_READ);
      FieldAdds(lines, CACHE_WRITE);
      PartAdds(lines, WRITE_5M);
      PartAdds(lines, WRITE_1H);
      PartAdds(lines, REASONING);
      LackLast(lines, WRITE_5M);
      LackLast(lines, WRITE_1H);
      LackLast(lines, REASONING);
    }
  }

  lemma {:induction false} NothingAddsUp()
    ensures AddsUp(SumOf([]), [])
  {
  }

  // ----- ordered maps from keys to lists -----

  type Groups<K, V> = seq<(K, seq<V>)>

  // `entry(key).or_default().extend(values)` on a `BTreeMap`.
  function Extended<K(==), V>(m: Groups<K, V>, key: K, values: seq<V>, less: (K, K) -> bool): Groups<K, V> {
    if m == [] then [(key, values)]
    else if m[0].0 == key then [(key, m[0].1 + values)] + m[1..]
    else if less(key, m[0].0) then [(key, values)] + m
    else [m[0]] + Extended(m[1..], key, values, less)
  }

  function Get<K(==), V>(m: Groups<K, V>, key: K): seq<V> {
    if m == [] then [] else if m[0].0 == key then m[0].1 else Get(m[1..], key)
  }

  predicate InOrder<K(!new), V>(m: Groups<K, V>, less: (K, K) -> bool) {
    forall i, j :: 0 <= i < j < |m| ==> less(m[i].0, m[j].0)
  }

  // A strict total order.
  ghost predicate IsOrder<K(!new)>(less: (K, K) -> bool) {
    && (forall a :: !less(a, a))
    && (forall a, b :: less(a, b) || less(b, a) || a == b)
    && (forall a, b, c :: less(a, b) && less(b, c) ==> less(a, c))
  }

  lemma {:induction false} GetAbsent<K(!new), V>(m: Groups<K, V>, key: K)
    requires forall i :: 0 <= i < |m| ==> m[i].0 != key
    ensures Get(m, key) == []
  {
    if m != [] {
      GetAbsent(m[1..], key);
    }
  }

  lemma {:induction false} ExtendedKeys<K(!new), V>(m: Groups<K, V>, key: K, values: seq<V>, less: (K, K) -> bool, i: nat)
    requires i < |Extended(m, key, values, less)|
    ensures var k := Extended(m, key, values, less)[i].0;
            k == key || exists j :: 0 <= j < |m| && m[j].0 == k
  {
    if m != [] && m[0].0 != key {
      if less(key, m[0].0) {
        if i > 0 {
          assert Extended(m, key, values, less)[i] == m[i - 1];
        }
      } else if i > 0 {
        ExtendedKeys(m[1..], key, values, less, i - 1);
        var k := Extended(m, key, values, less)[i].0;
        if k != key {
          var j :| 0 <= j < |m[1..]| && m[1..][j].0 == k;
          assert m[j + 1].0 == k;
        }
      } else {
        assert Extended(m, key, values, less)[0] == m[0];
      }
    }
  }

  // The map stays ordered, and only the key's own list grows.
  lemma {:induction false} ExtendedOrder<K(!new), V>(m: Groups<K, V>, key: K, values: seq<V>, less: (K, K) -> bool)
    requires IsOrder(less) && InOrder(m, less)
    ensures InOrder(Extended(m, key, values, less), less)
  {
    if m != [] && m[0].0 != key && !less(key, m[0].0) {
      var rest := m[1..];
      ExtendedOrder(rest, key, values, less);
      var grown := Extended(rest, key, values, less);
      forall i | 0 <= i < |grown| ensures less(m[0].0, grown[i].0) {
        ExtendedKeys(rest, key, values, less, i);
        if grown[i].0 != key {
          var j :| 0 <= j < |rest| && rest[j].0 == grown[i].0;
          assert m[j + 1] == rest[j];
        }
      }
    }
  }

  lemma {:induction false} ExtendedGet<K(!new), V>(m: Groups<K, V>, key: K, values: seq<V>, less: (K, K) -> bool, other: K)
    requires IsOrder(less) && InOrder(m, less)
    ensures Get(Extended(m, key, values, less), other) == Get(m, other) + if other == key then values else []
  {
    if m == [] {
      assert [(key, values)][1..] == [];
      assert [] + values == values;
    } else if m[0].0 == key {
      assert ([(key, m[0].1 + values)] + m[1..])[1..] == m[1..];
    } else if less(key, m[0].0) {
      assert ([(key, values)] + m)[1..] == m;
      GetAbsent(m, key);
      assert [] + values == values;
    } else {
      var grown := Extended(m[1..], key, values, less);
      assert ([m[0]] + grown)[1..] == grown;
      ExtendedGet(m[1..], key, values, less, other);
    }
    assert Get(m, other) + [] == Get(m, other);
  }

  function MapSum<K>(m: Groups<K, UsageLine>): Count {
    if m == [] then ZERO else Plus(SumOf(m[0].1), MapSum(m[1..]))
  }

  // Adding lines under any key adds their counts to the map's total.
  lemma {:induction false} ExtendedSum<K(!new)>(m: Groups<K, UsageLine>, key: K, lines: seq<UsageLine>, less: (K, K) -> bool)
    ensures MapSum(Extended(m, key, lines, less)) == Plus(MapSum(m), SumOf(lines))
  {
    hide Plus, SumOf;
    var own := SumOf(lines);
    if m == [] {
      assert [(key, lines)][1..] == [];
      PlusIsMonoid(own, ZERO, ZERO);
    } else {
      var first, rest := SumOf(m[0].1), MapSum(m[1..]);
      PlusIsMonoid(first, rest, own);
      PlusIsMonoid(own, Plus(first, rest), ZERO);
      if m[0].0 == key {
        SumConcat(m[0].1, lines);
        assert ([(key, m[0].1 + lines)] + m[1..])[1..] == m[1..];
        PlusIsMonoid(first, own, rest);
        PlusIsMonoid(own, rest, ZERO);
      } else if less(key, m[0].0) {
        assert ([(key, lines)] + m)[1..] == m;
      } else {
        var grown := Extended(m[1..], key, lines, less);
        assert ([m[0]] + grown)[1..] == grown;
        ExtendedSum(m[1..], key, lines, less);
      }
    }
  }
}
