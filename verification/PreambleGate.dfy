// The gate in front of the sanitizer: holds everything up to and including the output marker.
module PreambleGate {
  import opened Text
  import opened Utf8

  const OUTPUT_START: byte := 0x1E

  // Position of the first marker, or the length.
  function MarkerAt(chunk: seq<byte>, i: nat): (at: nat)
    requires i <= |chunk|
    ensures i <= at <= |chunk|
    ensures forall k :: i <= k < at ==> chunk[k] != OUTPUT_START
    ensures at < |chunk| ==> chunk[at] == OUTPUT_START
    decreases |chunk| - i
  {
    if i == |chunk| || chunk[i] == OUTPUT_START then i else MarkerAt(chunk, i + 1)
  }

  function Passed(open: bool, chunk: seq<byte>): (bool, seq<byte>) {
    if open then (true, chunk) else
      var at := MarkerAt(chunk, 0);
      if at < |chunk| then (true, chunk[at + 1..]) else (false, [])
  }

  class Gate {
    var open: bool

    constructor (stateful: bool)
      ensures open == !stateful
    {
      open := !stateful;
    }

    method Feed(chunk: seq<byte>) returns (out: seq<byte>)
      modifies this
      ensures (open, out) == Passed(old(open), chunk)
    {
      if open {
        return chunk;
      }
      var at := MarkerAt(chunk, 0);
      if at < |chunk| {
        open := true;
        return chunk[at + 1..];
      }
      return [];
    }
  }

  function PassedAll(open: bool, chunks: seq<seq<byte>>): (bool, seq<byte>)
    decreases |chunks|
  {
    if chunks == [] then (open, []) else
      var (next, out) := Passed(open, chunks[0]);
      var (last, more) := PassedAll(next, chunks[1..]);
      (last, out + more)
  }

  lemma {:induction false} TwoPassed(open: bool, a: seq<byte>, b: seq<byte>)
    ensures var (mid, out) := Passed(open, a);
            var (last, more) := Passed(mid, b);
            Passed(open, a + b) == (last, out + more)
  {
    if !open {
      var at := MarkerAt(a, 0);
      var both := MarkerAt(a + b, 0);
      assert forall k :: 0 <= k < |a| ==> (a + b)[k] == a[k];
      if at < |a| {
        assert both == at;
        assert (a + b)[at + 1..] == a[at + 1..] + b;
      } else {
        var later := MarkerAt(b, 0);
        assert forall k :: 0 <= k < |b| ==> (a + b)[|a| + k] == b[k];
        assert both == |a| + later by {
          assert both >= |a|;
          assert both < |a + b| ==> b[both - |a|] == OUTPUT_START;
          assert later < |b| ==> (a + b)[|a| + later] == OUTPUT_START;
        }
        assert later < |b| ==> (a + b)[both + 1..] == b[later + 1..];
        assert [] + Passed(false, b).1 == Passed(false, b).1;
      }
    }
  }

  // The gate does not see chunk borders: it passes what follows the first marker of the stream.
  lemma {:induction false} GateSeesOneStream(open: bool, chunks: seq<seq<byte>>)
    ensures PassedAll(open, chunks) == Passed(open, Flatten(chunks))
    decreases |chunks|
  {
    hide Passed;
    if chunks == [] {
      assert Passed(open, []) == (open, []) by { PassedNothing(open); }
    } else {
      GateSeesOneStream(Passed(open, chunks[0]).0, chunks[1..]);
      TwoPassed(open, chunks[0], Flatten(chunks[1..]));
    }
  }

  lemma {:induction false} PassedNothing(open: bool)
    ensures Passed(open, []) == (open, [])
  {
  }
}
