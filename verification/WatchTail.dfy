// The bounded tail of a watched command's output.
module WatchTail {
  import opened Utf8

  type Line = seq<byte>

  const TRUNCATED_MARKER := "[earlier output truncated]"

  // ----- clipping one line -----

  // The first boundary at or after `start`.
  function BoundaryFrom(line: Line, start: nat): (at: nat)
    requires start <= |line|
    ensures start <= at <= |line|
    decreases |line| - start
  {
    if Boundary(line, start) then start else BoundaryFrom(line, start + 1)
  }

  function Clip(line: Line, maxBytes: nat): (kept: Line)
    ensures |kept| <= maxBytes && |kept| <= |line|
    ensures |line| <= maxBytes ==> kept == line
  {
    line[BoundaryFrom(line, if |line| > maxBytes then |line| - maxBytes else 0)..]
  }

  method ClipEnd(line: Line, maxBytes: nat) returns (kept: Line)
    ensures kept == Clip(line, maxBytes)
  {
    hide Boundary;
    var start := if |line| > maxBytes then |line| - maxBytes else 0;
    ghost var first := start;
    assert Boundary(line, |line|) by { EndIsBoundary(line); }
    while !Boundary(line, start)
      invariant start <= |line|
      invariant BoundaryFrom(line, start) == BoundaryFrom(line, first)
      decreases |line| - start
    {
      start := start + 1;
    }
    kept := line[start..];
  }

  lemma {:induction false} EndIsBoundary(line: Line)
    ensures Boundary(line, |line|)
  {
  }

  lemma {:induction false} BoundaryPast(first: Line, rest: Line, s: nat)
    requires s <= |rest| && (rest != [] ==> !Continues(rest[0]))
    ensures BoundaryFrom(first + rest, |first| + s) == |first| + BoundaryFrom(rest, s)
    decreases |rest| - s
  {
    hide Continues;
    if !Boundary(rest, s) {
      BoundaryPast(first, rest, s + 1);
    }
  }

  lemma {:induction false} BoundaryAtNext(c: char, rest: Line, s: nat)
    requires 0 < s <= |Encode(c)| && (rest != [] ==> !Continues(rest[0]))
    ensures BoundaryFrom(Encode(c) + rest, s) == |Encode(c)|
    decreases |Encode(c)| - s
  {
    hide Encode, Continues;
    EncodedBytes(c);
    if s < |Encode(c)| {
      assert (Encode(c) + rest)[s] == Encode(c)[s];
      BoundaryAtNext(c, rest, s + 1);
    }
  }

  lemma {:induction false} ClipPast(first: Line, rest: Line, maxBytes: nat)
    requires |rest| > maxBytes && !Continues(rest[0])
    ensures Clip(first + rest, maxBytes) == Clip(rest, maxBytes)
  {
    hide Continues, BoundaryFrom;
    var start := |rest| - maxBytes;
    BoundaryPast(first, rest, start);
    assert (first + rest)[|first| + BoundaryFrom(rest, start)..] == rest[BoundaryFrom(rest, start)..];
  }

  lemma {:induction false} ClipAtNext(c: char, rest: Line, maxBytes: nat)
    requires |rest| <= maxBytes < |Encode(c)| + |rest| && (rest != [] ==> !Continues(rest[0]))
    ensures Clip(Encode(c) + rest, maxBytes) == rest
  {
    hide Encode, Continues, BoundaryFrom;
    BoundaryAtNext(c, rest, |Encode(c)| + |rest| - maxBytes);
  }

  // Clipping a line keeps whole characters: as many at its end as fit.
  lemma {:induction false} ClipKeepsCharacters(text: string, maxBytes: nat) returns (k: nat)
    ensures k <= |text| && Clip(EncodeAll(text), maxBytes) == EncodeAll(text[k..])
    ensures |EncodeAll(text[k..])| <= maxBytes
    ensures k > 0 ==> |EncodeAll(text[k - 1..])| > maxBytes
  {
    hide Encode, BoundaryFrom, Continues, Clip;
    assert text[0..] == text;
    var rest := if text == "" then [] else EncodeAll(text[1..]);
    if |EncodeAll(text)| <= maxBytes {
      k := 0;
    } else if |rest| <= maxBytes {
      EncodedStart(text[1..]);
      ClipAtNext(text[0], rest, maxBytes);
      k := 1;
    } else {
      EncodedStart(text[1..]);
      ClipPast(Encode(text[0]), rest, maxBytes);
      var j := ClipKeepsCharacters(text[1..], maxBytes);
      k := j + 1;
      assert text[1..][j..] == text[k..];
      assert j > 0 ==> text[1..][j - 1..] == text[k - 1..];
    }
  }

  // ----- the tail -----

  function Total(lines: seq<Line>): nat {
    if lines == [] then 0 else |lines[0]| + Total(lines[1..])
  }

  lemma {:induction false} TotalAppend(lines: seq<Line>, line: Line)
    ensures Total(lines + [line]) == Total(lines) + |line|
  {
    if lines == [] {
      assert lines + [line] == [line] && [line][1..] == [];
    } else {
      assert (lines + [line])[1..] == lines[1..] + [line];
      TotalAppend(lines[1..], line);
    }
  }

  function Clipped(history: seq<Line>, maxBytes: nat): (lines: seq<Line>)
    ensures |lines| == |history|
    ensures forall i :: 0 <= i < |history| ==> lines[i] == Clip(history[i], maxBytes)
  {
    seq(|history|, i requires 0 <= i < |history| => Clip(history[i], maxBytes))
  }

  predicate Fits(lines: seq<Line>, maxLines: nat, maxBytes: nat) {
    |lines| <= maxLines && Total(lines) <= maxBytes
  }

  // `lines` is the longest end of `all` within both limits.
  ghost predicate LongestEnd(lines: seq<Line>, all: seq<Line>, maxLines: nat, maxBytes: nat) {
    && |lines| <= |all| && lines == all[|all| - |lines|..]
    && Fits(lines, maxLines, maxBytes)
    && forall k :: 0 <= k < |all| - |lines| ==> !Fits(all[k..], maxLines, maxBytes)
  }

  // Some line lost its beginning.
  ghost predicate SomeClipped(history: seq<Line>, maxBytes: nat) {
    exists i :: 0 <= i < |history| && |Clip(history[i], maxBytes)| < |history[i]|
  }

  function JoinBytes(lines: seq<Line>): Line {
    if lines == [] then [] else if |lines| == 1 then lines[0] else lines[0] + [10] + JoinBytes(lines[1..])
  }

  class Tail {
    const maxLines: nat
    const maxBytes: nat
    var lines: seq<Line>
    var bytes: nat
    var truncated: bool
    // Every line pushed so far.
    ghost var history: seq<Line>

    ghost predicate Valid()
      reads this
    {
      && LongestEnd(lines, Clipped(history, maxBytes), maxLines, maxBytes)
      && bytes == Total(lines)
      && (truncated <==> SomeClipped(history, maxBytes) || |lines| < |history|)
    }

    constructor (maxLines: nat, maxBytes: nat)
      ensures Valid() && history == []
      ensures this.maxLines == maxLines && this.maxBytes == maxBytes
    {
      this.maxLines, this.maxBytes := maxLines, maxBytes;
      lines, bytes, truncated, history := [], 0, false, [];
    }

    // The lines kept are the longest end of everything pushed, clipped, within both limits.
    method PushLine(line: Line)
      requires Valid()
      modifies this
      ensures Valid() && history == old(history) + [line]
    {
      hide Total, LongestEnd, SomeClipped, EndOf, Fits, Clip, Clipped;
      ghost var all := Clipped(history + [line], maxBytes);
      PushedAll(history, line, maxBytes);
      PushedFits(lines, Clipped(history, maxBytes), Clip(line, maxBytes), maxLines, maxBytes);
      var kept := ClipEnd(line, maxBytes);
      truncated := truncated || |kept| < |line|;
      TotalAppend(lines, kept);
      bytes := bytes + |kept|;
      lines := lines + [kept];
      history := history + [line];
      ghost var pushed := history;
      while |lines| > maxLines || bytes > maxBytes
        invariant history == pushed && EndOf(lines, all, maxLines, maxBytes)
        invariant bytes == Total(lines)
        invariant truncated <==> SomeClipped(history, maxBytes) || |lines| < |history|
        decreases |lines|
      {
        DropFirst(lines, all, maxLines, maxBytes);
        var dropped := lines[0];
        lines := lines[1..];
        bytes := bytes - |dropped|;
        truncated := true;
      }
      Longest(lines, all, maxLines, maxBytes);
    }

    method Render() returns (text: Line)
      requires Valid()
      ensures text == if !truncated then JoinBytes(history)
                      else EncodeAll(TRUNCATED_MARKER) + if lines == [] then [] else [10] + JoinBytes(lines)
    {
      hide JoinBytes, EncodeAll;
      if truncated {
        text := EncodeAll(TRUNCATED_MARKER) + if lines == [] then [] else [10] + JoinBytes(lines);
      } else {
        WholeHistory(lines, history, maxLines, maxBytes);
        text := JoinBytes(lines);
      }
    }
  }

  // An end of `all` that every longer end within the limits would contain.
  ghost predicate EndOf(lines: seq<Line>, all: seq<Line>, maxLines: nat, maxBytes: nat) {
    && |lines| <= |all| && lines == all[|all| - |lines|..]
    && forall k :: 0 <= k < |all| - |lines| ==> !Fits(all[k..], maxLines, maxBytes)
  }

  lemma {:induction false} PushedAll(history: seq<Line>, line: Line, maxBytes: nat)
    ensures Clipped(history + [line], maxBytes) == Clipped(history, maxBytes) + [Clip(line, maxBytes)]
    ensures SomeClipped(history + [line], maxBytes) <==>
            SomeClipped(history, maxBytes) || |Clip(line, maxBytes)| < |line|
  {
    hide Clip;
    var longer := history + [line];
    if SomeClipped(history, maxBytes) {
      var i :| 0 <= i < |history| && |Clip(history[i], maxBytes)| < |history[i]|;
      assert longer[i] == history[i];
    }
    assert longer[|history|] == line;
  }

  lemma {:induction false} PushedFits(lines: seq<Line>, all: seq<Line>, line: Line, maxLines: nat, maxBytes: nat)
    requires LongestEnd(lines, all, maxLines, maxBytes)
    ensures EndOf(lines + [line], all + [line], maxLines, maxBytes)
  {
    hide Total;
    forall k | 0 <= k < |all| - |lines| ensures !Fits((all + [line])[k..], maxLines, maxBytes) {
      assert (all + [line])[k..] == all[k..] + [line];
      TotalAppend(all[k..], line);
      assert !Fits(all[k..], maxLines, maxBytes);
    }
  }

  lemma {:induction false} DropFirst(lines: seq<Line>, all: seq<Line>, maxLines: nat, maxBytes: nat)
    requires EndOf(lines, all, maxLines, maxBytes) && (|lines| > maxLines || Total(lines) > maxBytes)
    ensures 0 < |lines| <= |all| && Total(lines[1..]) == Total(lines) - |lines[0]|
    ensures EndOf(lines[1..], all, maxLines, maxBytes)
  {
    assert lines[1..] == all[|all| - |lines| + 1..];
  }

  lemma {:induction false} Longest(lines: seq<Line>, all: seq<Line>, maxLines: nat, maxBytes: nat)
    requires EndOf(lines, all, maxLines, maxBytes) && |lines| <= maxLines && Total(lines) <= maxBytes
    ensures LongestEnd(lines, all, maxLines, maxBytes)
  {
  }

  // Without truncation the tail holds the whole output as it came.
  lemma {:induction false} WholeHistory(lines: seq<Line>, history: seq<Line>, maxLines: nat, maxBytes: nat)
    requires LongestEnd(lines, Clipped(history, maxBytes), maxLines, maxBytes)
    requires !SomeClipped(history, maxBytes) && |lines| >= |history|
    ensures lines == history
  {
    hide Total, Fits;
    forall i | 0 <= i < |history| ensures Clipped(history, maxBytes)[i] == history[i] {
      assert !(|Clip(history[i], maxBytes)| < |history[i]|);
    }
  }

  // At most one list of lines is the longest end within the limits.
  lemma {:induction false} LongestEndIsUnique(a: seq<Line>, b: seq<Line>, all: seq<Line>, maxLines: nat, maxBytes: nat)
    requires LongestEnd(a, all, maxLines, maxBytes) && LongestEnd(b, all, maxLines, maxBytes)
    ensures a == b
  {
    hide Total, Fits;
    LongestIsNoShorter(a, b, all, maxLines, maxBytes);
    LongestIsNoShorter(b, a, all, maxLines, maxBytes);
  }

  lemma {:induction false} LongestIsNoShorter(a: seq<Line>, b: seq<Line>, all: seq<Line>, maxLines: nat, maxBytes: nat)
    requires LongestEnd(a, all, maxLines, maxBytes) && LongestEnd(b, all, maxLines, maxBytes)
    ensures |a| >= |b|
  {
    hide Total, Fits;
    var k := |all| - |b|;
    assert Fits(all[k..], maxLines, maxBytes);
  }

  // ----- joined lines -----

  // Where line `i` starts in the joined text: behind the lines before it and their newlines.
  function LinePlace(lines: seq<Line>, i: nat): nat
    requires i <= |lines|
  {
    if i == 0 then 0 else LinePlace(lines, i - 1) + |lines[i - 1]| + 1
  }

  lemma {:induction false} PlaceOfRest(lines: seq<Line>, i: nat)
    requires 0 < i <= |lines|
    ensures LinePlace(lines, i) == |lines[0]| + 1 + LinePlace(lines[1..], i - 1)
  {
    if i > 1 {
      PlaceOfRest(lines, i - 1);
      assert lines[1..][i - 2] == lines[i - 1];
    }
  }

  // Line `i` stands at its place in the text, with a newline behind it if more lines follow.
  predicate StandsIn(text: Line, lines: seq<Line>, i: nat)
    requires i < |lines|
  {
    var at := LinePlace(lines, i);
    && at + |lines[i]| <= |text| && text[at..at + |lines[i]|] == lines[i]
    && (i < |lines| - 1 ==> at + |lines[i]| < |text| && text[at + |lines[i]|] == 10)
  }

  lemma {:induction false} StandsFirst(first: Line, rest: seq<Line>, text: Line)
    requires rest != []
    ensures StandsIn(first + [10] + text, [first] + rest, 0)
  {
    var whole := first + [10] + text;
    assert ([first] + rest)[0] == first && whole[0..|first|] == first && whole[|first|] == 10;
  }

  lemma {:induction false} StandsLater(first: Line, rest: seq<Line>, text: Line, i: nat)
    requires i < |rest| && StandsIn(text, rest, i)
    ensures StandsIn(first + [10] + text, [first] + rest, i + 1)
  {
    var whole, lines, at := first + [10] + text, [first] + rest, LinePlace(rest, i);
    assert lines[1..] == rest;
    PlaceOfRest(lines, i + 1);
    hide LinePlace;
    var n := |first| + 1;
    assert whole[n..] == text;
    assert whole[n + at..n + at + |rest[i]|] == whole[n..][at..at + |rest[i]|];
    assert i < |rest| - 1 ==> whole[n + (at + |rest[i]|)] == text[at + |rest[i]|];
  }

  // Every line stands in the joined text at its place, with one newline behind each but the last, and
  // nothing else is there.
  lemma {:induction false} JoinPlaces(lines: seq<Line>, i: nat)
    requires i < |lines|
    ensures |JoinBytes(lines)| + 1 == LinePlace(lines, |lines|) && StandsIn(JoinBytes(lines), lines, i)
    decreases |lines|
  {
    PlaceOfRest(lines, |lines|);
    if |lines| > 1 {
      var first, rest := lines[0], lines[1..];
      assert lines == [first] + rest;
      hide LinePlace, StandsIn;
      if i == 0 {
        JoinPlaces(rest, 0);
        StandsFirst(first, rest, JoinBytes(rest));
      } else {
        JoinPlaces(rest, i - 1);
        StandsLater(first, rest, JoinBytes(rest), i - 1);
      }
    }
  }
}
