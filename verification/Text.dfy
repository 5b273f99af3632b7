// Strings as the core uses them: blanks, trimming, lines and joins.
module Text {
  // `u64::MAX`.
  const U64_MAX: nat := 0xFFFF_FFFF_FFFF_FFFF

  datatype Option<+T> = None | Some(value: T) {
    function GetOr(default: T): T {
      match this
      case Some(v) => v
      case None => default
    }
  }

  // The Unicode White_Space property, which `char::is_whitespace` and `str::trim` use.
  predicate IsSpace(c: char) {
    || '\t' <= c <= '\r'
    || c == ' ' || c == '\U{85}' || c == '\U{A0}' || c == '\U{1680}'
    || '\U{2000}' <= c <= '\U{200A}'
    || c == '\U{2028}' || c == '\U{2029}' || c == '\U{202F}' || c == '\U{205F}' || c == '\U{3000}'
  }

  predicate AllSpace(s: string) {
    forall k :: 0 <= k < |s| ==> IsSpace(s[k])
  }

  // Where the leading blanks of `s`, read from `i` on, end.
  function LeadEnd(s: string, i: nat): (r: nat)
    requires i <= |s|
    ensures i <= r <= |s|
    ensures forall k :: i <= k < r ==> IsSpace(s[k])
    ensures r < |s| ==> !IsSpace(s[r])
    decreases |s| - i
  {
    if i < |s| && IsSpace(s[i]) then LeadEnd(s, i + 1) else i
  }

  // Where the trailing blanks of `s[..i]` start.
  function TailStart(s: string, i: nat): (r: nat)
    requires i <= |s|
    ensures r <= i
    ensures forall k :: r <= k < i ==> IsSpace(s[k])
    ensures r > 0 ==> !IsSpace(s[r - 1])
  {
    if i > 0 && IsSpace(s[i - 1]) then TailStart(s, i - 1) else i
  }

  function TrimStart(s: string): string {
    s[LeadEnd(s, 0)..]
  }

  function TrimEnd(s: string): string {
    s[..TailStart(s, |s|)]
  }

  function Trim(s: string): string {
    TrimEnd(TrimStart(s))
  }

  predicate Without(s: string, c: char) {
    forall k :: 0 <= k < |s| ==> s[k] != c
  }

  function Repeat(c: char, n: nat): (s: string)
    ensures |s| == n && forall k :: 0 <= k < n ==> s[k] == c
  {
    seq(n, _ => c)
  }

  // `[String]::join`.
  function Join(lines: seq<string>, sep: string): string {
    if lines == [] then "" else if |lines| == 1 then lines[0] else lines[0] + sep + Join(lines[1..], sep)
  }

  function Flatten<T>(parts: seq<seq<T>>): seq<T> {
    if parts == [] then [] else parts[0] + Flatten(parts[1..])
  }

  lemma {:induction false} FlattenAppend<T>(a: seq<seq<T>>, b: seq<seq<T>>)
    ensures Flatten(a + b) == Flatten(a) + Flatten(b)
  {
    if a == [] {
      assert a + b == b;
    } else {
      assert (a + b)[1..] == a[1..] + b;
      FlattenAppend(a[1..], b);
    }
  }

  lemma {:induction false} FlattenOne<T>(part: seq<T>)
    ensures Flatten([part]) == part
    ensures Flatten<T>([]) == []
  {
    assert [part][1..] == [];
  }

  // Position of the first `c` at or after `i`, or the length.
  function IndexFrom(s: string, c: char, i: nat): (at: nat)
    requires i <= |s|
    ensures i <= at <= |s|
    ensures forall k :: i <= k < at ==> s[k] != c
    ensures at < |s| ==> s[at] == c
    decreases |s| - i
  {
    if i == |s| || s[i] == c then i else IndexFrom(s, c, i + 1)
  }

  function IndexOf(s: string, c: char): (at: nat)
    ensures at <= |s| && Without(s[..at], c)
    ensures at < |s| ==> s[at] == c
  {
    IndexFrom(s, c, 0)
  }

  function DropCr(line: string): string {
    if line != "" && line[|line| - 1] == '\r' then line[..|line| - 1] else line
  }

  // `str::lines`: split at newlines, drop one carriage return before each newline, no empty
  // last line. A carriage return at the very end is kept, since no newline follows it.
  function Lines(s: string): seq<string>
    decreases |s|
  {
    if s == "" then [] else
      var at := IndexOf(s, '\n');
      if at == |s| then [s] else [DropCr(s[..at])] + Lines(s[at + 1..])
  }

  predicate PlainLine(line: string) {
    Without(line, '\n') && Without(line, '\r')
  }

  lemma {:induction false} LinesOfFirst(head: string, tail: string)
    requires Without(head, '\n')
    ensures Lines(head + ['\n'] + tail) == [DropCr(head)] + Lines(tail)
  {
    var s := head + ['\n'] + tail;
    assert IndexOf(s, '\n') == |head| by {
      assert s[|head|] == '\n';
      assert forall k :: 0 <= k < |head| ==> s[k] == head[k];
    }
    assert s[..|head|] == head && s[|head| + 1..] == tail;
  }

  // Lines joined with newlines are the same lines again.
  lemma {:induction false} LinesOfJoin(lines: seq<string>)
    requires forall k :: 0 <= k < |lines| ==> PlainLine(lines[k])
    requires lines != [] ==> lines[|lines| - 1] != ""
    ensures Lines(Join(lines, "\n")) == lines
  {
    if lines == [] {
    } else if |lines| == 1 {
      assert IndexOf(lines[0], '\n') == |lines[0]|;
    } else {
      LinesOfFirst(lines[0], Join(lines[1..], "\n"));
      LinesOfJoin(lines[1..]);
    }
  }

  lemma {:induction false} SplitFirst(a: string) returns (head: string, tail: string)
    requires a != "" && a[|a| - 1] == '\n'
    ensures Without(head, '\n') && a == head + ['\n'] + tail
    ensures tail == "" || tail[|tail| - 1] == '\n'
  {
    var at := IndexOf(a, '\n');
    head, tail := a[..at], a[at + 1..];
  }

  // A text cut just after a newline has the lines of both pieces.
  lemma {:induction false} LinesOfPieces(a: string, b: string)
    requires a == "" || a[|a| - 1] == '\n'
    ensures Lines(a + b) == Lines(a) + Lines(b)
    decreases |a|
  {
    hide IndexOf;
    if a == "" {
      assert a + b == b;
    } else {
      var head, tail := SplitFirst(a);
      calc {
        Lines(a + b);
        { assert a + b == head + ['\n'] + (tail + b); }
        Lines(head + ['\n'] + (tail + b));
        { LinesOfFirst(head, tail + b); }
        [DropCr(head)] + Lines(tail + b);
        { LinesOfPieces(tail, b); }
        [DropCr(head)] + Lines(tail) + Lines(b);
        { LinesOfFirst(head, tail); }
        Lines(a) + Lines(b);
      }
    }
  }

  // Byte order of strings, which for UTF-8 is the order of their characters.
  predicate TextBefore(a: string, b: string) {
    b != "" && (a == "" || a[0] < b[0] || (a[0] == b[0] && TextBefore(a[1..], b[1..])))
  }

  lemma {:induction false} TextBeforeTotal(a: string, b: string)
    ensures TextBefore(a, b) || TextBefore(b, a) || a == b
    ensures !(TextBefore(a, b) && TextBefore(b, a)) && !TextBefore(a, a)
    decreases |a|
  {
    if a != "" {
      TextBeforeTotal(a[1..], a[1..]);
      if b != "" {
        TextBeforeTotal(a[1..], b[1..]);
        assert a == [a[0]] + a[1..] && b == [b[0]] + b[1..];
      }
    }
  }

  lemma {:induction false} TextBeforeTransitive(a: string, b: string, c: string)
    requires TextBefore(a, b) && TextBefore(b, c)
    ensures TextBefore(a, c)
    decreases |a|
  {
    if a != "" && a[0] == b[0] && b[0] == c[0] {
      TextBeforeTransitive(a[1..], b[1..], c[1..]);
    }
  }
}
