// UTF-8 as the core reads it: `std::str::from_utf8` over bytes that may stop mid-character.
// The byte ranges are those of section 4 of RFC 3629.
module Utf8 {
  import opened Text

  type byte = b: int | 0 <= b < 256

  const REPLACEMENT: char := '\U{FFFD}'

  // What the bytes start with: a character of `n` bytes, `n` bytes that are no part of any
  // character, or the beginning of a character whose other bytes are missing.
  datatype Unit = Char(c: char, n: nat) | Bad(n: nat) | Short

  predicate Continues(b: byte) {
    0x80 <= b <= 0xBF
  }

  // Whether `b` may follow the first byte of a sequence of three or four.
  predicate SecondOf(first: byte, b: byte) {
    if first == 0xE0 then 0xA0 <= b <= 0xBF
    else if first == 0xED then 0x80 <= b <= 0x9F
    else if first == 0xF0 then 0x90 <= b <= 0xBF
    else if first == 0xF4 then 0x80 <= b <= 0x8F
    else 0x80 <= b <= 0xBF
  }

  function Width(first: byte): nat {
    if first <= 0x7F then 1
    else if 0xC2 <= first <= 0xDF then 2
    else if 0xE0 <= first <= 0xEF then 3
    else if 0xF0 <= first <= 0xF4 then 4
    else 0
  }

  function Two(a: byte, b: byte): char
    requires 0xC2 <= a <= 0xDF && Continues(b)
  {
    ((a - 0xC0) * 64 + (b - 0x80)) as char
  }

  function Three(a: byte, b: byte, c: byte): char
    requires 0xE0 <= a <= 0xEF && SecondOf(a, b) && Continues(c)
  {
    ((a - 0xE0) * 4096 + (b - 0x80) * 64 + (c - 0x80)) as char
  }

  function Four(a: byte, b: byte, c: byte, d: byte): char
    requires 0xF0 <= a <= 0xF4 && SecondOf(a, b) && Continues(c) && Continues(d)
  {
    ((a - 0xF0) * 262144 + (b - 0x80) * 4096 + (c - 0x80) * 64 + (d - 0x80)) as char
  }

  function Head(s: seq<byte>): (u: Unit)
    requires s != []
    ensures u.Char? ==> 1 <= u.n <= |s|
    ensures u.Bad? ==> 1 <= u.n <= |s|
  {
    var a, width := s[0], Width(s[0]);
    if width == 1 then Char(a as char, 1)
    else if width == 0 then Bad(1)
    else if |s| < 2 then Short
    else if width == 2 then if Continues(s[1]) then Char(Two(a, s[1]), 2) else Bad(1)
    else if !SecondOf(a, s[1]) then Bad(1)
    else if |s| < 3 then Short
    else if !Continues(s[2]) then Bad(2)
    else if width == 3 then Char(Three(a, s[1], s[2]), 3)
    else if |s| < 4 then Short
    else if !Continues(s[3]) then Bad(3)
    else Char(Four(a, s[1], s[2], s[3]), 4)
  }

  // The characters of the bytes, bad ones replaced, and the unfinished character at the end.
  function Decode(s: seq<byte>): (string, seq<byte>) {
    if s == [] then ("", []) else
      match Head(s)
      case Char(c, n) => var (text, rest) := Decode(s[n..]); ([c] + text, rest)
      case Bad(n) => var (text, rest) := Decode(s[n..]); ([REPLACEMENT] + text, rest)
      case Short => ("", s)
  }

  // `from_utf8`: the valid text in front, its length, and why it stops there.
  datatype Checked = Checked(text: string, validUpTo: nat, errorLen: Option<nat>)

  function FromUtf8(s: seq<byte>): (r: Checked)
    ensures r.validUpTo <= |s|
    ensures r.validUpTo == |s| ==> r.errorLen.None?
    ensures r.errorLen.Some? ==> 1 <= r.errorLen.value && r.validUpTo + r.errorLen.value <= |s|
  {
    if s == [] then Checked("", 0, None) else
      match Head(s)
      case Char(c, n) =>
        var r := FromUtf8(s[n..]);
        Checked([c] + r.text, n + r.validUpTo, r.errorLen)
      case Bad(n) => Checked("", 0, Some(n))
      case Short => Checked("", 0, None)
  }

  lemma {:induction false} DecodeFirst(s: seq<byte>)
    requires s != [] && !Head(s).Short?
    ensures var u := Head(s);
            Decode(s) == ([if u.Char? then u.c else REPLACEMENT] + Decode(s[u.n..]).0, Decode(s[u.n..]).1)
  {
  }

  // Decoding goes on after the valid text `from_utf8` finds.
  lemma {:induction false} DecodeByChecks(s: seq<byte>)
    ensures var r := FromUtf8(s);
            Decode(s) == if r.validUpTo == |s| then (r.text, [])
                         else if r.errorLen.None? then (r.text, s[r.validUpTo..])
                         else var after := Decode(s[r.validUpTo + r.errorLen.value..]);
                              (r.text + [REPLACEMENT] + after.0, after.1)
  {
    hide Head;
    if s != [] && Head(s).Char? {
      hide Decode, FromUtf8;
      var n := Head(s).n;
      DecodeByChecks(s[n..]);
      DecodeFirst(s);
      ChecksFirst(s);
      var r := FromUtf8(s[n..]);
      SliceTwice(s, n, r.validUpTo);
      if r.errorLen.Some? {
        SliceTwice(s, n, r.validUpTo + r.errorLen.value);
        GlueDecoded([Head(s).c], r.text, [REPLACEMENT], Decode(s[n..][r.validUpTo + r.errorLen.value..]).0);
      }
    } else if s != [] {
      ChecksStop(s);
    } else {
      assert FromUtf8(s) == Checked("", 0, None) && Decode(s) == ("", []);
    }
  }

  lemma {:induction false} SliceTwice(s: seq<byte>, a: nat, b: nat)
    requires a + b <= |s|
    ensures s[a..][b..] == s[a + b..]
  {
  }

  // Where `from_utf8` stops at once.
  lemma {:induction false} ChecksStop(s: seq<byte>)
    requires s != [] && !Head(s).Char?
    ensures var r := FromUtf8(s);
            && r.validUpTo == 0 && r.text == ""
            && Decode(s) == if r.errorLen.None? then (r.text, s[0..])
                            else var after := Decode(s[0 + r.errorLen.value..]);
                                 (r.text + [REPLACEMENT] + after.0, after.1)
  {
    hide Head;
    assert s[0..] == s;
    if Head(s).Bad? {
      DecodeFirst(s);
      var after := Decode(s[Head(s).n..]).0;
      assert "" + [REPLACEMENT] + after == [REPLACEMENT] + after;
    }
  }

  lemma {:induction false} ChecksFirst(s: seq<byte>)
    requires s != [] && Head(s).Char?
    ensures var (n, r) := (Head(s).n, FromUtf8(s[Head(s).n..]));
            FromUtf8(s) == Checked([Head(s).c] + r.text, n + r.validUpTo, r.errorLen)
  {
    hide Head;
  }

  lemma {:induction false} GlueDecoded(a: string, b: string, c: string, d: string)
    ensures a + (b + c + d) == (a + b) + c + d
  {
  }

  lemma {:induction false} HeadOfLonger(a: seq<byte>, b: seq<byte>)
    requires a != [] && !Head(a).Short?
    ensures Head(a + b) == Head(a)
  {
  }

  // Decoding in two pieces is decoding at once.
  lemma {:induction false} DecodeConcat(a: seq<byte>, b: seq<byte>)
    ensures var (text, rest) := Decode(a);
            var (text', rest') := Decode(rest + b);
            Decode(a + b) == (text + text', rest')
  {
    hide Head;
    if a == [] {
      assert a + b == b && [] + b == b;
      assert "" + Decode(b).0 == Decode(b).0;
    } else if !Head(a).Short? {
      HeadOfLonger(a, b);
      var n := Head(a).n;
      assert (a + b)[n..] == a[n..] + b;
      DecodeConcat(a[n..], b);
      DecodeFirst(a);
      DecodeFirst(a + b);
      var c := [if Head(a).Char? then Head(a).c else REPLACEMENT];
      var (text, rest) := Decode(a[n..]);
      assert c + (text + Decode(rest + b).0) == (c + text) + Decode(rest + b).0;
    } else {
      assert Decode(a) == ("", a);
      assert "" + Decode(a + b).0 == Decode(a + b).0;
    }
  }

  // What is left over is the beginning of one character, or nothing.
  predicate Unfinished(rest: seq<byte>) {
    rest == [] || Head(rest).Short?
  }

  lemma {:induction false} LeftOver(s: seq<byte>)
    ensures Unfinished(Decode(s).1)
    ensures Unfinished(s) ==> Decode(s) == ("", s)
  {
    hide Head;
    if s != [] && !Head(s).Short? {
      LeftOver(s[Head(s).n..]);
    }
  }

  // `String::from_utf8_lossy`: an unfinished end is replaced too.
  function Lossy(s: seq<byte>): string {
    var (text, rest) := Decode(s);
    if rest == [] then text else text + [REPLACEMENT]
  }

  // ----- encoding, the other way round -----

  function Encode(c: char): (s: seq<byte>)
    ensures s != []
  {
    var v := c as int;
    if v < 0x80 then [v]
    else if v < 0x800 then [0xC0 + v / 64, 0x80 + v % 64]
    else if v < 0x10000 then [0xE0 + v / 4096, 0x80 + v / 64 % 64, 0x80 + v % 64]
    else [0xF0 + v / 262144, 0x80 + v / 4096 % 64, 0x80 + v / 64 % 64, 0x80 + v % 64]
  }

  function EncodeAll(text: string): seq<byte> {
    if text == "" then [] else Encode(text[0]) + EncodeAll(text[1..])
  }

  lemma {:induction false} HeadOfEncode(c: char)
    ensures Head(Encode(c)) == Char(c, |Encode(c)|)
  {
    var v := c as int;
    if v < 0x800 {
    } else if v < 0x10000 {
      ThreeBytes(v);
    } else {
      FourBytes(v);
    }
  }

  lemma {:induction false} ThreeBytes(v: int)
    requires 0x800 <= v < 0x10000 && !(0xD800 <= v < 0xE000)
    ensures var a, b, c := 0xE0 + v / 4096, 0x80 + v / 64 % 64, 0x80 + v % 64;
            && 0xE0 <= a <= 0xEF && SecondOf(a, b) && Continues(c)
            && (a - 0xE0) * 4096 + (b - 0x80) * 64 + (c - 0x80) == v
  {
    assert v / 64 == v / 4096 * 64 + v / 64 % 64;
  }

  lemma {:induction false} FourBytes(v: int)
    requires 0x10000 <= v < 0x110000
    ensures var a, b, c, d := 0xF0 + v / 262144, 0x80 + v / 4096 % 64, 0x80 + v / 64 % 64, 0x80 + v % 64;
            && 0xF0 <= a <= 0xF4 && SecondOf(a, b) && Continues(c) && Continues(d)
            && (a - 0xF0) * 262144 + (b - 0x80) * 4096 + (c - 0x80) * 64 + (d - 0x80) == v
  {
    assert v / 4096 == v / 262144 * 64 + v / 4096 % 64;
    assert v / 64 == v / 4096 * 64 + v / 64 % 64;
  }

  lemma {:induction false} HeadEncodes(s: seq<byte>)
    requires s != [] && Head(s).Char?
    ensures Encode(Head(s).c) == s[..Head(s).n]
  {
    var n := Head(s).n;
    if n == 2 {
      Digits(s[0] - 0xC0, s[1] - 0x80);
    } else if n == 3 {
      ThreeEncodes(s[0], s[1], s[2]);
    } else if n == 4 {
      FourEncodes(s[0], s[1], s[2], s[3]);
    }
  }

  lemma {:induction false} Digits(q: nat, r: nat)
    requires r < 64
    ensures (q * 64 + r) / 64 == q && (q * 64 + r) % 64 == r
  {
  }

  lemma {:induction false} ThreeEncodes(a: byte, b: byte, c: byte)
    requires 0xE0 <= a <= 0xEF && SecondOf(a, b) && Continues(c)
    ensures Encode(Three(a, b, c)) == [a, b, c]
  {
    var q := (a - 0xE0) * 64 + (b - 0x80);
    Digits(q, c - 0x80);
    Digits(a - 0xE0, b - 0x80);
    assert (q * 64 + (c - 0x80)) / 4096 == q / 64;
  }

  lemma {:induction false} FourEncodes(a: byte, b: byte, c: byte, d: byte)
    requires 0xF0 <= a <= 0xF4 && SecondOf(a, b) && Continues(c) && Continues(d)
    ensures Encode(Four(a, b, c, d)) == [a, b, c, d]
  {
    var p := (a - 0xF0) * 64 + (b - 0x80);
    var q := p * 64 + (c - 0x80);
    Digits(q, d - 0x80);
    Digits(p, c - 0x80);
    Digits(a - 0xF0, b - 0x80);
    assert (q * 64 + (d - 0x80)) / 4096 == q / 64;
    assert (q * 64 + (d - 0x80)) / 262144 == q / 4096 == p / 64;
  }

  // A character is read exactly where its own encoding stands: no overlong form, no surrogate.
  lemma {:induction false} HeadIffEncoded(s: seq<byte>, c: char)
    requires s != []
    ensures Head(s) == Char(c, |Encode(c)|) <==> Encode(c) <= s
  {
    hide Head, Encode;
    if Encode(c) <= s {
      HeadOfEncode(c);
      HeadOfLonger(Encode(c), s[|Encode(c)|..]);
      assert s == Encode(c) + s[|Encode(c)|..];
    }
    if Head(s) == Char(c, |Encode(c)|) {
      HeadEncodes(s);
    }
  }

  // Encoded text decodes to itself and leaves nothing over.
  lemma {:induction false} DecodeEncoded(text: string)
    ensures Decode(EncodeAll(text)) == (text, [])
  {
    if text != "" {
      hide Head, Encode;
      var first, rest := Encode(text[0]), EncodeAll(text[1..]);
      HeadOfEncode(text[0]);
      HeadOfLonger(first, rest);
      assert (first + rest)[|first|..] == rest;
      DecodeEncoded(text[1..]);
      DecodeFirst(first + rest);
      assert text == [text[0]] + text[1..];
    }
  }

  // ----- character boundaries -----

  // `str::is_char_boundary`.
  predicate Boundary(s: seq<byte>, i: nat) {
    i == 0 || i == |s| || (i < |s| && !Continues(s[i]))
  }

  lemma {:induction false} EncodedBytes(c: char)
    ensures !Continues(Encode(c)[0])
    ensures forall i :: 0 < i < |Encode(c)| ==> Continues(Encode(c)[i])
  {
  }

  lemma {:induction false} EncodedStart(text: string)
    ensures EncodeAll(text) != [] ==> !Continues(EncodeAll(text)[0])
  {
    hide Encode, Continues;
    if text != "" {
      EncodedBytes(text[0]);
    }
  }

  lemma {:induction false} EncodeAllConcat(a: string, b: string)
    ensures EncodeAll(a + b) == EncodeAll(a) + EncodeAll(b)
  {
    hide Encode;
    if a == "" {
      assert a + b == b;
    } else {
      assert (a + b)[1..] == a[1..] + b;
      EncodeAllConcat(a[1..], b);
      Associate(Encode(a[0]), EncodeAll(a[1..]), EncodeAll(b));
    }
  }

  lemma {:induction false} Associate(a: seq<byte>, b: seq<byte>, c: seq<byte>)
    ensures a + (b + c) == (a + b) + c
  {
  }
}
