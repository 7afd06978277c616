/**
 UTF-8 as Go's `unicode/utf8` reads it, and the UTF-16 code units of a rune.
 */
module Utf8 {
  import opened Basics

  /** A Unicode scalar value. */
  type rune = r: int | 0 <= r < 0xD800 || 0xE000 <= r < 0x11_0000

  const REPLACEMENT: rune := 0xFFFD

  predicate Continuation(b: byte) {
    0x80 <= b < 0xC0
  }

  /** The six payload bits of a continuation byte. */
  function Low(b: byte): int {
    b - 0x80
  }

  function EncodeRune(r: rune): (s: GoString)
    ensures 1 <= |s| <= 4
  {
    if r < 0x80 then [r]
    else if r < 0x800 then [0xC0 + r / 0x40, 0x80 + r % 0x40]
    else if r < 0x1_0000 then [0xE0 + r / 0x1000, 0x80 + r / 0x40 % 0x40, 0x80 + r % 0x40]
    else [0xF0 + r / 0x4_0000, 0x80 + r / 0x1000 % 0x40, 0x80 + r / 0x40 % 0x40, 0x80 + r % 0x40]
  }

  /** The rune at the front of `s`, or None where Go yields U+FFFD of width one. */
  function DecodeRune(s: GoString): (r: Option<rune>)
    requires s != []
    ensures r.Some? ==> |EncodeRune(r.value)| <= |s|
  {
    var b: int := s[0];
    if b < 0x80 then Some(b)
    else if 0xC2 <= b < 0xE0 && |s| >= 2 && Continuation(s[1]) then
      Some((b - 0xC0) * 0x40 + Low(s[1]))
    else if 0xE0 <= b < 0xF0 && |s| >= 3 && Continuation(s[1]) && Continuation(s[2])
            && (b == 0xE0 ==> s[1] >= 0xA0) && (b == 0xED ==> s[1] < 0xA0) then
      Some((b - 0xE0) * 0x1000 + Low(s[1]) * 0x40 + Low(s[2]))
    else if 0xF0 <= b < 0xF5 && |s| >= 4 && Continuation(s[1]) && Continuation(s[2]) && Continuation(s[3])
            && (b == 0xF0 ==> s[1] >= 0x90) && (b == 0xF4 ==> s[1] < 0x90) then
      Some((b - 0xF0) * 0x4_0000 + Low(s[1]) * 0x1000 + Low(s[2]) * 0x40 + Low(s[3]))
    else None
  }

  /** Decoding reads back one encoded rune, whatever follows it. */
  lemma DecodeEncoded(r: rune, rest: GoString)
    ensures DecodeRune(EncodeRune(r) + rest) == Some(r)
  {
    var e := EncodeRune(r);
    var s := e + rest;
    assert forall i :: 0 <= i < |e| ==> s[i] == e[i];
    if r < 0x80 {
    } else if r < 0x800 {
      assert 2 <= r / 0x40 < 0x20;
    } else if r < 0x1_0000 {
      var m := r / 0x40;
      assert r / 0x1000 == m / 0x40;
      assert m == m / 0x40 * 0x40 + m % 0x40;
    } else {
      var m := r / 0x40;
      var l := r / 0x1000;
      assert l == m / 0x40 && r / 0x4_0000 == l / 0x40;
      assert m == l * 0x40 + m % 0x40 && l == l / 0x40 * 0x40 + l % 0x40;
    }
  }

  /** Decoding accepts only the encoding of the rune it returns: no overlong form, no surrogate. */
  lemma DecodedPrefix(s: GoString)
    requires s != [] && DecodeRune(s).Some?
    ensures s == EncodeRune(DecodeRune(s).value) + s[|EncodeRune(DecodeRune(s).value)|..]
  {
    var r: int := DecodeRune(s).value;
    var b: int := s[0];
    if b < 0x80 {
    } else if b < 0xE0 {
      assert s[..2] == EncodeRune(r);
    } else if b < 0xF0 {
      Sextets(0, b - 0xE0, Low(s[1]), Low(s[2]));
      assert s[..3] == EncodeRune(r);
    } else {
      Sextets(b - 0xF0, Low(s[1]), Low(s[2]), Low(s[3]));
      assert s[..4] == EncodeRune(r);
    }
  }

  /** The six-bit groups of a code point are recovered by division. */
  lemma Sextets(a: nat, b: nat, c: nat, d: nat)
    requires b < 0x40 && c < 0x40 && d < 0x40
    ensures var r := a * 0x4_0000 + b * 0x1000 + c * 0x40 + d;
            r % 0x40 == d && r / 0x40 % 0x40 == c && r / 0x1000 == a * 0x40 + b
            && r / 0x1000 % 0x40 == b && r / 0x4_0000 == a
  {
    var r := a * 0x4_0000 + b * 0x1000 + c * 0x40 + d;
    assert r / 0x40 == a * 0x1000 + b * 0x40 + c;
    assert r / 0x1000 == a * 0x40 + b;
  }

  /** `[]rune(s)`: each undecodable byte becomes U+FFFD. */
  function Runes(s: GoString): seq<rune> {
    if s == [] then []
    else match DecodeRune(s)
      case Some(r) => [r] + Runes(s[|EncodeRune(r)|..])
      case None => [REPLACEMENT] + Runes(s[1..])
  }

  predicate Valid(s: GoString) {
    s == [] || match DecodeRune(s)
               case Some(r) => Valid(s[|EncodeRune(r)|..])
               case None => false
  }

  function Encode(rs: seq<rune>): GoString {
    if rs == [] then [] else EncodeRune(rs[0]) + Encode(rs[1..])
  }

  lemma {:induction false} EncodeRunes(s: GoString)
    requires Valid(s)
    ensures Encode(Runes(s)) == s
  {
    if s != [] {
      DecodedPrefix(s);
      var n := |EncodeRune(DecodeRune(s).value)|;
      EncodeRunes(s[n..]);
      assert Runes(s)[1..] == Runes(s[n..]);
    }
  }

  lemma {:induction false} RunesEncoded(rs: seq<rune>)
    ensures Valid(Encode(rs)) && Runes(Encode(rs)) == rs
  {
    if rs != [] {
      DecodeEncoded(rs[0], Encode(rs[1..]));
      assert Encode(rs)[|EncodeRune(rs[0])|..] == Encode(rs[1..]);
      RunesEncoded(rs[1..]);
    }
  }

  lemma {:induction false} AsciiValid(s: GoString)
    requires forall i :: 0 <= i < |s| ==> s[i] < 0x80
    ensures Valid(s) && Runes(s) == s
  {
    if s != [] {
      AsciiValid(s[1..]);
      assert Runes(s) == [s[0]] + Runes(s[1..]);
    }
  }

  /** The UTF-16 code units of one rune, as `utf16.Encode` produces them. */
  function Units(r: rune): (us: seq<int>)
    ensures 1 <= |us| <= 2
  {
    if r < 0x1_0000 then [r]
    else [0xD800 + (r - 0x1_0000) / 0x400, 0xDC00 + (r - 0x1_0000) % 0x400]
  }

  function Utf16(rs: seq<rune>): seq<int> {
    if rs == [] then [] else Units(rs[0]) + Utf16(rs[1..])
  }

  /** UTF-16 is self-synchronising: equal code units come from equal runes. */
  lemma {:induction false} Utf16Injective(a: seq<rune>, b: seq<rune>)
    requires Utf16(a) == Utf16(b)
    ensures a == b
  {
    if a == [] || b == [] {
    } else {
      var ua, ub := Units(a[0]), Units(b[0]);
      assert ua[0] == Utf16(a)[0] == Utf16(b)[0] == ub[0];
      assert |ua| == |ub|;
      if |ua| == 2 {
        assert ua[1] == Utf16(a)[1] == Utf16(b)[1] == ub[1];
      }
      assert a[0] == b[0];
      assert Utf16(a[1..]) == Utf16(a)[|ua|..] == Utf16(b)[|ub|..] == Utf16(b[1..]);
      Utf16Injective(a[1..], b[1..]);
      assert a == [a[0]] + a[1..] && b == [b[0]] + b[1..];
    }
  }
}
