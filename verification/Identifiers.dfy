/**
 What identifiers look like: operation UUIDs as RFC 9562 writes them, blanks as
 the Unicode property table lists them, and how the token rules compare.
 */
module Identifiers {
  import opened Basics
  import opened Tokens
  import opened Utf8

  // ---------- operation UUIDs ----------

  /** The digit `n`, in lower case. */
  function Digit(n: int): byte
    requires 0 <= n < 16
  {
    "0123456789abcdef"[n] as int
  }

  function Nibble(b: seq<byte>, j: nat): (n: int)
    requires j < 2 * |b|
    ensures 0 <= n < 16
  {
    if j % 2 == 0 then b[j / 2] / 16 else b[j / 2] % 16
  }

  /** Two digits for each byte. */
  function HexText(b: seq<byte>): GoString {
    seq(2 * |b|, j requires 0 <= j < 2 * |b| => Digit(Nibble(b, j)))
  }

  /** The text form of section 4 of RFC 9562: groups of 8, 4, 4, 4 and 12 digits. */
  function UuidText(b: seq<byte>): (s: GoString)
    requires |b| == 16
    ensures |s| == 36
  {
    HexText(b[..4]) + Ascii("-") + HexText(b[4..6]) + Ascii("-") + HexText(b[6..8]) + Ascii("-") + HexText(b[8..10])
    + Ascii("-") + HexText(b[10..])
  }

  /** Hyphens before position `i` of the text. */
  function Hyphens(i: nat): nat {
    if i < 9 then 0 else if i < 14 then 1 else if i < 19 then 2 else if i < 24 then 3 else 4
  }

  /** The position of digit `j` in the text. */
  function Position(j: nat): nat {
    if j < 8 then j else if j < 12 then j + 1 else if j < 16 then j + 2 else if j < 20 then j + 3 else j + 4
  }

  predicate IsHyphen(i: int) {
    i == 8 || i == 13 || i == 18 || i == 23
  }

  lemma PositionInverse(i: nat, j: nat)
    ensures i < 36 && !IsHyphen(i) ==> i - Hyphens(i) < 32 && Position(i - Hyphens(i)) == i
    ensures j < 32 ==> Position(j) < 36 && !IsHyphen(Position(j)) && Position(j) - Hyphens(Position(j)) == j
  {
  }

  lemma NibbleShift(b: seq<byte>, lo: nat, hi: nat, j: nat)
    requires lo <= hi <= |b| && j < 2 * (hi - lo)
    ensures Nibble(b[lo..hi], j) == Nibble(b, 2 * lo + j)
  {
  }

  lemma TextAt(b: seq<byte>, i: nat)
    requires |b| == 16 && i < 36
    ensures UuidText(b)[i] == if IsHyphen(i) then 0x2D else Digit(Nibble(b, i - Hyphens(i)))
  {
    hide Ascii, Digit;
    var dash := Ascii("-");
    assert dash == [0x2D];
    assert b[10..] == b[10..16] && b[..4] == b[0..4];
    if IsHyphen(i) {
    } else if i < 8 {
      NibbleShift(b, 0, 4, i);
    } else if i < 13 {
      NibbleShift(b, 4, 6, i - 9);
    } else if i < 18 {
      NibbleShift(b, 6, 8, i - 14);
    } else if i < 23 {
      NibbleShift(b, 8, 10, i - 19);
    } else {
      NibbleShift(b, 10, 16, i - 24);
    }
  }

  /** The number that a lower-case digit stands for. */
  function DigitOf(b: byte): int {
    if b < 0x61 then b - 0x30 else b - 0x57
  }

  lemma DigitRound(n: int, b: byte)
    ensures 0 <= n < 16 ==> LowerHex(Digit(n)) && (Digit(n) == 0x30 <==> n == 0)
    ensures LowerHex(b) ==> 0 <= DigitOf(b) < 16 && Digit(DigitOf(b)) == b
  {
  }

  /** The bytes that a UUID text spells. */
  function BytesOf(s: GoString): (b: seq<byte>)
    requires OperationId(s)
    ensures |b| == 16
  {
    IdDigits(s);
    seq(16, k requires 0 <= k < 16 => 16 * DigitOf(s[Position(2 * k)]) + DigitOf(s[Position(2 * k + 1)]))
  }

  lemma IdDigits(s: GoString)
    requires OperationId(s)
    ensures |s| == 36
    ensures forall i :: 0 <= i < 36 && IsHyphen(i) ==> s[i] == 0x2D
    ensures forall j: nat :: j < 32 ==> 0 <= DigitOf(s[Position(j)]) < 16
    ensures forall i :: 0 <= i < 36 && !IsHyphen(i) ==> LowerHex(s[i])
  {
    forall j: nat | j < 32
      ensures 0 <= DigitOf(s[Position(j)]) < 16
    {
      PositionInverse(0, j);
      DigitRound(0, s[Position(j)]);
    }
  }

  lemma NibbleOf(s: GoString, j: nat)
    requires OperationId(s) && j < 32
    ensures |s| == 36 && Position(j) < 36 && Nibble(BytesOf(s), j) == DigitOf(s[Position(j)])
  {
    IdDigits(s);
    hide OperationId, DigitOf;
    PositionInverse(0, j);
    assert j == 2 * (j / 2) || j == 2 * (j / 2) + 1;
  }

  lemma IdIsText(s: GoString)
    requires OperationId(s)
    ensures s == UuidText(BytesOf(s))
  {
    IdDigits(s);
    hide OperationId, UuidText, BytesOf, Position, Digit, DigitOf, Hyphens;
    var b := BytesOf(s);
    forall i | 0 <= i < 36
      ensures s[i] == UuidText(b)[i]
    {
      TextAt(b, i);
      if !IsHyphen(i) {
        PositionInverse(i, 0);
        NibbleOf(s, i - Hyphens(i));
        DigitRound(0, s[i]);
      }
    }
  }

  /** The identifiers accepted are exactly the texts of sixteen bytes that are not all zero. */
  lemma OperationIdMeaning(s: GoString)
    ensures OperationId(s)
            <==> exists b: seq<byte> :: |b| == 16 && (exists k :: 0 <= k < 16 && b[k] != 0) && s == UuidText(b)
  {
    if OperationId(s) {
      IdIsText(s);
      IdIsNotNil(s);
    }
    forall b: seq<byte>, k | |b| == 16 && 0 <= k < 16 && b[k] != 0 && s == UuidText(b)
      ensures OperationId(s)
    {
      TextIsId(b, k);
    }
  }

  lemma IdIsNotNil(s: GoString)
    requires OperationId(s)
    ensures exists k :: 0 <= k < 16 && BytesOf(s)[k] != 0
  {
    IdDigits(s);
    var i :| 0 <= i < 36 && s[i] != 0x2D && s[i] != 0x30;
    PositionInverse(i, 0);
    NibbleOf(s, i - Hyphens(i));
    DigitRound(0, s[i]);
    assert BytesOf(s)[(i - Hyphens(i)) / 2] != 0;
  }

  lemma TextIsId(b: seq<byte>, k: nat)
    requires |b| == 16 && k < 16 && b[k] != 0
    ensures OperationId(UuidText(b))
  {
    var s := UuidText(b);
    hide UuidText, Digit;
    forall i | 0 <= i < 36
      ensures if i in {8, 13, 18, 23} then s[i] == 0x2D else LowerHex(s[i])
    {
      TextAt(b, i);
      if !IsHyphen(i) {
        PositionInverse(i, 0);
        DigitRound(Nibble(b, i - Hyphens(i)), 0);
      }
    }
    var j := if b[k] / 16 != 0 then 2 * k else 2 * k + 1;
    PositionInverse(0, j);
    TextAt(b, Position(j));
    DigitRound(Nibble(b, j), 0);
    assert s[Position(j)] != 0x30 && s[Position(j)] != 0x2D;
  }

  // ---------- blanks and tokens ----------

  /** The code points with the property White_Space. */
  const WHITE_SPACE: set<int> := {
    0x09, 0x0A, 0x0B, 0x0C, 0x0D, 0x20, 0x85, 0xA0, 0x1680, 0x2000, 0x2001, 0x2002, 0x2003, 0x2004, 0x2005, 0x2006,
    0x2007, 0x2008, 0x2009, 0x200A, 0x2028, 0x2029, 0x202F, 0x205F, 0x3000
  }

  lemma BlanksMeaning(r: rune)
    ensures IsSpace(r) <==> r in WHITE_SPACE
    ensures IsControl(r) <==> 0 <= r <= 0x1F || 0x7F <= r <= 0x9F
  {
  }

  /** Some character of `s` satisfies neither rule of a grant token: a control character, or the route arrow. */
  predicate Odd(s: GoString) {
    exists i :: 0 <= i < |Runes(s)| && (IsControl(Runes(s)[i]) || Runes(s)[i] == 0x2192)
  }

  /** Some character of `s` is DEL or a C1 control character. */
  predicate LateControl(s: GoString) {
    exists i :: 0 <= i < |Runes(s)| && 0x7F <= Runes(s)[i] <= 0x9F
  }

  /** An ASCII byte of a string is one of its characters. */
  lemma {:induction false} AsciiSeen(s: GoString, i: nat)
    requires i < |s| && s[i] < 0x80
    ensures s[i] in Runes(s)
    decreases |s|
  {
    hide EncodeRune;
    if i == 0 {
      DecodeAscii(s);
    } else {
      match DecodeRune(s)
      case Some(r) =>
        var n := |EncodeRune(r)|;
        LeadingBytes(s);
        AsciiSeen(s[n..], i - n);
      case None =>
        AsciiSeen(s[1..], i - 1);
    }
  }

  lemma DecodeAscii(s: GoString)
    requires s != [] && s[0] < 0x80
    ensures DecodeRune(s) == Some(s[0]) && Runes(s)[0] == s[0]
  {
  }

  lemma LeadingBytes(s: GoString)
    requires s != [] && DecodeRune(s).Some?
    ensures forall i :: 0 < i < |EncodeRune(DecodeRune(s).value)| ==> s[i] >= 0x80
  {
    DecodedPrefix(s);
  }

  /**
   The three token rules compared: grant tokens are the replay tokens without late
   control characters, and the shorter ones are the context tokens without control
   characters and arrows.
   */
  lemma TokenRules(s: GoString)
    ensures GrantToken(s, 256) <==> ReplayToken(s) && !LateControl(s)
    ensures GrantToken(s, 128) <==> ContextToken(s) && !Odd(s)
    ensures ContextToken(s)
            <==> && 1 <= |s| <= 128 && Trimmed(s)
                 && forall b :: b in s ==> b != '\t' as int && b != '\n' as int && b != '\r' as int
    ensures ReplayToken(s) ==> 1 <= |s| <= 256 && Trimmed(s)
  {
    hide Runes, IsSpace;
    if !Odd(s) {
      forall i | 0 <= i < |s|
        ensures s[i] !in {0x09, 0x0A, 0x0D}
      {
        if s[i] < 0x80 {
          AsciiSeen(s, i);
          var k :| 0 <= k < |Runes(s)| && Runes(s)[k] == s[i];
          assert !IsControl(Runes(s)[k]);
        }
      }
    }
  }
}
