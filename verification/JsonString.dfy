/**
 JSON strings: the shortest escaping of section 3.2.2.2 of RFC 8785, the strict
 scanner that runs before decoding, and the decoder's own lenient reading.
 */
module JsonString {
  import opened Basics
  import opened Utf8

  const QUOTE: byte := 0x22
  const BACKSLASH: byte := 0x5C
  const LETTER_U: byte := 0x75

  // ---------- printing ----------

  function HexDigit(d: int): byte
    requires 0 <= d < 16
  {
    if d < 10 then 0x30 + d else 0x61 + (d - 10)
  }

  /** The letter of the two-character escape for `r`, if it has one. */
  function ShortEscape(r: rune): Option<byte> {
    if r == 0x22 || r == 0x5C then Some(r)
    else if r == 0x08 then Some('b' as int)
    else if r == 0x0C then Some('f' as int)
    else if r == 0x0A then Some('n' as int)
    else if r == 0x0D then Some('r' as int)
    else if r == 0x09 then Some('t' as int)
    else None
  }

  function EscapeRune(r: rune): (s: GoString)
    ensures s != []
  {
    if ShortEscape(r).Some? then [BACKSLASH, ShortEscape(r).value]
    else if r < 0x20 then [BACKSLASH, LETTER_U, 0x30, 0x30, HexDigit(r / 0x10), HexDigit(r % 0x10)]
    else EncodeRune(r)
  }

  function EscapeAll(rs: seq<rune>): GoString {
    if rs == [] then [] else EscapeRune(rs[0]) + EscapeAll(rs[1..])
  }

  function Quote(s: GoString): Result<GoString> {
    if !Valid(s) then Err(InvalidUtf8)
    else Ok([QUOTE] + EscapeAll(Runes(s)) + [QUOTE])
  }

  lemma {:induction false} EscapeAllAppend(rs: seq<rune>, r: rune)
    ensures EscapeAll(rs + [r]) == EscapeAll(rs) + EscapeRune(r)
  {
    if rs == [] {
      assert [r][1..] == [];
    } else {
      EscapeAllAppend(rs[1..], r);
      assert (rs + [r])[1..] == rs[1..] + [r];
    }
  }

  /** Writes one character behind `buffer`. */
  method WriteEscaped(buffer: GoString, r: rune) returns (out: GoString)
    ensures out == buffer + EscapeRune(r)
  {
    hide EncodeRune, HexDigit, ShortEscape;
    var mark := ShortEscape(r);
    if mark.Some? {
      return buffer + [BACKSLASH, mark.value];
    }
    if r < 0x20 {
      return buffer + [BACKSLASH, LETTER_U, 0x30, 0x30, HexDigit(r / 0x10), HexDigit(r % 0x10)];
    }
    return buffer + EncodeRune(r);
  }

  method CanonicalString(value: GoString) returns (result: Result<GoString>)
    ensures result == Quote(value)
  {
    hide EscapeAll, EscapeRune, Valid, Runes;
    if !Valid(value) {
      return Err(InvalidUtf8);
    }
    var runes := Runes(value);
    var buffer := [QUOTE];
    assert runes[..0] == [];
    NothingEscaped();
    for i := 0 to |runes|
      invariant buffer == [QUOTE] + EscapeAll(runes[..i])
    {
      EscapeAllAppend(runes[..i], runes[i]);
      assert runes[..i] + [runes[i]] == runes[..i + 1];
      var out := WriteEscaped(buffer, runes[i]);
      assert out == [QUOTE] + (EscapeAll(runes[..i]) + EscapeRune(runes[i]));
      buffer := out;
    }
    assert runes[..|runes|] == runes;
    return Ok(buffer + [QUOTE]);
  }

  lemma NothingEscaped()
    ensures EscapeAll([]) == []
  {
  }

  // ---------- text that needs no escape ----------

  predicate PlainByte(b: byte) {
    0x20 <= b < 0x7F && b != QUOTE && b != BACKSLASH
  }

  /** Printable ASCII that needs no escape. */
  predicate PlainText(s: GoString) {
    forall i :: 0 <= i < |s| ==> PlainByte(s[i])
  }

  lemma {:induction false} PlainEscapes(s: GoString)
    requires PlainText(s)
    ensures EscapeAll(s) == s
  {
    if s != [] {
      PlainEscapes(s[1..]);
      assert PlainByte(s[0]);
      assert EscapeRune(s[0]) == [s[0]];
      assert s == [s[0]] + s[1..];
    }
  }

  lemma PlainQuotes(s: GoString)
    requires PlainText(s)
    ensures Valid(s) && Quote(s) == Ok([QUOTE] + s + [QUOTE])
  {
    assert forall i :: 0 <= i < |s| ==> PlainByte(s[i]);
    AsciiValid(s);
    PlainEscapes(s);
    hide EscapeAll, Runes, Valid;
  }

  // ---------- the strict scanner ----------

  function HexValue(b: byte): Option<int> {
    if '0' as int <= b <= '9' as int then Some(b - '0' as int)
    else if 'a' as int <= b <= 'f' as int then Some(b - 'a' as int + 10)
    else if 'A' as int <= b <= 'F' as int then Some(b - 'A' as int + 10)
    else None
  }

  predicate IsHex(s: GoString) {
    forall i :: 0 <= i < |s| ==> HexValue(s[i]).Some?
  }

  /** The number that hexadecimal digits spell. */
  function HexNat(s: GoString): (u: nat)
    requires IsHex(s)
  {
    if s == [] then 0
    else
      HexRange(s);
      0x10 * HexNat(s[..|s| - 1]) + HexValue(s[|s| - 1]).value
  }

  lemma HexRange(s: GoString)
    requires IsHex(s) && s != []
    ensures 0 <= HexValue(s[|s| - 1]).value < 16
  {
  }

  predicate IsHigh(u: int) {
    0xD800 <= u < 0xDC00
  }

  predicate IsLow(u: int) {
    0xDC00 <= u < 0xE000
  }

  predicate IsMark(b: byte) {
    b == QUOTE || b == BACKSLASH || b == '/' as int || b == 'b' as int || b == 'f' as int
    || b == 'n' as int || b == 'r' as int || b == 't' as int
  }

  /** `\uXXXX` at the front of `s`. */
  predicate StartsUnit(s: GoString) {
    |s| >= 6 && s[0] == BACKSLASH && s[1] == LETTER_U && IsHex(s[2..6])
  }

  function UnitAt(s: GoString): nat
    requires StartsUnit(s)
  {
    HexNat(s[2..6])
  }

  /** What follows the closing quote of the string body `s`, if the body is acceptable. */
  function ScanBody(s: GoString): (rest: Option<GoString>)
    ensures rest.Some? ==> |rest.value| < |s|
  {
    if s == [] then None
    else if s[0] == QUOTE then Some(s[1..])
    else if s[0] == BACKSLASH then
      if |s| < 2 then None
      else if s[1] != LETTER_U then (if IsMark(s[1]) then ScanBody(s[2..]) else None)
      else if !StartsUnit(s) then None
      else if IsHigh(UnitAt(s)) then
        if StartsUnit(s[6..]) && IsLow(UnitAt(s[6..])) then ScanBody(s[12..]) else None
      else if IsLow(UnitAt(s)) then None
      else ScanBody(s[6..])
    else if s[0] < 0x20 then None
    else match DecodeRune(s)
      case None => None
      case Some(r) => ScanBody(s[|EncodeRune(r)|..])
  }

  /** Reads the four digits of an escape whose `u` stands at `i`. */
  method ReadUnicodeEscape(data: GoString, i: nat) returns (r: Option<(nat, nat)>)
    requires 0 < i < |data| && data[i - 1] == BACKSLASH && data[i] == LETTER_U
    ensures r.Some? <==> StartsUnit(data[i - 1..])
    ensures r.Some? ==> r.value == (UnitAt(data[i - 1..]), i + 5)
  {
    if i + 5 > |data| {
      return None;
    }
    var digits := data[i + 1..i + 5];
    assert data[i - 1..][2..6] == digits;
    var code := 0;
    for k := 0 to 4
      invariant IsHex(digits[..k]) && code == HexNat(digits[..k])
    {
      assert digits[..k + 1][..k] == digits[..k];
      var v := HexValue(digits[k]);
      if v.None? {
        return None;
      }
      HexRange(digits[..k + 1]);
      code := 0x10 * code + v.value;
    }
    assert digits[..4] == digits;
    return Some((code, i + 5));
  }

  /** The escape at `i`: where it ends, or None if the scanner refuses it. */
  method ValidateEscape(data: GoString, i: nat) returns (r: Option<nat>)
    requires i < |data| && data[i] == BACKSLASH
    ensures r.Some? ==> i < r.value <= |data| && ScanBody(data[i..]) == ScanBody(data[r.value..])
    ensures r.None? ==> ScanBody(data[i..]).None?
  {
    ghost var s := data[i..];
    if i + 1 >= |data| {
      return None;
    }
    if data[i + 1] != LETTER_U {
      assert s[2..] == data[i + 2..];
      return if IsMark(data[i + 1]) then Some(i + 2) else None;
    }
    var code := ReadUnicodeEscape(data, i + 1);
    if code.None? {
      return None;
    }
    assert s[6..] == data[i + 6..];
    if IsHigh(code.value.0) {
      if i + 8 > |data| || data[i + 6] != BACKSLASH || data[i + 7] != LETTER_U {
        return None;
      }
      var low := ReadUnicodeEscape(data, i + 7);
      if low.None? || !IsLow(low.value.0) {
        return None;
      }
      assert s[12..] == data[i + 12..];
      return Some(i + 12);
    }
    return if IsLow(code.value.0) then None else Some(i + 6);
  }

  /** What the scanner makes of a body that starts with neither quote nor backslash. */
  lemma ScanPlain(s: GoString)
    requires s != [] && s[0] != QUOTE && s[0] != BACKSLASH
    ensures s[0] < 0x20 || DecodeRune(s).None? ==> ScanBody(s).None?
    ensures s[0] >= 0x20 && DecodeRune(s).Some? ==>
              |EncodeRune(DecodeRune(s).value)| <= |s|
              && ScanBody(s) == ScanBody(s[|EncodeRune(DecodeRune(s).value)|..])
  {
    hide EncodeRune, StartsUnit, UnitAt;
  }

  /** Scans the string whose opening quote stands at `start`; the result is the index past its closing quote. */
  method ValidateJSONString(data: GoString, start: nat) returns (r: Result<nat>)
    requires start < |data| && data[start] == QUOTE
    ensures r.Ok? ==> start + 1 < r.value <= |data| && ScanBody(data[start + 1..]) == Some(data[r.value..])
    ensures r.Err? ==> ScanBody(data[start + 1..]).None?
  {
    hide ScanBody, DecodeRune, EncodeRune;
    var i := start + 1;
    while i < |data|
      invariant start + 1 <= i <= |data|
      invariant ScanBody(data[start + 1..]) == ScanBody(data[i..])
    {
      ghost var s := data[i..];
      if data[i] == QUOTE {
        assert s[1..] == data[i + 1..];
        ScanQuote(s);
        return Ok(i + 1);
      } else if data[i] == BACKSLASH {
        var next := ValidateEscape(data, i);
        if next.None? {
          return Err(InvalidString);
        }
        i := next.value;
      } else {
        ScanPlain(s);
        if data[i] < 0x20 {
          return Err(InvalidString);
        }
        var r := DecodeRune(data[i..]);
        if r.None? {
          return Err(InvalidString);
        }
        var size := |EncodeRune(r.value)|;
        assert s[size..] == data[i + size..];
        i := i + size;
      }
    }
    ScanNothing(data[i..]);
    return Err(InvalidString);
  }

  lemma ScanQuote(s: GoString)
    requires s != [] && s[0] == QUOTE
    ensures ScanBody(s) == Some(s[1..])
  {
  }

  lemma ScanNothing(s: GoString)
    requires s == []
    ensures ScanBody(s).None?
  {
  }

  /** Every quote outside a string opens an acceptable string. */
  predicate ScanAll(s: GoString)
    decreases |s|
  {
    s == [] ||
    if s[0] != QUOTE then ScanAll(s[1..])
    else match ScanBody(s[1..])
         case None => false
         case Some(rest) => ScanAll(rest)
  }

  method ValidateJSONStrings(data: GoString) returns (ok: bool)
    ensures ok == ScanAll(data)
  {
    var i := 0;
    assert data[0..] == data;
    while i < |data|
      invariant 0 <= i <= |data|
      invariant ScanAll(data) == ScanAll(data[i..])
      decreases |data| - i
    {
      assert data[i..][1..] == data[i + 1..];
      if data[i] != QUOTE {
        i := i + 1;
      } else {
        var next := ValidateJSONString(data, i);
        if next.Err? {
          return false;
        }
        i := next.value;
      }
    }
    return true;
  }

  // ---------- the reference grammar ----------

  /** One character of a string as section 7 of RFC 8259 writes it, surrogates paired. */
  datatype Piece =
    | Plain(r: rune)
    | Short(mark: byte)
    | Unit(hex: GoString)
    | Pair(high: GoString, low: GoString)
  {
    predicate WellFormed() {
      match this
      case Plain(r) => r >= 0x20 && r != QUOTE && r != BACKSLASH
      case Short(mark) => IsMark(mark)
      case Unit(hex) => |hex| == 4 && IsHex(hex) && !IsHigh(HexNat(hex)) && !IsLow(HexNat(hex))
      case Pair(high, low) =>
        && |high| == 4 && IsHex(high) && IsHigh(HexNat(high))
        && |low| == 4 && IsHex(low) && IsLow(HexNat(low))
    }

    function Text(): (s: GoString)
    {
      match this
      case Plain(r) => EncodeRune(r)
      case Short(mark) => [BACKSLASH, mark]
      case Unit(hex) => [BACKSLASH, LETTER_U] + hex
      case Pair(high, low) => [BACKSLASH, LETTER_U] + high + [BACKSLASH, LETTER_U] + low
    }

    /** The character that the piece stands for. */
    function Value(): rune
      requires WellFormed()
    {
      match this
      case Plain(r) => r
      case Short(mark) => MarkValue(mark)
      case Unit(hex) =>
        HexBound(hex);
        HexNat(hex)
      case Pair(high, low) => Combine(HexNat(high), HexNat(low))
    }
  }

  lemma {:induction false} HexBound(s: GoString)
    requires IsHex(s) && |s| == 4
    ensures HexNat(s) < 0x1_0000
  {
    HexStep(s);
    HexStep(s[..3]);
    HexStep(s[..3][..2]);
    HexStep(s[..3][..2][..1]);
  }

  lemma HexStep(s: GoString)
    requires IsHex(s) && s != []
    ensures HexNat(s) == 0x10 * HexNat(s[..|s| - 1]) + HexValue(s[|s| - 1]).value
    ensures 0 <= HexValue(s[|s| - 1]).value < 16
    ensures |s| == 1 ==> HexNat(s[..|s| - 1]) == 0
  {
    HexRange(s);
  }

  function MarkValue(mark: byte): rune
    requires IsMark(mark)
  {
    if mark == 'b' as int then 0x08
    else if mark == 'f' as int then 0x0C
    else if mark == 'n' as int then 0x0A
    else if mark == 'r' as int then 0x0D
    else if mark == 't' as int then 0x09
    else mark
  }

  /** The code point of a surrogate pair. */
  function Combine(high: nat, low: nat): rune
    requires IsHigh(high) && IsLow(low)
  {
    0x1_0000 + (high - 0xD800) * 0x400 + (low - 0xDC00)
  }

  predicate AllWellFormed(ps: seq<Piece>) {
    forall i :: 0 <= i < |ps| ==> ps[i].WellFormed()
  }

  function Texts(ps: seq<Piece>): GoString {
    if ps == [] then [] else ps[0].Text() + Texts(ps[1..])
  }

  function Values(ps: seq<Piece>): seq<rune>
    requires AllWellFormed(ps)
  {
    if ps == [] then [] else [ps[0].Value()] + Values(ps[1..])
  }

  // ---------- the decoder's reading ----------

  /**
   The characters of the string body `s` and what follows its closing quote.
   The decoder of `encoding/json` puts U+FFFD for undecodable bytes and lone
   surrogates; with `strict` such a body is refused instead.
   */
  function ReadBody(s: GoString, strict: bool): (r: Option<(seq<rune>, GoString)>)
    ensures r.Some? ==> |r.value.1| < |s|
  {
    if s == [] then None
    else if s[0] == QUOTE then Some(([], s[1..]))
    else if s[0] == BACKSLASH then
      if |s| < 2 then None
      else if s[1] != LETTER_U then
        (if IsMark(s[1]) then Cons(MarkValue(s[1]), ReadBody(s[2..], strict)) else None)
      else if !StartsUnit(s) then None
      else if IsHigh(UnitAt(s)) && StartsUnit(s[6..]) && IsLow(UnitAt(s[6..])) then
        Cons(Combine(UnitAt(s), UnitAt(s[6..])), ReadBody(s[12..], strict))
      else if IsHigh(UnitAt(s)) || IsLow(UnitAt(s)) then
        (if strict then None else Cons(REPLACEMENT, ReadBody(s[6..], strict)))
      else
        HexBound(s[2..6]);
        Cons(UnitAt(s), ReadBody(s[6..], strict))
    else if s[0] < 0x20 then None
    else match DecodeRune(s)
      case Some(r) => Cons(r, ReadBody(s[|EncodeRune(r)|..], strict))
      case None => if strict then None else Cons(REPLACEMENT, ReadBody(s[1..], strict))
  }

  function Cons(r: rune, tail: Option<(seq<rune>, GoString)>): Option<(seq<rune>, GoString)> {
    match tail
    case None => None
    case Some((rs, rest)) => Some(([r] + rs, rest))
  }

  /** The scanner accepts exactly the strings that read without substitution. */
  lemma {:induction false} ScanIsStrictReading(s: GoString)
    ensures ScanBody(s) == match ReadBody(s, true) case None => None case Some((_, rest)) => Some(rest)
    decreases |s|
  {
    hide EncodeRune, HexNat, IsHex, IsMark, MarkValue, Combine;
    if s != [] && s[0] != QUOTE {
      if s[0] == BACKSLASH {
        if |s| >= 2 && s[1] != LETTER_U {
          ScanIsStrictReading(s[2..]);
        } else if StartsUnit(s) {
          ScanIsStrictReading(s[6..]);
          if StartsUnit(s[6..]) {
            ScanIsStrictReading(s[12..]);
          }
        }
      } else if DecodeRune(s).Some? {
        ScanIsStrictReading(s[|EncodeRune(DecodeRune(s).value)|..]);
      }
    }
  }

  /** Where the scanner accepts, the decoder substitutes nothing. */
  lemma {:induction false} NoSubstitution(s: GoString)
    requires ScanBody(s).Some?
    ensures ReadBody(s, false) == ReadBody(s, true)
    decreases |s|
  {
    hide EncodeRune, HexNat, IsHex, IsMark, MarkValue, Combine;
    if s[0] != QUOTE {
      if s[0] == BACKSLASH {
        if s[1] != LETTER_U {
          NoSubstitution(s[2..]);
        } else if IsHigh(UnitAt(s)) {
          NoSubstitution(s[12..]);
        } else {
          NoSubstitution(s[6..]);
        }
      } else {
        NoSubstitution(s[|EncodeRune(DecodeRune(s).value)|..]);
      }
    }
  }

  lemma UnitText(hex: GoString, tail: GoString)
    requires |hex| == 4
    ensures var s := [BACKSLASH, LETTER_U] + hex + tail;
            && s[0] == BACKSLASH && s[1] == LETTER_U && |s| >= 6 && s[2..6] == hex && s[6..] == tail
  {
  }

  lemma PairText(high: GoString, low: GoString, tail: GoString)
    requires |high| == |low| == 4
    ensures var s := [BACKSLASH, LETTER_U] + high + [BACKSLASH, LETTER_U] + low + tail;
            && s == [BACKSLASH, LETTER_U] + high + ([BACKSLASH, LETTER_U] + low + tail)
            && s[12..] == tail
  {
  }

  /** Reading takes one piece off the front. */
  lemma ReadPiece(p: Piece, tail: GoString, strict: bool)
    requires p.WellFormed()
    ensures ReadBody(p.Text() + tail, strict) == Cons(p.Value(), ReadBody(tail, strict))
  {
    hide HexNat, IsHex, MarkValue, Combine;
    var s := p.Text() + tail;
    match p
    case Plain(r) =>
      DecodeEncoded(r, tail);
      assert s[|EncodeRune(r)|..] == tail;
      assert r < 0x80 ==> s[0] == r;
      assert r >= 0x80 ==> s[0] >= 0x80;
    case Short(mark) =>
      assert s[2..] == tail;
      assert mark != LETTER_U;
    case Unit(hex) =>
      UnitText(hex, tail);
    case Pair(high, low) =>
      PairText(high, low, tail);
      UnitText(high, [BACKSLASH, LETTER_U] + low + tail);
      UnitText(low, tail);
  }

  /** A well-formed body reads as its characters, strictly or not. */
  lemma {:induction false} ReadPieces(ps: seq<Piece>, rest: GoString, strict: bool)
    requires AllWellFormed(ps)
    ensures ReadBody(Texts(ps) + [QUOTE] + rest, strict) == Some((Values(ps), rest))
  {
    if ps == [] {
      assert [] + [QUOTE] + rest == [QUOTE] + rest;
      assert ([QUOTE] + rest)[1..] == rest;
    } else {
      hide ReadBody;
      ReadPieces(ps[1..], rest, strict);
      var tail := Texts(ps[1..]) + [QUOTE] + rest;
      ReadPiece(ps[0], tail, strict);
      assert Texts(ps) + [QUOTE] + rest == ps[0].Text() + tail;
    }
  }

  /** The piece at the front of a body that reads strictly. */
  function FirstPiece(s: GoString): (p: Piece)
    requires ReadBody(s, true).Some? && s[0] != QUOTE
    ensures p.WellFormed() && p.Text() <= s
    ensures ReadBody(s[|p.Text()|..], true).Some?
  {
    hide HexNat, IsHex, MarkValue, Combine;
    if s[0] == BACKSLASH then
      if s[1] != LETTER_U then Short(s[1])
      else if IsHigh(UnitAt(s)) then
        assert s[6..][2..6] == s[8..12] && s[6..][0] == BACKSLASH && s[6..][1] == LETTER_U;
        assert s[..12] == [BACKSLASH, LETTER_U] + s[2..6] + [BACKSLASH, LETTER_U] + s[8..12];
        Pair(s[2..6], s[8..12])
      else
        assert s[..6] == [BACKSLASH, LETTER_U] + s[2..6];
        Unit(s[2..6])
    else
      DecodedPrefix(s);
      Plain(DecodeRune(s).value)
  }

  lemma TextsCons(p: Piece, ps: seq<Piece>, rest: GoString)
    ensures Texts([p] + ps) + [QUOTE] + rest == p.Text() + (Texts(ps) + [QUOTE] + rest)
  {
    assert ([p] + ps)[1..] == ps;
  }

  /** The pieces of a body that reads strictly. */
  function Pieces(s: GoString): (ps: seq<Piece>)
    requires ReadBody(s, true).Some?
    ensures AllWellFormed(ps)
    ensures s == Texts(ps) + [QUOTE] + ReadBody(s, true).value.1
    decreases |s|
  {
    if s[0] == QUOTE then
      assert s == [] + [QUOTE] + s[1..];
      []
    else
      var p := FirstPiece(s);
      var tail := s[|p.Text()|..];
      assert |p.Text()| > 0 by {
        if p.Plain? {
          assert |EncodeRune(p.r)| > 0;
        }
      }
      assert s == p.Text() + tail;
      ReadPiece(p, tail, true);
      var ps := Pieces(tail);
      TextsCons(p, ps, ReadBody(tail, true).value.1);
      [p] + ps
  }

  /**
   The scanner accepts exactly the bodies of the reference grammar, stops just
   past the closing quote, and the decoder then reads the characters that the
   grammar gives the body.
   */
  lemma ScannerGrammar(s: GoString, rest: GoString)
    ensures ScanBody(s) == Some(rest)
            <==> exists ps: seq<Piece> :: AllWellFormed(ps) && s == Texts(ps) + [QUOTE] + rest
    ensures forall ps: seq<Piece> ::
              (AllWellFormed(ps) && s == Texts(ps) + [QUOTE] + rest
               ==> ReadBody(s, false) == Some((Values(ps), rest)))
  {
    ScanIsStrictReading(s);
    if ScanBody(s) == Some(rest) {
      var ps := Pieces(s);
    }
    forall ps: seq<Piece> | AllWellFormed(ps) && s == Texts(ps) + [QUOTE] + rest
      ensures ReadBody(s, true) == ReadBody(s, false) == Some((Values(ps), rest))
    {
      ReadPieces(ps, rest, true);
      ReadPieces(ps, rest, false);
    }
  }

  // ---------- printing and reading are inverse ----------

  /** The piece that the printer writes for `r`. */
  function PrintedPiece(r: rune): (p: Piece)
  {
    if ShortEscape(r).Some? then Short(ShortEscape(r).value)
    else if r < 0x20 then Unit([0x30, 0x30, HexDigit(r / 0x10), HexDigit(r % 0x10)])
    else Plain(r)
  }

  lemma PrintedPieceReads(r: rune)
    ensures var p := PrintedPiece(r); p.WellFormed() && p.Text() == EscapeRune(r) && p.Value() == r
  {
    if ShortEscape(r).None? && r < 0x20 {
      var hex := [0x30, 0x30, HexDigit(r / 0x10), HexDigit(r % 0x10)];
      assert HexValue(HexDigit(r / 0x10)) == Some(r / 0x10);
      assert HexValue(HexDigit(r % 0x10)) == Some(r % 0x10);
      assert IsHex(hex);
      HexStep(hex);
      HexStep(hex[..3]);
      HexStep(hex[..3][..2]);
      HexStep(hex[..3][..2][..1]);
    }
  }

  function PrintedPieces(rs: seq<rune>): seq<Piece> {
    seq(|rs|, i requires 0 <= i < |rs| => PrintedPiece(rs[i]))
  }

  lemma {:induction false} PrintedPiecesRead(rs: seq<rune>)
    ensures var ps := PrintedPieces(rs);
            AllWellFormed(ps) && Texts(ps) == EscapeAll(rs) && Values(ps) == rs
  {
    var ps := PrintedPieces(rs);
    forall i | 0 <= i < |rs|
      ensures ps[i].WellFormed()
    {
      PrintedPieceReads(rs[i]);
    }
    if rs != [] {
      PrintedPieceReads(rs[0]);
      PrintedPiecesRead(rs[1..]);
      assert ps[1..] == PrintedPieces(rs[1..]);
    }
  }

  /** Scanning a printed string stops at its end, and reading gives the string back. */
  lemma QuoteInverse(s: GoString, rest: GoString, strict: bool)
    requires Quote(s).Ok?
    ensures var body := Quote(s).value[1..] + rest;
            && ReadBody(body, strict) == Some((Runes(s), rest))
            && ScanBody(body) == Some(rest)
    ensures Encode(Runes(s)) == s
  {
    hide ReadBody, ScanBody, EscapeAll, Runes, Encode, Texts, Values, PrintedPieces, AllWellFormed, Valid;
    var ps := PrintedPieces(Runes(s));
    PrintedPiecesRead(Runes(s));
    ReadPieces(ps, rest, strict);
    ReadPieces(ps, rest, true);
    assert Quote(s).value[1..] == EscapeAll(Runes(s)) + [QUOTE];
    ScanIsStrictReading(Quote(s).value[1..] + rest);
    EncodeRunes(s);
  }

  // ---------- the printed spelling is the shortest ----------

  predicate LowerHex(hex: GoString) {
    forall i :: 0 <= i < |hex| ==> '0' as int <= hex[i] <= '9' as int || 'a' as int <= hex[i] <= 'f' as int
  }

  predicate LowerPiece(p: Piece) {
    match p
    case Unit(hex) => LowerHex(hex)
    case Pair(high, low) => LowerHex(high) && LowerHex(low)
    case _ => true
  }

  lemma LowerHexDigit(a: byte, b: byte)
    requires LowerHex([a]) && LowerHex([b]) && HexValue(a) == HexValue(b)
    ensures a == b
  {
    assert [a][0] == a && [b][0] == b;
  }

  lemma Base16Unique(a: int, b: int, c: int, d: int, e: int, f: int, g: int, h: int)
    requires 0 <= a < 16 && 0 <= b < 16 && 0 <= c < 16 && 0 <= d < 16
    requires 0 <= e < 16 && 0 <= f < 16 && 0 <= g < 16 && 0 <= h < 16
    requires 0x1000 * a + 0x100 * b + 0x10 * c + d == 0x1000 * e + 0x100 * f + 0x10 * g + h
    ensures a == e && b == f && c == g && d == h
  {
  }

  /** Four lower-case digits are determined by the number they spell. */
  lemma LowerHexUnique(h: GoString, k: GoString)
    requires |h| == |k| == 4 && IsHex(h) && IsHex(k) && LowerHex(h) && LowerHex(k) && HexNat(h) == HexNat(k)
    ensures h == k
  {
    hide HexValue, HexNat;
    FourDigits(h);
    FourDigits(k);
    Base16Unique(HexValue(h[0]).value, HexValue(h[1]).value, HexValue(h[2]).value, HexValue(h[3]).value,
                 HexValue(k[0]).value, HexValue(k[1]).value, HexValue(k[2]).value, HexValue(k[3]).value);
    forall i | 0 <= i < 4
      ensures h[i] == k[i]
    {
      assert HexValue(h[i]) == HexValue(k[i]);
      assert LowerHex([h[i]]) && LowerHex([k[i]]);
      LowerHexDigit(h[i], k[i]);
    }
  }

  lemma FourDigits(h: GoString)
    requires |h| == 4 && IsHex(h)
    ensures forall i :: 0 <= i < 4 ==> HexValue(h[i]).Some? && 0 <= HexValue(h[i]).value < 16
    ensures HexNat(h) == 0x1000 * HexValue(h[0]).value + 0x100 * HexValue(h[1]).value + 0x10 * HexValue(h[2]).value
                         + HexValue(h[3]).value
  {
    HexStep(h);
    HexStep(h[..3]);
    HexStep(h[..3][..2]);
    HexStep(h[..3][..2][..1]);
  }

  lemma EscapedLowerCase(r: rune)
    ensures PrintedPiece(r).WellFormed() && LowerPiece(PrintedPiece(r)) && PrintedPiece(r).Text() == EscapeRune(r)
    ensures PrintedPiece(r).Value() == r
  {
    PrintedPieceReads(r);
  }

  /** No spelling of a character is shorter than the printed one, and only upper-case digits make another as short. */
  lemma ShortestEscape(r: rune, p: Piece)
    requires p.WellFormed() && p.Value() == r
    ensures |EscapeRune(r)| <= |p.Text()|
    ensures |EscapeRune(r)| == |p.Text()| && LowerPiece(p) ==> p.Text() == EscapeRune(r)
  {
    EscapedLowerCase(r);
    match p
    case Plain(_) =>
    case Short(_) =>
    case Unit(hex) =>
      HexBound(hex);
      if PrintedPiece(r).Unit? && LowerHex(hex) {
        LowerHexUnique(hex, PrintedPiece(r).hex);
      }
    case Pair(_, _) =>
  }

  predicate LowerPieces(ps: seq<Piece>) {
    forall i :: 0 <= i < |ps| ==> LowerPiece(ps[i])
  }

  lemma {:induction false} ShortestPieces(rs: seq<rune>, ps: seq<Piece>)
    requires AllWellFormed(ps) && Values(ps) == rs
    ensures |EscapeAll(rs)| <= |Texts(ps)|
    ensures |EscapeAll(rs)| == |Texts(ps)| && LowerPieces(ps) ==> EscapeAll(rs) == Texts(ps)
    decreases |ps|
  {
    hide EscapeRune, LowerPiece;
    if ps != [] {
      assert rs[0] == ps[0].Value() && rs[1..] == Values(ps[1..]);
      ShortestEscape(rs[0], ps[0]);
      ShortestPieces(rs[1..], ps[1..]);
    }
  }

  /**
   Of all spellings of a string in the reference grammar the printed one is the
   shortest, and among the shortest the only one in lower-case digits.
   */
  lemma ShortestSpelling(s: GoString, ps: seq<Piece>)
    requires Valid(s) && AllWellFormed(ps) && Values(ps) == Runes(s)
    ensures Quote(s).Ok? && |Quote(s).value| <= |Texts(ps)| + 2
    ensures |Quote(s).value| == |Texts(ps)| + 2 && LowerPieces(ps)
            ==> Quote(s).value == [QUOTE] + Texts(ps) + [QUOTE]
  {
    ShortestPieces(Runes(s), ps);
  }

  /** The printed spelling is one of them. */
  lemma PrintedSpelling(s: GoString)
    requires Valid(s)
    ensures var ps := PrintedPieces(Runes(s));
            && AllWellFormed(ps) && Values(ps) == Runes(s) && LowerPieces(ps)
            && Quote(s) == Ok([QUOTE] + Texts(ps) + [QUOTE])
  {
    var ps := PrintedPieces(Runes(s));
    PrintedPiecesRead(Runes(s));
    forall i | 0 <= i < |ps|
      ensures LowerPiece(ps[i])
    {
      EscapedLowerCase(Runes(s)[i]);
    }
  }
}
