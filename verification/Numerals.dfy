/**
 Decimal numerals as text: digit strings, the scanner for numbers, and the four
 layouts of section 3.2.2.3 of RFC 8785.
 */
module Numerals {
  import opened Basics
  import opened Scaling

  const MINUS: byte := 0x2D
  const PLUS: byte := 0x2B
  const POINT: byte := 0x2E
  const ZERO: byte := 0x30
  const SMALL_E: byte := 0x65
  const BIG_E: byte := 0x45

  predicate IsDigit(b: byte) {
    0x30 <= b <= 0x39
  }

  predicate AllDigits(s: GoString) {
    forall i :: 0 <= i < |s| ==> IsDigit(s[i])
  }

  function DigitValue(b: byte): nat
    requires IsDigit(b)
  {
    b - 0x30
  }

  /** The number that a digit string spells. */
  function NatOf(ds: GoString): nat
    requires AllDigits(ds)
  {
    if ds == [] then 0
    else 10 * NatOf(ds[..|ds| - 1]) + DigitValue(ds[|ds| - 1])
  }

  /** The shortest digit string for `n`, as `strconv.Itoa` spells it. */
  function Digits(n: nat): (ds: GoString)
    ensures AllDigits(ds) && |ds| > 0
    ensures n > 0 ==> ds[0] != ZERO
  {
    if n < 10 then [0x30 + n] else Digits(n / 10) + [0x30 + n % 10]
  }

  /** The decimal text of an integer, as `strconv.FormatInt` spells it. */
  function IntText(n: int): GoString {
    if n < 0 then [MINUS] + Digits(-n) else Digits(n)
  }

  lemma {:induction false} NatOfDigits(n: nat)
    ensures NatOf(Digits(n)) == n
  {
    if n >= 10 {
      NatOfDigits(n / 10);
      assert Digits(n)[..|Digits(n)| - 1] == Digits(n / 10);
    } else {
      assert Digits(n)[..0] == [];
    }
  }

  lemma {:induction false} DigitsOfNat(ds: GoString)
    requires AllDigits(ds) && ds != [] && (ds[0] != ZERO || |ds| == 1)
    ensures Digits(NatOf(ds)) == ds
  {
    if |ds| == 1 {
      assert NatOf(ds[..0]) == 0;
    } else {
      var front := ds[..|ds| - 1];
      DigitsOfNat(front);
      NatPositive(front);
      assert ds == front + [ds[|ds| - 1]];
    }
  }

  lemma {:induction false} NatPositive(ds: GoString)
    requires AllDigits(ds) && ds != [] && ds[0] != ZERO
    ensures NatOf(ds) > 0
  {
    if |ds| > 1 {
      NatPositive(ds[..|ds| - 1]);
    }
  }

  lemma {:induction false} NatOfAppend(a: GoString, b: GoString)
    requires AllDigits(a) && AllDigits(b)
    ensures AllDigits(a + b) && NatOf(a + b) == IntTens(NatOf(a), |b|) + NatOf(b)
  {
    if b == [] {
      assert a + b == a;
    } else {
      var front := b[..|b| - 1];
      NatOfAppend(a, front);
      assert (a + b)[..|a + b| - 1] == a + front;
    }
  }

  function Zeros(k: nat): (zs: GoString)
    ensures |zs| == k && AllDigits(zs)
    ensures forall i :: 0 <= i < k ==> zs[i] == ZERO
  {
    seq(k, _ => ZERO)
  }

  lemma {:induction false} NatOfZeros(k: nat)
    ensures NatOf(Zeros(k)) == 0
  {
    if k > 0 {
      NatOfZeros(k - 1);
      assert Zeros(k)[..k - 1] == Zeros(k - 1);
    }
  }

  /** The length of the digit run at the front of `s`. */
  function Span(s: GoString): (n: nat)
    ensures n <= |s| && AllDigits(s[..n])
    ensures n < |s| ==> !IsDigit(s[n])
  {
    if s == [] || !IsDigit(s[0]) then 0 else 1 + Span(s[1..])
  }

  predicate StartsWith(s: GoString, b: byte) {
    s != [] && s[0] == b
  }

  /** `rest` cannot continue a number. */
  predicate Delimited(rest: GoString) {
    rest == [] || !(IsDigit(rest[0]) || rest[0] in {POINT, SMALL_E, BIG_E, MINUS, PLUS})
  }

  lemma {:induction false} SpanExact(ds: GoString, rest: GoString)
    requires AllDigits(ds) && (rest == [] || !IsDigit(rest[0]))
    ensures Span(ds + rest) == |ds| && (ds + rest)[..|ds|] == ds && (ds + rest)[|ds|..] == rest
  {
    if ds == [] {
      assert ds + rest == rest;
    } else {
      SpanExact(ds[1..], rest);
      assert (ds + rest)[1..] == ds[1..] + rest;
    }
  }

  /** A scanned number: (-1)^negative * whole.fraction * 10^exponent. */
  datatype Number = Number(negative: bool, whole: GoString, fraction: GoString, exponent: int) {
    ghost predicate Valid() {
      AllDigits(whole) && AllDigits(fraction)
    }

    /** The magnitude of the number. */
    function Magnitude(): real
      requires Valid()
    {
      Tens(NatOf(whole + fraction) as real, exponent - |fraction|)
    }
  }

  /** The exponent part at the front of `s`; its absence is exponent zero. */
  function ScanExponent(s: GoString): (r: Option<(int, GoString)>)
    ensures r.Some? ==> |r.value.1| <= |s|
  {
    if !(StartsWith(s, SMALL_E) || StartsWith(s, BIG_E)) then Some((0, s))
    else
      var t := s[1..];
      var signed := StartsWith(t, MINUS) || StartsWith(t, PLUS);
      var u := if signed then t[1..] else t;
      var n := Span(u);
      if n == 0 then None
      else
        var e: int := NatOf(u[..n]);
        Some((if StartsWith(t, MINUS) then -e else e, u[n..]))
  }

  /**
   The number at the front of `s` and what follows it. With `strict` the
   grammar is that of section 6 of RFC 8259; without, that of the decimal
   forms which `strconv.ParseFloat` takes.
   */
  function ScanNumber(s: GoString, strict: bool): (r: Option<(Number, GoString)>)
    ensures r.Some? ==> r.value.0.Valid() && |r.value.1| < |s|
  {
    if StartsWith(s, MINUS) then ScanUnsigned(true, s[1..], strict)
    else if !strict && StartsWith(s, PLUS) then ScanUnsigned(false, s[1..], strict)
    else ScanUnsigned(false, s, strict)
  }

  function ScanUnsigned(negative: bool, t: GoString, strict: bool): (r: Option<(Number, GoString)>)
    ensures r.Some? ==> r.value.0.Valid() && |r.value.1| < |t|
  {
    var w := if strict && StartsWith(t, ZERO) then 1 else Span(t);
    var u := t[w..];
    if StartsWith(u, POINT) then
      var f := Span(u[1..]);
      if (strict && (w == 0 || f == 0)) || w + f == 0 then None
      else ScanTail(negative, t[..w], u[1..][..f], u[1..][f..])
    else if w == 0 then None
    else ScanTail(negative, t[..w], [], u)
  }

  function ScanTail(negative: bool, whole: GoString, fraction: GoString, tail: GoString)
    : (r: Option<(Number, GoString)>)
    requires AllDigits(whole) && AllDigits(fraction)
    ensures r.Some? ==> r.value.0.Valid() && |r.value.1| <= |tail|
  {
    match ScanExponent(tail)
    case None => None
    case Some((e, rest)) => Some((Number(negative, whole, fraction, e), rest))
  }

  /** The layout of a normalised sign, digit string and decimal exponent. */
  function Layout(negative: bool, ds: GoString, e: int): GoString
    requires ds != []
  {
    (if negative then [MINUS] else []) + Body(ds, e)
  }

  function Body(ds: GoString, e: int): GoString
    requires ds != []
  {
    if -6 <= e < 21 then
      var point := e + 1;
      if point <= 0 then [ZERO, POINT] + Zeros(-point) + ds
      else if point >= |ds| then ds + Zeros(point - |ds|)
      else ds[..point] + [POINT] + ds[point..]
    else
      ds[..1] + (if |ds| > 1 then [POINT] + ds[1..] else []) +
      (if e < 0 then [SMALL_E, MINUS] + Digits(-e) else [SMALL_E, PLUS] + Digits(e))
  }

  ghost predicate Normalised(ds: GoString) {
    AllDigits(ds) && ds != [] && ds[0] != ZERO && ds[|ds| - 1] != ZERO
  }

  /** What scanning a layout must give back. */
  ghost predicate Denotes(r: Option<(Number, GoString)>, negative: bool, ds: GoString, e: int, rest: GoString)
    requires AllDigits(ds)
  {
    && r.Some? && r.value.0.Valid()
    && r.value.0.negative == negative
    && r.value.0.Magnitude() == Tens(NatOf(ds) as real, e - |ds| + 1)
    && r.value.1 == rest
  }

  function ExponentText(e: int): GoString {
    if e < 0 then [SMALL_E, MINUS] + Digits(-e) else [SMALL_E, PLUS] + Digits(e)
  }

  lemma ScanExponentDigits(e: int, rest: GoString)
    requires Delimited(rest)
    ensures var n: nat := if e < 0 then -e else e;
            var mark := if e < 0 then MINUS else PLUS;
            ScanExponent([SMALL_E] + ([mark] + (Digits(n) + rest))) == Some((e, rest))
  {
    var n: nat := if e < 0 then -e else e;
    var mark := if e < 0 then MINUS else PLUS;
    SpanExact(Digits(n), rest);
    NatOfDigits(n);
    hide Digits, Span, NatOf;
    HeadTail(mark, Digits(n) + rest, []);
    HeadTail(SMALL_E, [mark] + (Digits(n) + rest), []);
  }

  lemma ScanExponentText(e: int, rest: GoString)
    requires Delimited(rest)
    ensures ScanExponent(ExponentText(e) + rest) == Some((e, rest))
    ensures ScanExponent(rest) == Some((0, rest))
  {
    hide Digits, Span, NatOf;
    var n: nat := if e < 0 then -e else e;
    var mark := if e < 0 then MINUS else PLUS;
    ScanExponentDigits(e, rest);
    HeadTail(mark, Digits(n), rest);
    HeadTail(SMALL_E, [mark] + Digits(n), rest);
    assert ExponentText(e) == [SMALL_E] + ([mark] + Digits(n));
  }

  function FractionText(fraction: GoString): GoString {
    if fraction == [] then [] else [POINT] + fraction
  }

  function SignText(negative: bool): GoString {
    if negative then [MINUS] else []
  }

  lemma HeadTail(b: byte, s: GoString, t: GoString)
    ensures ([b] + s)[0] == b && ([b] + s)[1..] == s
    ensures ([b] + s) + t == [b] + (s + t)
  {
  }

  lemma ScanPieces(negative: bool, whole: GoString, fraction: GoString, tail: GoString, strict: bool)
    requires AllDigits(whole) && whole != [] && (whole[0] != ZERO || |whole| == 1)
    requires AllDigits(fraction)
    requires tail == [] || !(IsDigit(tail[0]) || tail[0] == POINT)
    ensures ScanUnsigned(negative, whole + (FractionText(fraction) + tail), strict)
            == ScanTail(negative, whole, fraction, tail)
  {
    var u := FractionText(fraction) + tail;
    HeadTail(POINT, fraction, tail);
    HeadTail(POINT, fraction + tail, []);
    SpanExact(whole, u);
    SpanExact(fraction, tail);
    if fraction == [] {
      assert u == tail;
    } else {
      assert u == [POINT] + (fraction + tail);
    }
  }

  /** Scanning takes a number apart into the pieces it was put together from. */
  lemma ScanAssembled(negative: bool, whole: GoString, fraction: GoString, tail: GoString, strict: bool)
    requires AllDigits(whole) && whole != [] && (whole[0] != ZERO || |whole| == 1)
    requires AllDigits(fraction)
    requires tail == [] || !(IsDigit(tail[0]) || tail[0] == POINT)
    ensures ScanNumber(SignText(negative) + (whole + (FractionText(fraction) + tail)), strict)
            == ScanTail(negative, whole, fraction, tail)
  {
    hide ScanUnsigned, ScanTail, FractionText;
    ScanPieces(negative, whole, fraction, tail, strict);
    var t := whole + (FractionText(fraction) + tail);
    assert t[0] == whole[0];
    HeadTail(MINUS, t, []);
    assert [] + t == t;
  }

  /** Each layout scans back to the value d1.d2...dn * 10^e that it lays out. */
  lemma LayoutScans(negative: bool, ds: GoString, e: int, rest: GoString, strict: bool)
    requires Normalised(ds) && Delimited(rest)
    ensures Denotes(ScanNumber(Layout(negative, ds, e) + rest, strict), negative, ds, e, rest)
  {
    if !(-6 <= e < 21) {
      ScientificScans(negative, ds, e, rest, strict);
    } else if e + 1 <= 0 {
      SmallScans(negative, ds, e, rest, strict);
    } else if e + 1 >= |ds| {
      WholeScans(negative, ds, e, rest, strict);
    } else {
      PointedScans(negative, ds, e, rest, strict);
    }
  }

  lemma Bracket(a: GoString, b: GoString, c: GoString, d: GoString)
    ensures a + (b + c) + d == a + (b + (c + d))
    ensures a + (b + c) == a + b + c
  {
  }

  /** Pieces with the right digits and point position denote what the layout stands for. */
  lemma PiecesDenote(r: Option<(Number, GoString)>, n: Number, rest: GoString, ds: GoString, e: int)
    requires n.Valid() && AllDigits(ds) && r == Some((n, rest))
    requires n.Magnitude() == Tens(NatOf(ds) as real, e - |ds| + 1)
    ensures Denotes(r, n.negative, ds, e, rest)
  {
  }

  lemma SignedBody(negative: bool, ds: GoString, e: int)
    requires ds != []
    ensures Layout(negative, ds, e) == SignText(negative) + Body(ds, e)
  {
    hide Body;
  }

  lemma ScientificBody(ds: GoString, e: int)
    requires ds != [] && !(-6 <= e < 21)
    ensures Body(ds, e) == ds[..1] + FractionText(ds[1..]) + ExponentText(e)
  {
    hide Digits;
  }

  lemma ScientificText(negative: bool, ds: GoString, e: int, rest: GoString)
    requires ds != [] && !(-6 <= e < 21)
    ensures Layout(negative, ds, e) + rest
            == SignText(negative) + (ds[..1] + (FractionText(ds[1..]) + (ExponentText(e) + rest)))
  {
    hide Body, FractionText, ExponentText, SignText;
    var f, x := FractionText(ds[1..]), ExponentText(e);
    ScientificBody(ds, e);
    assert Layout(negative, ds, e) == SignText(negative) + Body(ds, e) by {
      SignedBody(negative, ds, e);
    }
    hide Layout;
    Bracket([], f, x, rest);
    Bracket([], ds[..1], f + x, rest);
    Bracket(ds[..1], f, x, rest);
    Bracket(SignText(negative), ds[..1], f + x, rest);
  }

  lemma ExponentStarts(e: int, rest: GoString)
    ensures var t := ExponentText(e) + rest; t != [] && t[0] == SMALL_E
  {
  }

  lemma ScientificScans(negative: bool, ds: GoString, e: int, rest: GoString, strict: bool)
    requires Normalised(ds) && Delimited(rest) && !(-6 <= e < 21)
    ensures Denotes(ScanNumber(Layout(negative, ds, e) + rest, strict), negative, ds, e, rest)
  {
    hide ScanNumber, Layout, ScanExponent, Tens, Denotes, NatOf, ExponentText, FractionText;
    ScanExponentText(e, rest);
    ExponentStarts(e, rest);
    assert ds[..1] + ds[1..] == ds;
    ScientificText(negative, ds, e, rest);
    ScanAssembled(negative, ds[..1], ds[1..], ExponentText(e) + rest, strict);
    PiecesDenote(ScanTail(negative, ds[..1], ds[1..], ExponentText(e) + rest),
                 Number(negative, ds[..1], ds[1..], e), rest, ds, e);
  }

  lemma SmallScans(negative: bool, ds: GoString, e: int, rest: GoString, strict: bool)
    requires Normalised(ds) && Delimited(rest) && -6 <= e < 0
    ensures Denotes(ScanNumber(Layout(negative, ds, e) + rest, strict), negative, ds, e, rest)
  {
    hide ScanNumber, Layout, ScanExponent, Tens, Denotes, NatOf, FractionText;
    var zeros := Zeros(-e - 1);
    ScanExponentText(0, rest);
    LeadingZeros(-e - 1, ds);
    SmallText(negative, ds, e, rest);
    ScanAssembled(negative, [ZERO], zeros + ds, rest, strict);
    PiecesDenote(ScanTail(negative, [ZERO], zeros + ds, rest),
                 Number(negative, [ZERO], zeros + ds, 0), rest, ds, e);
  }

  lemma SmallText(negative: bool, ds: GoString, e: int, rest: GoString)
    requires ds != [] && -6 <= e < 0
    ensures Layout(negative, ds, e) + rest
            == SignText(negative) + ([ZERO] + (FractionText(Zeros(-e - 1) + ds) + rest))
  {
    var zeros := Zeros(-e - 1);
    DecimalText(negative, [ZERO], zeros + ds, rest);
    Bracket([], [ZERO, POINT], zeros, ds);
    assert Body(ds, e) == [ZERO] + [POINT] + (zeros + ds);
  }

  lemma DecimalText(negative: bool, whole: GoString, fraction: GoString, rest: GoString)
    requires fraction != []
    ensures SignText(negative) + (whole + [POINT] + fraction) + rest
            == SignText(negative) + (whole + (FractionText(fraction) + rest))
  {
    Bracket([], whole, [POINT], fraction);
    Bracket(SignText(negative), whole, [POINT] + fraction, rest);
  }

  lemma WholeScans(negative: bool, ds: GoString, e: int, rest: GoString, strict: bool)
    requires Normalised(ds) && Delimited(rest) && |ds| - 1 <= e < 21
    ensures Denotes(ScanNumber(Layout(negative, ds, e) + rest, strict), negative, ds, e, rest)
  {
    hide ScanNumber, Layout, ScanExponent, Denotes, NatOf, FractionText;
    var whole := ds + Zeros(e + 1 - |ds|);
    ScanExponentText(0, rest);
    ScanAssembled(negative, whole, [], rest, strict);
    TrailingZeros(ds, e + 1 - |ds|);
    WholeText(negative, ds, e, rest);
    PiecesDenote(ScanTail(negative, whole, [], rest), Number(negative, whole, [], 0), rest, ds, e);
  }

  lemma WholeText(negative: bool, ds: GoString, e: int, rest: GoString)
    requires ds != [] && |ds| - 1 <= e < 21
    ensures Layout(negative, ds, e) + rest
            == SignText(negative) + (ds + Zeros(e + 1 - |ds|) + (FractionText([]) + rest))
  {
    var whole := ds + Zeros(e + 1 - |ds|);
    assert Layout(negative, ds, e) == SignText(negative) + whole;
    hide Layout, SignText, Zeros;
    assert FractionText([]) + rest == rest;
    assert SignText(negative) + whole + rest == SignText(negative) + (whole + rest);
  }

  lemma PointedText(negative: bool, ds: GoString, e: int, rest: GoString)
    requires 0 <= e < |ds| - 1 && e < 21
    ensures Layout(negative, ds, e) + rest
            == SignText(negative) + (ds[..e + 1] + (FractionText(ds[e + 1..]) + rest))
  {
    DecimalText(negative, ds[..e + 1], ds[e + 1..], rest);
  }

  lemma PointedScans(negative: bool, ds: GoString, e: int, rest: GoString, strict: bool)
    requires Normalised(ds) && Delimited(rest) && 0 <= e < |ds| - 1 && e < 21
    ensures Denotes(ScanNumber(Layout(negative, ds, e) + rest, strict), negative, ds, e, rest)
  {
    hide ScanNumber, Layout, ScanExponent, Tens, Denotes, NatOf, FractionText;
    var whole, fraction := ds[..e + 1], ds[e + 1..];
    ScanExponentText(0, rest);
    assert whole + fraction == ds;
    PointedText(negative, ds, e, rest);
    ScanAssembled(negative, whole, fraction, rest, strict);
    PiecesDenote(ScanTail(negative, whole, fraction, rest),
                 Number(negative, whole, fraction, 0), rest, ds, e);
  }

  lemma TrailingZeros(ds: GoString, k: nat)
    requires AllDigits(ds)
    ensures (ds + Zeros(k)) + [] == ds + Zeros(k)
    ensures NatOf(ds + Zeros(k)) == IntTens(NatOf(ds), k)
    ensures NatOf(ds + Zeros(k)) as real == Tens(NatOf(ds) as real, k)
  {
    NatOfAppend(ds, Zeros(k));
    NatOfZeros(k);
    TensOfInt(NatOf(ds), k);
  }

  lemma LeadingZeros(k: nat, ds: GoString)
    requires AllDigits(ds)
    ensures NatOf([ZERO] + (Zeros(k) + ds)) == NatOf(ds)
  {
    assert [ZERO] + (Zeros(k) + ds) == Zeros(k + 1) + ds;
    NatOfAppend(Zeros(k + 1), ds);
    NatOfZeros(k + 1);
    TensOfZero(|ds|);
  }

  lemma {:induction false} TensOfZero(k: nat)
    ensures IntTens(0, k) == 0
  {
    if k > 0 {
      TensOfZero(k - 1);
    }
  }

  /** An optional minus sign and digits only. */
  predicate IsIntegerLexeme(s: GoString) {
    var t := if StartsWith(s, MINUS) then s[1..] else s;
    t != [] && AllDigits(t)
  }

  lemma ScientificForm(ds: GoString, e: int)
    requires Normalised(ds) && !(-6 <= e < 21)
    ensures SMALL_E in Body(ds, e) && Body(ds, e)[0] == ds[0]
  {
    var k := if |ds| > 1 then |ds| + 1 else 1;
    assert Body(ds, e)[k] == SMALL_E;
  }

  lemma DecimalForm(ds: GoString, e: int)
    requires Normalised(ds) && -6 <= e < 21
    ensures SMALL_E !in Body(ds, e)
    ensures |ds| - 1 <= e ==> AllDigits(Body(ds, e)) && Body(ds, e) == ds + Zeros(e + 1 - |ds|)
    ensures e < |ds| - 1 ==> POINT in Body(ds, e)
    ensures IsDigit(Body(ds, e)[0])
  {
    var body := Body(ds, e);
    if e + 1 <= 0 {
      assert body[1] == POINT;
    } else if e + 1 < |ds| {
      assert body[e + 1] == POINT;
    }
  }

  lemma SignedLexeme(negative: bool, body: GoString)
    requires body != [] && IsDigit(body[0])
    ensures IsIntegerLexeme(SignText(negative) + body) <==> AllDigits(body)
    ensures SMALL_E in SignText(negative) + body <==> SMALL_E in body
  {
    HeadTail(MINUS, body, []);
    assert [] + body == body;
  }

  lemma NotAllDigits(body: GoString)
    requires POINT in body || SMALL_E in body
    ensures !AllDigits(body)
  {
  }

  /** Exponential form appears exactly outside 10^-6 <= |n| < 10^21; plain digits exactly for whole layouts. */
  lemma LayoutForm(negative: bool, ds: GoString, e: int)
    requires Normalised(ds)
    ensures SMALL_E in Layout(negative, ds, e) <==> !(-6 <= e < 21)
    ensures IsIntegerLexeme(Layout(negative, ds, e)) <==> |ds| - 1 <= e < 21
    ensures |ds| - 1 <= e < 21 ==> Body(ds, e) == ds + Zeros(e + 1 - |ds|)
  {
    hide Body, IsIntegerLexeme, Zeros;
    if -6 <= e < 21 {
      DecimalForm(ds, e);
    } else {
      ScientificForm(ds, e);
    }
    if POINT in Body(ds, e) || SMALL_E in Body(ds, e) {
      NotAllDigits(Body(ds, e));
    }
    SignedLexeme(negative, Body(ds, e));
  }

  /**
   Number::toString of ECMA-262, which section 3.2.2.3 of RFC 8785 adopts: `k` digits
   `ds` of a number whose value is 0.ds times 10^n.
   */
  function EcmaText(ds: GoString, n: int): GoString
    requires ds != []
  {
    var k := |ds|;
    if k <= n <= 21 then ds + Zeros(n - k)
    else if 0 < n <= 21 then ds[..n] + Ascii(".") + ds[n..]
    else if -6 < n <= 0 then Ascii("0.") + Zeros(-n) + ds
    else
      var mantissa := if k == 1 then ds else [ds[0]] + Ascii(".") + ds[1..];
      mantissa + (if n > 0 then Ascii("e+") + Digits(n - 1) else Ascii("e-") + Digits(1 - n))
  }

  lemma MarkTexts()
    ensures Ascii("-") == [MINUS] && Ascii(".") == [POINT] && Ascii("0.") == [ZERO, POINT]
    ensures Ascii("e+") == [SMALL_E, PLUS] && Ascii("e-") == [SMALL_E, MINUS]
  {
  }

  lemma EcmaMantissa(ds: GoString)
    requires ds != []
    ensures ds[..1] + (if |ds| > 1 then [POINT] + ds[1..] else [])
            == if |ds| == 1 then ds else [ds[0]] + [POINT] + ds[1..]
  {
    assert ds[..1] == [ds[0]];
  }

  lemma ScientificIsEcma(ds: GoString, e: int)
    requires ds != [] && !(-6 <= e < 21)
    ensures Body(ds, e) == EcmaText(ds, e + 1)
  {
    hide Digits, Ascii, Zeros;
    MarkTexts();
    EcmaMantissa(ds);
  }

  lemma DecimalIsEcma(ds: GoString, e: int)
    requires ds != [] && -6 <= e < 21
    ensures Body(ds, e) == EcmaText(ds, e + 1)
  {
    hide Digits, Ascii, Zeros;
    MarkTexts();
  }

  lemma BodyIsEcma(ds: GoString, e: int)
    requires ds != []
    ensures Body(ds, e) == EcmaText(ds, e + 1)
  {
    hide Body, EcmaText;
    if -6 <= e < 21 {
      DecimalIsEcma(ds, e);
    } else {
      ScientificIsEcma(ds, e);
    }
  }

  lemma LayoutIsEcma(negative: bool, ds: GoString, e: int)
    requires ds != []
    ensures Layout(negative, ds, e) == (if negative then Ascii("-") else []) + EcmaText(ds, e + 1)
  {
    MarkTexts();
    BodyIsEcma(ds, e);
    hide Body, EcmaText, Ascii;
  }
}
