/**
 Numbers on which canonicalisation is not idempotent: 2^63 and 2^62 are exact
 binary64 values whose shortest decimals are other integers.
 */
module InexactWitness {
  import opened Basics
  import opened Binary64
  import opened Json
  import opened JsonNumber
  import opened JsonRoundTrip
  import opened Numerals
  import opened Scaling
  import opened ShortestDecimal

  const TWO_63: int := 9_223_372_036_854_775_808
  const PRINTED: int := 9_223_372_036_854_776_000

  lemma TwoTo63Scaled()
    ensures Scaled(TWO_63 as real, TWO_52, 11)
    ensures Scaled((TWO_63 - 1024) as real, TWO_53 - 1, 10)
    ensures Shift((TWO_52 + 1) as real, 11) == (TWO_63 + 2048) as real
    ensures Scaled((TWO_63 + 2048) as real, TWO_52 + 1, 11)
    ensures Shift(TWO_53 as real, 10) == TWO_63 as real
  {
    Shift1024(TWO_52);
    Shift1024(TWO_52 + 1);
    Shift1024(TWO_53 - 1);
    Shift1024(TWO_53);
    ShiftStep(TWO_52 as real, 10);
    ShiftStep((TWO_52 + 1) as real, 10);
  }

  lemma Quadruple(x: real, j: int)
    ensures Shift(x, j + 2) == 4.0 * Shift(x, j)
  {
    ShiftStep(x, j);
    ShiftStep(x, j + 1);
  }

  lemma Shift1024(n: int)
    ensures Shift(n as real, 10) == (1024 * n) as real
  {
    Quadruple(n as real, 0);
    Quadruple(n as real, 2);
    Quadruple(n as real, 4);
    Quadruple(n as real, 6);
    Quadruple(n as real, 8);
  }

  /** The binary64 values next to 2^63 are 1024 below and 2048 above. */
  lemma Gap(y: real)
    requires Representable(y)
    ensures y > TWO_63 as real ==> y >= (TWO_63 + 2048) as real
  {
    var x := TWO_63 as real;
    TwoTo63Scaled();
    ExponentAtMost(x, TWO_52, 11);
    var e := Exponent(x, MIN_EXPONENT);
    if e <= 10 {
      ShiftGrows(TWO_53 as real, e, 10);
    }
    assert e == 11;
    Neighbours(x, y, 11);
    Unscaled(TWO_52 as real, 11);
    FloorBounds(TWO_52 as real, TWO_52);
  }

  /** Only numbers between its neighbours round to 2^63. */
  lemma RoundsNear(v: real)
    requires v >= 0.0 && Round(v) == Some(TWO_63 as real)
    ensures (TWO_63 - 808) as real < v < (TWO_63 + 2048) as real
  {
    TwoTo63Scaled();
    RoundExact((TWO_63 + 2048) as real);
    if v >= (TWO_63 + 2048) as real {
      RoundMonotone((TWO_63 + 2048) as real, v);
    }
    if v <= (TWO_63 - 808) as real {
      RoundNearest(v, (TWO_63 - 1024) as real);
      RoundExact((TWO_63 - 1024) as real);
      if v < (TWO_63 - 1024) as real {
        RoundMonotone(v, (TWO_63 - 1024) as real);
      }
    }
  }

  lemma PrintedRounds()
    ensures Round(PRINTED as real) == Some(TWO_63 as real)
  {
    var x, v := TWO_63 as real, PRINTED as real;
    TwoTo63Scaled();
    RoundExact(x);
    RoundExact((TWO_63 + 2048) as real);
    RoundMonotone(v, (TWO_63 + 2048) as real);
    RoundMonotone(x, v);
    RoundRepresentable(v);
    RoundNearest(v, x);
    Gap(Round(v).value);
  }

  lemma PowersOfTen()
    ensures Tens(1.0, 18) <= TWO_63 as real < Tens(1.0, 19)
    ensures forall n: int :: Tens(n as real, 3) == (1000 * n) as real
    ensures forall n: int :: Tens(n as real, 4) == (10000 * n) as real
  {
    TensOfInt(1, 18);
    TensOfInt(1, 19);
    assert IntTens(1, 9) == 1_000_000_000;
    TensTens(1.0, 9, 9);
    TensOfInt(1, 9);
    TensOfInt(1_000_000_000, 9);
    assert IntTens(1_000_000_000, 9) == 1_000_000_000_000_000_000;
    TensStep(1.0, 18);
  }

  lemma MagnitudeIs18()
    ensures Positive(TWO_63 as real)
    ensures Magnitude(TWO_63 as real, LOW) == 18
  {
    var x := TWO_63 as real;
    TwoTo63Scaled();
    PowersOfTen();
    MagnitudeBounds(x);
    var e := Magnitude(x, LOW);
    if e > 18 {
      TensGrows(1.0, 19, e);
    }
    if e < 18 {
      TensGrows(1.0, e + 1, 18);
    }
  }

  lemma NeighboursOnGrid3()
    ensures Below(TWO_63 as real, 3) == Decimal(9_223_372_036_854_775, 3)
    ensures Above(TWO_63 as real, 3) == Decimal(9_223_372_036_854_776, 3)
    ensures Decimal(9_223_372_036_854_776, 3).Value() == PRINTED as real
    ensures Decimal(9_223_372_036_854_775, 3).Value() == (TWO_63 - 808) as real
  {
    PowersOfTen();
    var x := TWO_63 as real;
    var s := Tens(x, -3);
    TensTens(x, -3, 3);
    TensOrder(9_223_372_036_854_775 as real, s, 3);
    TensOrder(s, 9_223_372_036_854_776 as real, 3);
    FloorBounds(s, 9_223_372_036_854_775);
    FloorBounds(s, 9_223_372_036_854_776);
  }

  /** No multiple of 10^4 reads back as 2^63. */
  lemma CoarserGridsFail(d: Decimal)
    requires d.quantum >= 4
    ensures !ReadsBack(d, TWO_63 as real)
  {
    if ReadsBack(d, TWO_63 as real) {
      RoundsNear(d.Value());
      var n := IntTens(d.sig, d.quantum - 4);
      TensOfInt(d.sig, d.quantum - 4);
      TensTens(d.sig as real, d.quantum - 4, 4);
      PowersOfTen();
      assert d.Value() == (10000 * n) as real;
      NoMultiple(n);
    }
  }

  lemma NoMultiple(n: int)
    ensures !(TWO_63 - 808 < 10000 * n < TWO_63 + 2048)
  {
  }

  /** The search for 2^63 ends just above it on the 10^3 grid. */
  lemma FoundForTwoTo63(d: Decimal)
    requires Found(d, TWO_63 as real, 18, 18)
    ensures d == Decimal(9_223_372_036_854_776, 3)
  {
    var x := TWO_63 as real;
    NeighboursOnGrid3();
    PrintedRounds();
    hide Below, Above, Round;
    assert ReadsBack(Above(x, 3), x);
    assert Stops(x, 3);
    if d.quantum >= 4 {
      CoarserGridsFail(d);
    }
    assert d.quantum == 3;
    if d == Below(x, 3) {
      RoundsNear(d.Value());
    }
  }

  lemma ShortestOfTwoTo63()
    ensures Positive(TWO_63 as real)
    ensures Shortest(TWO_63 as real) == Decimal(9_223_372_036_854_776, 3)
  {
    var x := TWO_63 as real;
    MagnitudeIs18();
    PowersOfTen();
    SearchFound(x, 18, 18);
    hide Search, Found, Magnitude;
    FoundForTwoTo63(Search(x, 18));
  }

  /** 2^63 passes the gate and prints as another integer, which the gate then refuses. */
  lemma NotIdempotentAtTwoTo63()
    ensures CanonicalNumber(IntText(TWO_63)) == Ok(IntText(PRINTED))
    ensures CanonicalNumber(IntText(PRINTED)) == Err(InexactInteger)
  {
    hide Format, Round, IntText, TrimSpace, Shift, Scaled, Exponent, ScanNumber, Digits, NatOf;
    var x := TWO_63 as real;
    TwoTo63Scaled();
    assert Representable(x);
    RoundExact(x);
    PrintedRounds();
    IntTextShape(TWO_63);
    IntTextReads(TWO_63);
    IntTextShape(PRINTED);
    IntTextReads(PRINTED);
    FormatOfTwoTo63();
    hide ParseFloat, IntegerGate;
  }

  lemma DigitsPush(n: int, text: string)
    requires n >= 10 && text != [] && forall i :: 0 <= i < |text| ==> (text[i] as int) < 0x80
    requires Digits(n / 10) == Ascii(text[..|text| - 1]) && text[|text| - 1] as int == 0x30 + n % 10
    ensures Digits(n) == Ascii(text)
  {
  }

  lemma SharedDigits()
    ensures Digits(9223372036854) == Ascii("9223372036854")
  {
    SevenDigits();
    hide Digits, Ascii;
    DigitsPush(92233720, "92233720");
    DigitsPush(922337203, "922337203");
    DigitsPush(9223372036, "9223372036");
    DigitsPush(92233720368, "92233720368");
    DigitsPush(922337203685, "922337203685");
    DigitsPush(9223372036854, "9223372036854");
  }

  lemma SevenDigits()
    ensures Digits(9223372) == Ascii("9223372")
  {
    assert Digits(9223) == Ascii("9223");
  }

  lemma DigitsOfTwoTo63()
    ensures IntText(TWO_63) == Ascii("9223372036854775808")
  {
    hide Digits, Ascii;
    SharedDigits();
    DigitsPush(92233720368547, "92233720368547");
    DigitsPush(922337203685477, "922337203685477");
    DigitsPush(9223372036854775, "9223372036854775");
    DigitsPush(92233720368547758, "92233720368547758");
    DigitsPush(922337203685477580, "922337203685477580");
    DigitsPush(9223372036854775808, "9223372036854775808");
  }

  lemma DigitsOfPrinted()
    ensures IntText(PRINTED) == Ascii("9223372036854776000")
  {
    hide Digits, Ascii;
    SharedDigits();
    DigitsPush(92233720368547, "92233720368547");
    DigitsPush(922337203685477, "922337203685477");
    DigitsPush(9223372036854776, "9223372036854776");
    DigitsPush(92233720368547760, "92233720368547760");
    DigitsPush(922337203685477600, "922337203685477600");
    DigitsPush(9223372036854776000, "9223372036854776000");
  }

  /** So canonicalising the document 9223372036854775808 twice fails. */
  lemma DocumentNotIdempotent()
    ensures CanonicalizeJSON(Ascii("9223372036854775808")) == Ok(Ascii("9223372036854776000"))
    ensures CanonicalizeJSON(Ascii("9223372036854776000")) == Err(InexactInteger)
  {
    hide CanonicalizeJSON, CanonicalNumber, IntText, Ascii;
    DigitsOfTwoTo63();
    DigitsOfPrinted();
    NotIdempotentAtTwoTo63();
    IntTextCanonicalizes(TWO_63);
    IntTextCanonicalizes(PRINTED);
  }

  lemma FormatOfTwoTo63()
    ensures Positive(TWO_63 as real)
    ensures Format(false, TWO_63 as real) == IntText(PRINTED)
  {
    ShortestOfTwoTo63();
    var sig := 9_223_372_036_854_776;
    var ds := Digits(sig);
    var whole := ds + Zeros(3);
    DigitsLength(sig);
    assert Length(9_223_372) == 7;
    assert Length(sig) == 16;
    TrailingZeros(ds, 3);
    NatOfDigits(sig);
    assert IntTens(sig, 3) == PRINTED;
    DigitsOfNat(whole);
    LayoutForm(false, ds, 18);
    assert [] + whole == whole;
  }

  // ---------- the same within 64 bits ----------

  const TWO_62: int := 4_611_686_018_427_387_904
  const PRINTED_62: int := 4_611_686_018_427_388_000

  lemma TwoTo62Scaled()
    ensures Scaled(TWO_62 as real, TWO_52, 10)
    ensures Scaled((TWO_62 + 1024) as real, TWO_52 + 1, 10)
  {
    Shift1024(TWO_52);
    Shift1024(TWO_52 + 1);
  }

  lemma Gap62(y: real)
    requires Representable(y)
    ensures y > TWO_62 as real ==> y >= (TWO_62 + 1024) as real
  {
    hide Shift;
    var x := TWO_62 as real;
    TwoTo62Scaled();
    ExponentAtMost(x, TWO_52, 10);
    var e := Exponent(x, MIN_EXPONENT);
    HalfScaled(10);
    if e <= 9 {
      ShiftGrows(TWO_53 as real, e, 9);
    }
    assert e == 10;
    Neighbours(x, y, 10);
    Unscaled(TWO_52 as real, 10);
    FloorBounds(TWO_52 as real, TWO_52);
  }

  /** A decimal of sixteen digits reads back as 2^62. */
  lemma ShorterReadsBack()
    ensures ReadsBack(Decimal(4_611_686_018_427_388, 3), TWO_62 as real)
  {
    var x, v := TWO_62 as real, PRINTED_62 as real;
    PowersOfTen();
    assert Decimal(4_611_686_018_427_388, 3).Value() == v;
    TwoTo62Scaled();
    RoundExact(x);
    RoundExact((TWO_62 + 1024) as real);
    RoundMonotone(v, (TWO_62 + 1024) as real);
    RoundMonotone(x, v);
    RoundRepresentable(v);
    RoundNearest(v, x);
    Gap62(Round(v).value);
  }

  lemma Lengths62()
    ensures Length(4_611_686_018_427_388) == 16 && Length(TWO_62) == 19
  {
    assert Length(4_611_686) == 7;
    assert Length(4_611_686_018_427) == 13;
  }

  lemma ShortestOfTwoTo62()
    ensures Positive(TWO_62 as real) && WholeLayout(TWO_62 as real)
    ensures Shortest(TWO_62 as real).Value() != TWO_62 as real
  {
    hide Shortest, Round, WholeLayout;
    var x := TWO_62 as real;
    TwoTo62Scaled();
    assert Representable(x);
    PowersOfTen();
    TenTo19();
    ShortestOfExactInt(TWO_62);
    assert WholeLayout(x) by {
      WholeByDigits(x);
    }
    ShorterReadsBack();
    ShortestMinimal(x, Decimal(4_611_686_018_427_388, 3));
    Lengths62();
    assert Decimal(TWO_62, 0).Value() == x;
    if Shortest(x).Value() == x {
      DecimalUnique(Shortest(x), Decimal(TWO_62, 0));
    }
  }

  lemma WholeByDigits(x: real)
    requires Positive(x) && Shortest(x).quantum >= 0 && Shortest(x).quantum + Length(Shortest(x).sig) <= 21
    ensures WholeLayout(x)
  {
  }

  /** 2^62 fits a 64-bit field and passes the gate, but its canonical text does not. */
  lemma TwoTo62Unstable()
    ensures CanonicalNumber(IntText(TWO_62)).Ok? && !StableInt(TWO_62)
  {
    hide Shortest, Round, WholeLayout, CanonicalNumber, IntText, StableInt, ParseFloat, TrimSpace, Shift;
    TwoTo62Scaled();
    assert IntShift(TWO_52, 10) == TWO_62 by {
      ShiftOfInt(TWO_52, 10);
    }
    assert ShiftedSignificand(TWO_62);
    assert TWO_62 < Limit() by {
      ShiftOfInt(TWO_53, MAX_EXPONENT);
      ShiftGrows(TWO_53 as real, 10, MAX_EXPONENT);
      Shift1024(TWO_53);
    }
    IntTextAccepted(TWO_62);
    CanonicalInt(TWO_62);
    ShortestOfTwoTo62();
  }
}
