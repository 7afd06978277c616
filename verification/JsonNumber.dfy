/**
 `canonicalNumber`: the exactness gate for integer lexemes, conversion to
 binary64, and the shortest text in the layouts of section 3.2.2.3 of RFC 8785.
 */
module JsonNumber {
  import opened Basics
  import opened Binary64
  import opened Numerals
  import opened Scaling
  import opened ShortestDecimal

  predicate IsSpace(b: byte) {
    0x09 <= b <= 0x0D || b == 0x20
  }

  function TrimSpace(s: GoString): GoString
    decreases |s|
  {
    if s != [] && IsSpace(s[0]) then TrimSpace(s[1..])
    else if s != [] && IsSpace(s[|s| - 1]) then TrimSpace(s[..|s| - 1])
    else s
  }

  lemma MagnitudeNonNegative(n: Number)
    requires n.Valid()
    ensures n.Magnitude() >= 0.0
  {
    var e := n.exponent - |n.fraction|;
    TensZero(e);
    TensOrder(0.0, NatOf(n.whole + n.fraction) as real, e);
  }

  /** The binary64 magnitude of a scanned number, as `strconv.ParseFloat` finds it. */
  function ParseFloat(s: GoString): Result<(bool, real)> {
    match ScanNumber(s, false)
    case None => Err(InvalidNumber)
    case Some((n, rest)) =>
      if rest != [] then Err(InvalidNumber)
      else
        MagnitudeNonNegative(n);
        match Round(n.Magnitude())
        case None => Err(NumberRange)
        case Some(x) => Ok((n.negative, x))
  }

  function LexemeDigits(s: GoString): (ds: GoString)
    requires IsIntegerLexeme(s)
    ensures AllDigits(ds) && ds != []
  {
    if StartsWith(s, MINUS) then s[1..] else s
  }

  /** The gate: an integer lexeme must convert to binary64 and back unchanged. */
  function IntegerGate(s: GoString): Option<Error> {
    if !IsIntegerLexeme(s) then None
    else
      var n := NatOf(LexemeDigits(s)) as real;
      match Round(n)
      case None => Some(NumberRange)
      case Some(x) => if x == n then None else Some(InexactInteger)
  }

  /** The text of a non-zero binary64 value. */
  function Format(negative: bool, x: real): GoString
    requires Positive(x)
  {
    var d := Shortest(x);
    var ds := Digits(d.sig);
    Layout(negative, ds, d.quantum + |ds| - 1)
  }

  function CanonicalNumber(input: GoString): Result<GoString> {
    var s := TrimSpace(input);
    if s == [] then Err(EmptyInput)
    else if IntegerGate(s).Some? then Err(IntegerGate(s).value)
    else
      var (negative, x) :- ParseFloat(s);
      ParsedRepresentable(s);
      if x == 0.0 then Ok([ZERO]) else Ok(Format(negative, x))
  }

  lemma ParsedRepresentable(s: GoString)
    requires ParseFloat(s).Ok?
    ensures Representable(ParseFloat(s).value.1)
    ensures ParseFloat(s).value.1 >= 0.0
  {
    var (n, rest) := ScanNumber(s, false).value;
    MagnitudeNonNegative(n);
    RoundRepresentable(n.Magnitude());
    RoundExact(Round(n.Magnitude()).value);
  }

  lemma {:induction false} DigitsLength(n: nat)
    ensures |Digits(n)| == Length(n)
    ensures n % 10 != 0 ==> Digits(n)[|Digits(n)| - 1] != ZERO
  {
    if n >= 10 {
      DigitsLength(n / 10);
    }
  }

  /** Formatted text scans, in either grammar, to a number that reads back as `x`. */
  lemma FormatScans(negative: bool, x: real, rest: GoString, strict: bool)
    requires Positive(x) && Delimited(rest)
    ensures var r := ScanNumber(Format(negative, x) + rest, strict);
            && r.Some? && r.value.0.negative == negative && r.value.1 == rest
            && r.value.0.Magnitude() == Shortest(x).Value() >= 0.0
            && Round(Shortest(x).Value()) == Some(x)
  {
    hide ScanNumber, Layout, Round, Shortest, Tens;
    var d := Shortest(x);
    var ds := Digits(d.sig);
    var e := d.quantum + |ds| - 1;
    DigitsLength(d.sig);
    LayoutScans(negative, ds, e, rest, strict);
    NatOfDigits(d.sig);
    assert e - |ds| + 1 == d.quantum;
    ShortestReadsBack(x);
  }

  lemma BodyEnds(ds: GoString, e: int)
    requires AllDigits(ds) && ds != []
    ensures var body := Body(ds, e); body != [] && IsDigit(body[0]) && IsDigit(body[|body| - 1])
  {
    if !(-6 <= e < 21) {
      var x := ExponentText(e);
      assert Body(ds, e)[|Body(ds, e)| - 1] == x[|x| - 1];
    }
  }

  lemma TrimmedEnds(s: GoString)
    requires s != [] && !IsSpace(s[0]) && !IsSpace(s[|s| - 1])
    ensures TrimSpace(s) == s
  {
  }

  lemma SignedEnds(negative: bool, body: GoString)
    requires body != [] && IsDigit(body[0]) && IsDigit(body[|body| - 1])
    ensures TrimSpace(SignText(negative) + body) == SignText(negative) + body != []
  {
    TrimmedEnds(SignText(negative) + body);
  }

  lemma FormatTrimmed(negative: bool, x: real)
    requires Positive(x)
    ensures TrimSpace(Format(negative, x)) == Format(negative, x) != []
  {
    hide Shortest, Digits, TrimSpace, Body;
    var d := Shortest(x);
    var ds := Digits(d.sig);
    var e := d.quantum + |ds| - 1;
    BodyEnds(ds, e);
    SignedEnds(negative, Body(ds, e));
  }

  /** The value of a number text that `canonicalNumber` accepts. */
  function ValueOf(s: GoString): real
    requires CanonicalNumber(s).Ok?
  {
    ParseFloat(TrimSpace(s)).value.1
  }

  /** Negative and not zero. */
  predicate IsNegative(s: GoString)
    requires CanonicalNumber(s).Ok?
  {
    ParseFloat(TrimSpace(s)).value.0 && ValueOf(s) != 0.0
  }

  /** The digits that print `x` are laid out without point or exponent. */
  predicate WholeLayout(x: real)
    requires Positive(x)
  {
    var d := Shortest(x);
    d.quantum >= 0 && d.quantum + Length(d.sig) <= 21
  }

  /** Printing `x` and reading it through the gate succeeds. */
  predicate Stable(x: real)
    requires x == 0.0 || Positive(x)
  {
    x != 0.0 && WholeLayout(x) ==> Shortest(x).Value() == x
  }

  lemma ValueDomain(s: GoString)
    requires CanonicalNumber(s).Ok?
    ensures ValueOf(s) == 0.0 || Positive(ValueOf(s))
  {
    ParsedRepresentable(TrimSpace(s));
  }

  lemma ZeroText()
    ensures ScanNumber([ZERO], false) == Some((Number(false, [ZERO], [], 0), []))
    ensures CanonicalNumber([ZERO]) == Ok([ZERO]) && ParseFloat([ZERO]) == Ok((false, 0.0))
  {
    hide Round, Shortest, Tens, ScanExponent;
    ScanExponentText(0, []);
    ScanAssembled(false, [ZERO], [], [], false);
    assert SignText(false) + ([ZERO] + (FractionText([]) + [])) == [ZERO];
    assert [ZERO] + [] == [ZERO] && [ZERO][..0] == [];
    assert NatOf([ZERO]) == 0;
    SmallIntRepresentable(0);
    RoundExact(0.0);
    TensZero(0);
  }

  /** The output denotes the same binary64 value, with the same sign. */
  lemma CanonicalReads(s: GoString)
    requires CanonicalNumber(s).Ok?
    ensures ParseFloat(CanonicalNumber(s).value) == Ok((IsNegative(s), ValueOf(s)))
    ensures TrimSpace(CanonicalNumber(s).value) == CanonicalNumber(s).value != []
  {
    ValueDomain(s);
    if ValueOf(s) == 0.0 {
      ZeroText();
    } else {
      FormatScans(IsNegative(s), ValueOf(s), [], false);
      FormatTrimmed(IsNegative(s), ValueOf(s));
      var o := CanonicalNumber(s).value;
      assert o + [] == o;
    }
  }

  lemma SignedDigits(negative: bool, ds: GoString)
    requires AllDigits(ds) && ds != []
    ensures IsIntegerLexeme(SignText(negative) + ds) && LexemeDigits(SignText(negative) + ds) == ds
  {
    HeadTail(MINUS, ds, []);
    assert [] + ds == ds;
  }

  lemma WholeBodySpells(negative: bool, ds: GoString, quantum: int)
    requires Normalised(ds) && 0 <= quantum && quantum + |ds| <= 21
    ensures var o := SignText(negative) + Body(ds, quantum + |ds| - 1);
            && IsIntegerLexeme(o)
            && NatOf(LexemeDigits(o)) as real == Tens(NatOf(ds) as real, quantum)
  {
    hide Body, NatOf, Tens, IsIntegerLexeme, LexemeDigits, SignText, Zeros, IntTens;
    DecimalForm(ds, quantum + |ds| - 1);
    SignedDigits(negative, ds + Zeros(quantum));
    TrailingZeros(ds, quantum);
  }

  /** A whole layout spells the value of the shortest decimal. */
  lemma WholeLayoutSpells(negative: bool, x: real)
    requires Positive(x)
    ensures IsIntegerLexeme(Format(negative, x)) <==> WholeLayout(x)
    ensures WholeLayout(x) ==> NatOf(LexemeDigits(Format(negative, x))) as real == Shortest(x).Value()
  {
    hide Shortest, Tens, NatOf, Digits, Layout, Body, IsIntegerLexeme, LexemeDigits;
    var d := Shortest(x);
    var ds := Digits(d.sig);
    var e := d.quantum + |ds| - 1;
    DigitsLength(d.sig);
    LayoutForm(negative, ds, e);
    SignedBody(negative, ds, e);
    if WholeLayout(x) {
      WholeBodySpells(negative, ds, d.quantum);
      NatOfDigits(d.sig);
    }
  }

  /** What the gate decides on formatted text. */
  lemma FormatGate(negative: bool, x: real)
    requires Positive(x)
    ensures IntegerGate(Format(negative, x)) == if Stable(x) then None else Some(InexactInteger)
  {
    WholeLayoutSpells(negative, x);
    ShortestReadsBack(x);
    hide Format, IsIntegerLexeme, Shortest, Round, NatOf, WholeLayout, LexemeDigits;
  }

  /**
   Canonical text canonicalises to itself exactly when it is not a bare integer
   that differs from the binary64 value it stands for; otherwise the gate
   refuses it.
   */
  lemma NumberIdempotent(s: GoString)
    requires CanonicalNumber(s).Ok?
    ensures ValueOf(s) == 0.0 || Positive(ValueOf(s))
    ensures CanonicalNumber(CanonicalNumber(s).value)
            == if Stable(ValueOf(s)) then CanonicalNumber(s) else Err(InexactInteger)
  {
    ValueDomain(s);
    CanonicalReads(s);
    if ValueOf(s) == 0.0 {
      ZeroText();
    } else {
      FormatGate(IsNegative(s), ValueOf(s));
    }
  }

  /** Two numbers share their canonical text only if they share sign and binary64 value. */
  lemma CanonicalInjective(s: GoString, t: GoString)
    requires CanonicalNumber(s).Ok? && CanonicalNumber(t) == CanonicalNumber(s)
    ensures ValueOf(s) == ValueOf(t) && IsNegative(s) == IsNegative(t)
  {
    CanonicalReads(s);
    CanonicalReads(t);
  }

  /** Every value up to 2^53 is stable. */
  lemma SmallStable(x: real)
    requires Positive(x) && x <= TWO_53 as real
    ensures Stable(x)
  {
    hide Shortest, Round, IntTens, Representable;
    var d := Shortest(x);
    if WholeLayout(x) {
      ShortestReadsBack(x);
      TensOfInt(d.sig, d.quantum);
      var v: nat := IntTens(d.sig, d.quantum);
      assert d.Value() == v as real;
      SmallIntRepresentable(TWO_53);
      RoundExact(TWO_53 as real);
      if v <= TWO_53 {
        SmallIntRepresentable(v);
        RoundExact(v as real);
      } else {
        RoundMonotone(TWO_53 as real, v as real);
        ShortestOfInt(TWO_53);
      }
    }
  }

  lemma PowerOfTen17()
    ensures TWO_53 < IntTens(1, 17)
  {
    TwoTo53();
    TensOfInt(1, 16);
    PowerPositive(16);
    assert IntTens(1, 17) == 10 * IntTens(1, 16);
  }

  /** A whole number up to 2^53 prints as its decimal digits. */
  lemma FormatOfInt(negative: bool, n: nat)
    requires 0 < n <= TWO_53
    ensures Positive(n as real)
    ensures Format(negative, n as real) == SignText(negative) + Digits(n)
  {
    hide Shortest, Tens, IntTens, NatOf, Digits, ScanNumber;
    ShortestOfInt(n);
    var d := Shortest(n as real);
    var ds := Digits(d.sig);
    TensOfInt(d.sig, d.quantum);
    DigitsLength(d.sig);
    var whole := ds + Zeros(d.quantum);
    TrailingZeros(ds, d.quantum);
    NatOfDigits(d.sig);
    assert NatOf(whole) == n && whole[0] == ds[0];
    DigitsOfNat(whole);
    DigitsLength(n);
    PowerOfTen17();
    LengthAtMost(n, 17);
    LayoutForm(negative, ds, d.quantum + |ds| - 1);
  }

  lemma IntTextShape(n: int)
    ensures var m: nat := if n < 0 then -n else n;
            && IntText(n) == SignText(n < 0) + Digits(m)
            && TrimSpace(IntText(n)) == IntText(n) != []
            && IsIntegerLexeme(IntText(n)) && LexemeDigits(IntText(n)) == Digits(m)
            && NatOf(Digits(m)) == m
  {
    var m: nat := if n < 0 then -n else n;
    NatOfDigits(m);
    assert [] + Digits(m) == Digits(m);
    SignedEnds(n < 0, Digits(m));
    HeadTail(MINUS, Digits(m), []);
  }

  lemma IntTextScans(n: int, rest: GoString, strict: bool)
    requires Delimited(rest)
    ensures var m: nat := if n < 0 then -n else n;
            ScanNumber(IntText(n) + rest, strict) == Some((Number(n < 0, Digits(m), [], 0), rest))
  {
    var m: nat := if n < 0 then -n else n;
    var ds := Digits(m);
    IntTextShape(n);
    ScanExponentText(0, rest);
    DigitsLength(m);
    assert FractionText([]) + rest == rest;
    Bracket(SignText(n < 0), ds, [], rest);
    assert ds + [] == ds && [] + rest == rest;
    ScanAssembled(n < 0, ds, [], rest, strict);
  }

  /** What the gate and the parser make of the decimal text of an integer. */
  lemma IntTextReads(n: int)
    ensures var m: nat := if n < 0 then -n else n;
            && (ParseFloat(IntText(n)) == match Round(m as real)
                                          case None => Err(NumberRange)
                                          case Some(x) => Ok((n < 0, x)))
            && (IntegerGate(IntText(n)) == match Round(m as real)
                                           case None => Some(NumberRange)
                                           case Some(x) => if x == m as real then None else Some(InexactInteger))
  {
    var m: nat := if n < 0 then -n else n;
    IntTextShape(n);
    IntTextScans(n, [], false);
    assert IntText(n) + [] == IntText(n) && Digits(m) + [] == Digits(m);
    assert Number(n < 0, Digits(m), [], 0).Magnitude() == m as real;
  }

  lemma IntTextGate(n: int)
    ensures var m: nat := if n < 0 then -n else n;
            && (CanonicalNumber(IntText(n)).Ok? <==> Round(m as real) == Some(m as real))
            && (CanonicalNumber(IntText(n)).Ok? ==> ParseFloat(TrimSpace(IntText(n))) == Ok((n < 0, m as real)))
  {
    hide IntText, TrimSpace, Round, ParseFloat, IntegerGate, Digits, IsIntegerLexeme, LexemeDigits, Format;
    IntTextShape(n);
    IntTextReads(n);
  }

  /** An integer is accepted exactly when binary64 holds it: 53 significant bits, below 2^1024. */
  lemma IntTextAccepted(n: int)
    ensures var m: nat := if n < 0 then -n else n;
            CanonicalNumber(IntText(n)).Ok? <==> ShiftedSignificand(m) && m < Limit()
    ensures CanonicalNumber(IntText(n)).Ok? ==>
              ValueOf(IntText(n)) == Abs(n as real) && (IsNegative(IntText(n)) <==> n < 0)
  {
    IntTextGate(n);
    ExactIntegers(if n < 0 then -n else n);
  }

  /** Accepted integers with the same canonical text are equal. */
  lemma IntTextInjective(a: int, b: int)
    requires CanonicalNumber(IntText(a)).Ok?
    requires CanonicalNumber(IntText(a)) == CanonicalNumber(IntText(b))
    ensures a == b
  {
    IntTextAccepted(a);
    IntTextAccepted(b);
    CanonicalInjective(IntText(a), IntText(b));
  }

  /** Integers of magnitude up to 2^53 are their own canonical text. */
  lemma SmallIntText(n: int)
    requires -TWO_53 <= n <= TWO_53
    ensures CanonicalNumber(IntText(n)) == Ok(IntText(n))
  {
    var m: nat := if n < 0 then -n else n;
    IntTextShape(n);
    IntTextReads(n);
    SmallIntRepresentable(m);
    RoundExact(m as real);
    if m > 0 {
      FormatOfInt(n < 0, m);
    }
  }

  lemma LastDigit(ds: GoString)
    requires Normalised(ds)
    ensures NatOf(ds) > 0 && NatOf(ds) % 10 != 0
  {
    NatPositive(ds);
  }

  /** Equal layouts come from equal normalised triples. */
  lemma LayoutInjective(n: bool, ds: GoString, e: int, m: bool, cs: GoString, f: int)
    requires Normalised(ds) && Normalised(cs)
    requires Layout(n, ds, e) == Layout(m, cs, f)
    ensures n == m && ds == cs && e == f
  {
    hide ScanNumber, Layout, Tens, NatOf;
    LayoutScans(n, ds, e, [], false);
    LayoutScans(m, cs, f, [], false);
    LastDigit(ds);
    LastDigit(cs);
    var c, d := Decimal(NatOf(ds), e - |ds| + 1), Decimal(NatOf(cs), f - |cs| + 1);
    assert c.Value() == d.Value();
    DecimalUnique(c, d);
    DigitsOfNat(ds);
    DigitsOfNat(cs);
  }

  /** The integer that an integer lexeme spells, as `strconv.ParseInt` reads it. */
  function IntOf(s: GoString): int
    requires IsIntegerLexeme(s)
  {
    var n: int := NatOf(LexemeDigits(s));
    if StartsWith(s, MINUS) then -n else n
  }

  /** `n` is its own canonical text. */
  predicate StableInt(n: int) {
    CanonicalNumber(IntText(n)) == Ok(IntText(n))
  }

  lemma TenTo19()
    ensures 0x1_0000_0000_0000_0000 as real < Tens(1.0, 20)
    ensures 0x8000_0000_0000_0000 as real < Tens(1.0, 19)
  {
    TensOfInt(1, 9);
    TensOfInt(1_000_000_000, 9);
    assert IntTens(1, 9) == 1_000_000_000;
    assert IntTens(1_000_000_000, 9) == 1_000_000_000_000_000_000;
    TensTens(1.0, 9, 9);
    TensStep(1.0, 18);
    TensStep(1.0, 19);
  }

  /** The text of an exact 64-bit integer is a sign and the digits of its shortest decimal. */
  lemma ExactIntFormat(negative: bool, m: nat)
    requires 0 < m <= 0x8000_0000_0000_0000 && Round(m as real) == Some(m as real)
    ensures Positive(m as real) && WholeLayout(m as real)
    ensures var o := Format(negative, m as real);
            && IsIntegerLexeme(o) && o == SignText(negative) + LexemeDigits(o)
            && LexemeDigits(o)[0] != ZERO && (StartsWith(o, MINUS) <==> negative)
            && NatOf(LexemeDigits(o)) as real == Shortest(m as real).Value()
  {
    RoundRepresentable(m as real);
    TenTo19();
    ShortestOfExactInt(m);
    var x := m as real;
    WholeLayoutSpells(negative, x);
    var d := Shortest(x);
    var ds := Digits(d.sig);
    var e := d.quantum + |ds| - 1;
    hide Shortest, NatOf, Digits, Round, IsIntegerLexeme;
    DigitsLength(d.sig);
    LayoutForm(negative, ds, e);
    assert Format(negative, x) == SignText(negative) + Body(ds, e);
  }

  /** A signed digit string without leading zero spells `n` exactly when it is the text of `n`. */
  lemma SpelledInt(n: int, o: GoString)
    requires n != 0 && IsIntegerLexeme(o) && o == SignText(n < 0) + LexemeDigits(o)
    requires LexemeDigits(o)[0] != ZERO && (StartsWith(o, MINUS) <==> n < 0)
    ensures var m: nat := if n < 0 then -n else n;
            && (IntOf(o) == n <==> NatOf(LexemeDigits(o)) == m)
            && (o == IntText(n) <==> NatOf(LexemeDigits(o)) == m)
  {
    var m: nat := if n < 0 then -n else n;
    var ds := LexemeDigits(o);
    IntTextShape(n);
    hide IsIntegerLexeme, IntText;
    NatPositive(ds);
    if NatOf(ds) == m {
      DigitsOfNat(ds);
    }
  }

  lemma ZeroIsStable()
    ensures IntText(0) == [ZERO] && StableInt(0)
    ensures IsIntegerLexeme([ZERO]) && IntOf([ZERO]) == 0
    ensures ValueOf([ZERO]) == 0.0
  {
    SmallIntText(0);
    ZeroText();
    TrimmedEnds([ZERO]);
    assert LexemeDigits([ZERO]) == [ZERO] && [ZERO][..0] == [];
    assert NatOf([ZERO]) == 0;
  }

  lemma NonZeroExact(n: int, m: nat)
    requires n != 0 && m == (if n < 0 then -n else n) && CanonicalNumber(IntText(n)).Ok?
    ensures Round(m as real) == Some(m as real) && Positive(m as real)
  {
    IntTextGate(n);
    RoundRepresentable(m as real);
  }

  lemma NonZeroText(n: int, m: nat)
    requires n != 0 && m == (if n < 0 then -n else n) && Positive(m as real)
    requires CanonicalNumber(IntText(n)).Ok?
    ensures ValueOf(IntText(n)) == m as real
    ensures CanonicalNumber(IntText(n)) == Ok(Format(n < 0, m as real))
  {
    IntTextShape(n);
    IntTextGate(n);
    hide ParseFloat, Format, IntText, IntegerGate;
  }

  /** Canonical text of an accepted 64-bit integer spells that integer exactly when it is stable. */
  lemma CanonicalInt(n: int)
    requires -0x8000_0000_0000_0000 <= n < 0x8000_0000_0000_0000
    requires CanonicalNumber(IntText(n)).Ok?
    ensures ValueOf(IntText(n)) == 0.0 || Positive(ValueOf(IntText(n)))
    ensures var o := CanonicalNumber(IntText(n)).value;
            && IsIntegerLexeme(o)
            && (IntOf(o) == n <==> StableInt(n))
            && (Stable(ValueOf(IntText(n))) <==> StableInt(n))
  {
    hide Format, ParseFloat, NatOf, Digits, Shortest, TrimSpace, IntText, Round, CanonicalNumber, IsIntegerLexeme;
    if n == 0 {
      ZeroIsStable();
    } else {
      var m: nat := if n < 0 then -n else n;
      NonZeroExact(n, m);
      NonZeroText(n, m);
      ExactIntFormat(n < 0, m);
      SpelledInt(n, CanonicalNumber(IntText(n)).value);
    }
  }
}
