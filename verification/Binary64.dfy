/**
 IEEE-754 binary64 as exact arithmetic: a finite value is the real number it
 denotes, and rounding is to nearest with ties to even.
 */
module Binary64 {
  import opened Basics
  import opened Scaling

  const TWO_53: int := 0x20_0000_0000_0000
  const TWO_52: int := 0x10_0000_0000_0000
  const MIN_EXPONENT: int := -1074
  const MAX_EXPONENT: int := 971

  /** x = m * 2^k with a 53-bit significand and an exponent in range. */
  ghost predicate Scaled(x: real, m: nat, k: int) {
    MIN_EXPONENT <= k <= MAX_EXPONENT && m < TWO_53 && x == Shift(m as real, k)
  }

  /** `x` is a non-negative finite binary64 value. */
  ghost predicate Representable(x: real) {
    exists m: nat, k: int :: Scaled(x, m, k)
  }

  /** The least exponent from `k` on at which `v` needs at most 53 bits, or 972 if there is none. */
  function Exponent(v: real, k: int): (e: int)
    requires MIN_EXPONENT <= k <= MAX_EXPONENT + 1
    ensures k <= e <= MAX_EXPONENT + 1
    ensures e <= MAX_EXPONENT ==> v < Shift(TWO_53 as real, e)
    ensures e > k ==> Shift(TWO_53 as real, e - 1) <= v
    decreases MAX_EXPONENT - k
  {
    if k > MAX_EXPONENT || v < Shift(TWO_53 as real, k) then k else Exponent(v, k + 1)
  }

  function RoundEven(s: real): int {
    var f := s.Floor;
    var d := s - f as real;
    if d < 0.5 || (d == 0.5 && f % 2 == 0) then f else f + 1
  }

  function Significand(v: real, e: int): int {
    RoundEven(Shift(v, -e))
  }

  /** The binary64 value nearest to `v`, or None when that is an infinity. */
  function Round(v: real): Option<real>
    requires v >= 0.0
  {
    var e := Exponent(v, MIN_EXPONENT);
    if e > MAX_EXPONENT || (e == MAX_EXPONENT && Significand(v, e) == TWO_53) then None
    else Some(Shift(Significand(v, e) as real, e))
  }

  lemma RoundEvenMonotone(s: real, t: real)
    requires s <= t
    ensures RoundEven(s) <= RoundEven(t)
  {
  }

  lemma RoundEvenInt(n: int)
    ensures RoundEven(n as real) == n
  {
    FloorBounds(n as real, n);
  }

  lemma Unscaled(v: real, e: int)
    ensures Shift(Shift(v, -e), e) == v
    ensures Shift(Shift(v, e), -e) == v
  {
    ShiftShift(v, -e, e);
    ShiftShift(v, e, -e);
  }

  /** The significand of `v` at its exponent is at most 2^53, and at least 2^52 unless subnormal. */
  lemma SignificandBounds(v: real, e: int)
    requires v >= 0.0 && e == Exponent(v, MIN_EXPONENT) <= MAX_EXPONENT
    ensures 0.0 <= Shift(v, -e) < TWO_53 as real
    ensures 0 <= Significand(v, e) <= TWO_53
    ensures e > MIN_EXPONENT ==> TWO_52 as real <= Shift(v, -e) && TWO_52 <= Significand(v, e)
  {
    var s := Shift(v, -e);
    Unscaled(v, e);
    ShiftZero(e);
    ShiftOrder(0.0, s, e);
    ShiftOrder(s, TWO_53 as real, e);
    RoundEvenInt(0);
    RoundEvenInt(TWO_53);
    RoundEvenMonotone(0.0, s);
    RoundEvenMonotone(s, TWO_53 as real);
    if e > MIN_EXPONENT {
      HalfScaled(e);
      ShiftOrder(TWO_52 as real, s, e);
      RoundEvenInt(TWO_52);
      RoundEvenMonotone(TWO_52 as real, s);
    }
  }

  lemma HalfScaled(e: int)
    ensures Shift(TWO_52 as real, e) == Shift(TWO_53 as real, e - 1)
  {
    ShiftShift(TWO_52 as real, 1, e - 1);
    assert Shift(TWO_52 as real, 1) == TWO_53 as real;
  }

  /** Rounding yields a binary64 value. */
  lemma RoundRepresentable(v: real)
    requires v >= 0.0 && Round(v).Some?
    ensures Representable(Round(v).value)
  {
    var e := Exponent(v, MIN_EXPONENT);
    SignificandBounds(v, e);
    var m := Significand(v, e);
    if m < TWO_53 {
      assert Scaled(Round(v).value, m, e);
    } else {
      HalfScaled(e + 1);
      assert Scaled(Round(v).value, TWO_52, e + 1);
    }
  }

  /** m * 2^k = (m * 2^(k - e)) * 2^e for e <= k. */
  lemma Rescale(m: int, k: int, e: int)
    requires e <= k
    ensures Shift(m as real, k) == Shift(IntShift(m, k - e) as real, e)
  {
    ShiftOfInt(m, k - e);
    ShiftShift(m as real, k - e, e);
  }

  lemma ScaledNonNegative(x: real, m: nat, k: int)
    requires Scaled(x, m, k)
    ensures x >= 0.0
  {
    ShiftZero(k);
    ShiftOrder(0.0, m as real, k);
  }

  /** Rounding leaves binary64 values alone. */
  lemma RoundExact(x: real)
    requires Representable(x)
    ensures x >= 0.0 && Round(x) == Some(x)
  {
    var m: nat, k: int :| Scaled(x, m, k);
    ScaledNonNegative(x, m, k);
    var e := Exponent(x, MIN_EXPONENT);
    ExponentAtMost(x, m, k);
    Rescale(m, k, e);
    var n := IntShift(m, k - e);
    Unscaled(n as real, e);
    RoundEvenInt(n);
    ShiftOrder(n as real, TWO_53 as real, e);
  }

  lemma ExponentAtMost(x: real, m: nat, k: int)
    requires Scaled(x, m, k)
    ensures Exponent(x, MIN_EXPONENT) <= k
  {
    var e := Exponent(x, MIN_EXPONENT);
    ShiftOrder(m as real, TWO_53 as real, k);
    if e > k {
      ShiftGrows(TWO_53 as real, k, e - 1);
    }
  }

  lemma {:induction false} ExponentMonotone(v: real, w: real, k: int)
    requires v <= w && MIN_EXPONENT <= k <= MAX_EXPONENT + 1
    ensures Exponent(v, k) <= Exponent(w, k)
    decreases MAX_EXPONENT - k
  {
    if k <= MAX_EXPONENT && v >= Shift(TWO_53 as real, k) {
      ExponentMonotone(v, w, k + 1);
    }
  }

  /** Rounding is monotone, so everything between a number and its rounding rounds alike. */
  lemma RoundMonotone(v: real, w: real)
    requires 0.0 <= v <= w && Round(w).Some?
    ensures Round(v).Some? && Round(v).value <= Round(w).value
  {
    var d, e := Exponent(v, MIN_EXPONENT), Exponent(w, MIN_EXPONENT);
    ExponentMonotone(v, w, MIN_EXPONENT);
    SignificandBounds(v, d);
    SignificandBounds(w, e);
    var m, n := Significand(v, d), Significand(w, e);
    if d == e {
      ShiftOrder(v, w, -d);
      RoundEvenMonotone(Shift(v, -d), Shift(w, -d));
      ShiftOrder(m as real, n as real, d);
    } else {
      ShiftOrder(m as real, TWO_53 as real, d);
      ShiftGrows(TWO_53 as real, d, e - 1);
      HalfScaled(e);
      ShiftOrder(TWO_52 as real, n as real, e);
    }
  }

  function Abs(x: real): real {
    if x < 0.0 then -x else x
  }

  /** No binary64 value lies strictly between the two neighbours of `v` at its exponent. */
  lemma Neighbours(v: real, y: real, e: int)
    requires v >= 0.0 && Representable(y)
    requires e == Exponent(v, MIN_EXPONENT) <= MAX_EXPONENT
    ensures y <= v ==> y <= Shift(Shift(v, -e).Floor as real, e)
    ensures y > v ==> y >= Shift((Shift(v, -e).Floor + 1) as real, e)
  {
    var m: nat, k: int :| Scaled(y, m, k);
    var s := Shift(v, -e);
    var f := s.Floor;
    Unscaled(v, e);
    SignificandBounds(v, e);
    if k >= e {
      Rescale(m, k, e);
      var n := IntShift(m, k - e);
      ShiftOrder(n as real, s, e);
      FloorBounds(s, n);
      ShiftOrder(n as real, f as real, e);
      ShiftOrder((f + 1) as real, n as real, e);
    } else {
      ShiftOrder(m as real, TWO_53 as real, k);
      ShiftGrows(TWO_53 as real, k, e - 1);
      HalfScaled(e);
      FloorBounds(s, TWO_52);
      ShiftOrder(TWO_52 as real, f as real, e);
      ShiftOrder(TWO_52 as real, s, e);
    }
  }

  /** The distances from `v` to its two neighbours, in units of the fraction of its scaled value. */
  lemma NeighbourDistances(v: real, e: int, lo: real, hi: real)
    requires lo == Shift(Shift(v, -e).Floor as real, e)
    requires hi == Shift((Shift(v, -e).Floor + 1) as real, e)
    ensures var d := Shift(v, -e) - Shift(v, -e).Floor as real;
            && lo <= v < hi
            && (d <= 0.5 ==> v - lo <= hi - v)
            && (d >= 0.5 ==> hi - v <= v - lo)
  {
    var s := Shift(v, -e);
    var f := s.Floor;
    var d := s - f as real;
    Unscaled(v, e);
    ShiftSum(f as real, d, e);
    ShiftSum(s, 1.0 - d, e);
    assert s + (1.0 - d) == (f + 1) as real;
    assert f as real + d == s;
    ShiftOrder(0.0, d, e);
    ShiftZero(e);
    ShiftOrder(0.0, 1.0 - d, e);
    ShiftOrder(d, 1.0 - d, e);
    ShiftOrder(1.0 - d, d, e);
  }

  /** Correct rounding: no binary64 value is nearer to `v` than its rounding. */
  lemma RoundNearest(v: real, y: real)
    requires v >= 0.0 && Round(v).Some? && Representable(y)
    ensures Abs(Round(v).value - v) <= Abs(y - v)
  {
    hide Shift, Exponent, Representable;
    var e := Exponent(v, MIN_EXPONENT);
    var f := Shift(v, -e).Floor;
    Neighbours(v, y, e);
    var lo, hi := Shift(f as real, e), Shift((f + 1) as real, e);
    NeighbourDistances(v, e, lo, hi);
    assert Round(v).value == lo ==> v - lo <= hi - v;
    assert Round(v).value != lo ==> Round(v).value == hi && hi - v <= v - lo;
    if y <= v {
      assert v - lo <= v - y;
    } else {
      assert hi - v <= y - v;
    }
  }

  /** When another binary64 value is just as near, the one chosen has an even significand. */
  lemma RoundTiesEven(v: real, y: real) returns (half: nat)
    requires v >= 0.0 && Round(v).Some? && Representable(y)
    requires y != Round(v).value && Abs(Round(v).value - v) == Abs(y - v)
    ensures Round(v).value == Shift((2 * half) as real, Exponent(v, MIN_EXPONENT))
  {
    hide Shift, Exponent, Representable;
    var e := Exponent(v, MIN_EXPONENT);
    var s := Shift(v, -e);
    var f := s.Floor;
    Neighbours(v, y, e);
    var lo, hi := Shift(f as real, e), Shift((f + 1) as real, e);
    NeighbourDistances(v, e, lo, hi);
    TieMeansHalf(v, e);
    SignificandBounds(v, e);
    FloorBounds(s, 0);
    half := Significand(v, e) / 2;
  }

  /** The two neighbours are equally near only to a number half-way between them. */
  lemma TieMeansHalf(v: real, e: int)
    ensures var f := Shift(v, -e).Floor;
            v - Shift(f as real, e) == Shift((f + 1) as real, e) - v ==> Shift(v, -e) - f as real == 0.5
  {
    var s := Shift(v, -e);
    var f := s.Floor;
    var d := s - f as real;
    Unscaled(v, e);
    ShiftSum(f as real, d, e);
    ShiftSum(s, 1.0 - d, e);
    assert s + (1.0 - d) == (f + 1) as real;
    assert f as real + d == s;
    ShiftOrder(d, 1.0 - d, e);
    ShiftOrder(1.0 - d, d, e);
  }

  /** Rounding gives an infinity exactly from half a unit above the greatest finite value on. */
  lemma RoundOverflows(v: real)
    requires v >= 0.0
    ensures Round(v).None? <==> v >= Shift((2 * TWO_53 - 1) as real, MAX_EXPONENT - 1)
  {
    var e := Exponent(v, MIN_EXPONENT);
    var limit := (2 * TWO_53 - 1) as real;
    var half := TWO_53 as real - 0.5;
    ShiftShift(half, 1, MAX_EXPONENT - 1);
    assert Shift(half, 1) == limit;
    ShiftOrder(half, TWO_53 as real, MAX_EXPONENT);
    if e == MAX_EXPONENT {
      var s := Shift(v, -e);
      Unscaled(v, e);
      SignificandBounds(v, e);
      ShiftOrder(half, s, e);
      FloorBounds(s, TWO_53 - 1);
      FloorBounds(s, TWO_53);
    } else if e < MAX_EXPONENT {
      ShiftGrows(TWO_53 as real, e, MAX_EXPONENT - 1);
      ShiftOrder(TWO_53 as real, limit, MAX_EXPONENT - 1);
    } else {
      PastLimit(v);
    }
  }

  lemma PastLimit(v: real)
    requires v >= 0.0 && Exponent(v, MIN_EXPONENT) > MAX_EXPONENT
    ensures v >= Shift(TWO_53 as real, MAX_EXPONENT)
  {
  }

  /** A whole number below 2^53 is a binary64 value. */
  lemma SmallIntRepresentable(n: nat)
    requires n <= TWO_53
    ensures Representable(n as real)
  {
    if n < TWO_53 {
      assert Scaled(n as real, n, 0);
    } else {
      assert Shift(TWO_52 as real, 1) == TWO_53 as real;
      assert Scaled(n as real, TWO_52, 1);
    }
  }

  /** n = m * 2^k for some 53-bit m and k >= 0. */
  ghost predicate ShiftedSignificand(n: nat) {
    exists m: nat, k: nat :: m < TWO_53 && n == IntShift(m, k)
  }

  /** 2^1024, above which rounding gives an infinity. */
  function Limit(): int {
    IntShift(TWO_53, MAX_EXPONENT)
  }

  lemma {:induction false} IntShiftShift(m: int, j: nat, k: nat)
    ensures IntShift(IntShift(m, j), k) == IntShift(m, j + k)
  {
    if k > 0 {
      IntShiftShift(m, j, k - 1);
    }
  }

  lemma ExactHasSignificand(n: nat)
    requires Round(n as real) == Some(n as real)
    ensures ShiftedSignificand(n) && n < Limit()
  {
    hide Round;
    RoundRepresentable(n as real);
    var m: nat, k: int :| Scaled(n as real, m, k);
    if k >= 0 {
      ShiftOfInt(m, k);
      IntShiftOrder(m, TWO_53, k);
      ShiftOfInt(TWO_53, k);
      ShiftOfInt(TWO_53, MAX_EXPONENT);
      ShiftGrows(TWO_53 as real, k, MAX_EXPONENT);
    } else {
      ShiftGrows(m as real, k, 0);
      ShiftOfInt(TWO_53, MAX_EXPONENT);
      ShiftGrows(TWO_53 as real, 0, MAX_EXPONENT);
      assert n < TWO_53 && n == IntShift(n, 0);
    }
  }

  lemma SignificandIsExact(n: nat)
    requires ShiftedSignificand(n) && n < Limit()
    ensures Round(n as real) == Some(n as real)
  {
    hide Round;
    var m: nat, k: nat :| m < TWO_53 && n == IntShift(m, k);
    if k <= MAX_EXPONENT {
      ShiftOfInt(m, k);
      assert Scaled(n as real, m, k);
    } else {
      var h := IntShift(m, k - MAX_EXPONENT);
      IntShiftShift(m, k - MAX_EXPONENT, MAX_EXPONENT);
      IntShiftOrder(h, TWO_53, MAX_EXPONENT);
      ShiftOfInt(m, k - MAX_EXPONENT);
      ShiftGrows(m as real, 0, k - MAX_EXPONENT);
      ShiftOfInt(h, MAX_EXPONENT);
      assert Scaled(n as real, h, MAX_EXPONENT);
    }
    RoundExact(n as real);
  }

  /** The exactness gate: a whole number survives conversion iff 53 bits and a left shift give it. */
  lemma ExactIntegers(n: nat)
    ensures Round(n as real) == Some(n as real) <==> ShiftedSignificand(n) && n < Limit()
  {
    hide Round, ShiftedSignificand, Limit;
    if Round(n as real) == Some(n as real) {
      ExactHasSignificand(n);
    }
    if ShiftedSignificand(n) && n < Limit() {
      SignificandIsExact(n);
    }
  }
}
