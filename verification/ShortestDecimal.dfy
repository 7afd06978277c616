/**
 The shortest decimal that reads back as a given binary64 value, as
 `strconv.FormatFloat(x, 'e', -1, 64)` produces it.
 */
module ShortestDecimal {
  import opened Basics
  import opened Binary64
  import opened Scaling

  /** sig * 10^quantum. */
  datatype Decimal = Decimal(sig: nat, quantum: int) {
    function Value(): real {
      Tens(sig as real, quantum)
    }
  }

  const LOW: int := MIN_EXPONENT
  const HIGH: int := 1024

  /** The least e from `k` on with x < 10^(e + 1), or HIGH. */
  function Magnitude(x: real, k: int): (e: int)
    requires LOW <= k <= HIGH
    ensures k <= e <= HIGH
    ensures e < HIGH ==> x < Tens(1.0, e + 1)
    ensures e > k ==> Tens(1.0, e) <= x
    decreases HIGH - k
  {
    if k == HIGH || x < Tens(1.0, k + 1) then k else Magnitude(x, k + 1)
  }

  /** `d` reads back as `x`. */
  predicate ReadsBack(d: Decimal, x: real)
  {
    d.Value() >= 0.0 && Round(d.Value()) == Some(x)
  }

  /** The largest multiple of 10^quantum that is at most `x`. */
  function Below(x: real, quantum: int): (d: Decimal)
    requires x >= 0.0
  {
    FloorNonNegative(x, quantum);
    Decimal(Tens(x, -quantum).Floor, quantum)
  }

  lemma FloorNonNegative(x: real, quantum: int)
    requires x >= 0.0
    ensures Tens(x, -quantum).Floor >= 0
  {
    TensZero(-quantum);
    TensOrder(0.0, x, -quantum);
    FloorBounds(Tens(x, -quantum), 0);
  }

  function Above(x: real, quantum: int): Decimal
    requires x >= 0.0
  {
    Decimal(Below(x, quantum).sig + 1, quantum)
  }

  /** Of the two neighbours of `x` on a decimal grid, the one to print. */
  function Nearer(x: real, quantum: int): Decimal
    requires x >= 0.0
  {
    var lo, hi := Below(x, quantum), Above(x, quantum);
    var d := Tens(x, -quantum) - lo.sig as real;
    if !ReadsBack(hi, x) then lo
    else if !ReadsBack(lo, x) then hi
    else if d < 0.5 || (d == 0.5 && lo.sig % 2 == 0) then lo else hi
  }

  /** The first grid from 10^quantum down on which a neighbour of `x` reads back. */
  function Search(x: real, quantum: int): (d: Decimal)
    requires x >= 0.0
    decreases quantum - LOW
  {
    if quantum <= LOW || Stops(x, quantum) then Nearer(x, quantum)
    else Search(x, quantum - 1)
  }

  /** Trailing zeros of the significand moved into the quantum. */
  function Strip(d: Decimal): (r: Decimal)
    requires d.sig > 0
    ensures r.sig > 0 && r.sig % 10 != 0
    ensures r.quantum >= d.quantum
    decreases d.sig
  {
    if d.sig % 10 == 0 then Strip(Decimal(d.sig / 10, d.quantum + 1)) else d
  }

  lemma {:induction false} StripValue(d: Decimal)
    requires d.sig > 0
    ensures Strip(d).Value() == d.Value()
    decreases d.sig
  {
    if d.sig % 10 == 0 {
      var h := d.sig / 10;
      StripValue(Decimal(h, d.quantum + 1));
      TensTens(h as real, 1, d.quantum);
      assert Tens(h as real, 1) == d.sig as real;
    }
  }

  /** x is a positive finite binary64 value. */
  ghost predicate Positive(x: real) {
    x > 0.0 && Representable(x)
  }

  lemma {:induction false} TwosBelowTens(x: real, k: nat)
    requires x >= 0.0
    ensures 0.0 <= Shift(x, k) <= Tens(x, k)
  {
    if k > 0 {
      TwosBelowTens(x, k - 1);
    }
  }

  lemma {:induction false} FivesGrow(n: nat, k: nat)
    ensures IntFives(n, k) >= n
  {
    if k > 0 {
      FivesGrow(n, k - 1);
    }
  }

  lemma TwoTo53()
    ensures TWO_53 as real <= Tens(1.0, 16)
  {
    TensOfInt(1, 16);
    TensOfInt(100_000_000, 8);
    assert IntTens(1, 8) == 100_000_000;
    TensTens(1.0, 8, 8);
    TensOfInt(1, 8);
    assert IntTens(100_000_000, 8) == 10_000_000_000_000_000;
  }

  /** No finite value reaches 10^987. */
  lemma SignificandTimesLimit()
    ensures Shift(TWO_53 as real, MAX_EXPONENT) < Tens(1.0, HIGH)
  {
    TwoTo53();
    TwosBelowTens(TWO_53 as real, MAX_EXPONENT);
    TensOrder(TWO_53 as real, Tens(1.0, 16), MAX_EXPONENT);
    TensTens(1.0, 16, MAX_EXPONENT);
    TensGrows(1.0, 16 + MAX_EXPONENT, HIGH);
    TensOrder(0.0, 1.0, 16 + MAX_EXPONENT);
    TensZero(16 + MAX_EXPONENT);
  }

  lemma SmallestAboveLow()
    ensures Tens(1.0, LOW) <= Shift(1.0, LOW)
  {
    HalvesAreTenths(1, LOW);
    FivesGrow(1, -LOW);
    TensOrder(1.0, IntFives(1, -LOW) as real, LOW);
  }

  /** Every positive finite value lies in the range that `Magnitude` searches. */
  lemma PositiveBounds(x: real)
    requires Positive(x)
    ensures Tens(1.0, LOW) <= x < Tens(1.0, HIGH)
  {
    var m: nat, k: int :| Scaled(x, m, k);
    ShiftZero(k);
    assert m > 0;
    ShiftOrder(1.0, m as real, k);
    ShiftGrows(1.0, LOW, k);
    SmallestAboveLow();
    ShiftOrder(m as real, TWO_53 as real, k);
    ShiftGrows(TWO_53 as real, k, MAX_EXPONENT);
    SignificandTimesLimit();
  }

  lemma MagnitudeBounds(x: real)
    requires Positive(x)
    ensures var e := Magnitude(x, LOW); Tens(1.0, e) <= x < Tens(1.0, e + 1)
  {
    PositiveBounds(x);
    var e := Magnitude(x, LOW);
    if e == HIGH {
      TensGrows(1.0, HIGH, HIGH + 1);
    }
  }

  /** On the finest grid `x` itself is a grid point. */
  lemma FinestGridExact(x: real)
    requires Positive(x)
    ensures ReadsBack(Below(x, LOW), x)
  {
    var m: nat, k: int :| Scaled(x, m, k);
    Rescale(m, k, LOW);
    var n := IntShift(m, k - LOW);
    HalvesAreTenths(n, LOW);
    var f := IntFives(n, -LOW);
    TensTens(f as real, LOW, -LOW);
    FloorBounds(f as real, f);
    assert Below(x, LOW) == Decimal(f, LOW);
    RoundExact(x);
  }

  /** On a grid at or below its magnitude the neighbours of `x` have a bounded number of digits. */
  lemma GridBounds(x: real, e: int, quantum: int)
    requires x >= 0.0 && Tens(1.0, e) <= x < Tens(1.0, e + 1) && quantum <= e
    ensures IntTens(1, e - quantum) <= Below(x, quantum).sig < IntTens(1, e - quantum + 1)
    ensures Below(x, quantum).sig >= 1
    ensures Below(x, quantum).Value() <= x < Above(x, quantum).Value()
  {
    var s := Tens(x, -quantum);
    FloorNonNegative(x, quantum);
    TensTens(x, -quantum, quantum);
    TensTens(1.0, e, -quantum);
    TensTens(1.0, e + 1, -quantum);
    TensOrder(Tens(1.0, e), x, -quantum);
    TensOrder(x, Tens(1.0, e + 1), -quantum);
    TensOfInt(1, e - quantum);
    TensOfInt(1, e - quantum + 1);
    FloorBounds(s, IntTens(1, e - quantum));
    FloorBounds(s, IntTens(1, e - quantum + 1));
    PowerPositive(e - quantum);
    var f := s.Floor;
    TensOrder(f as real, s, quantum);
    TensOrder(s, (f + 1) as real, quantum);
  }

  lemma {:induction false} PowerPositive(k: nat)
    ensures IntTens(1, k) >= 1
  {
    if k > 0 {
      PowerPositive(k - 1);
    }
  }

  predicate Stops(x: real, quantum: int)
    requires x >= 0.0
  {
    ReadsBack(Below(x, quantum), x) || ReadsBack(Above(x, quantum), x)
  }

  /** `d` is a neighbour of `x` that reads back, on the first grid from `start` down that has one. */
  ghost predicate Found(d: Decimal, x: real, e: int, start: int)
    requires x >= 0.0
  {
    && LOW <= d.quantum <= start <= e
    && ReadsBack(d, x)
    && (d == Below(x, d.quantum) || d == Above(x, d.quantum))
    && 1 <= d.sig <= IntTens(1, e - d.quantum + 1)
    && forall q :: d.quantum < q <= start ==> !Stops(x, q)
  }

  lemma NearerFound(x: real, e: int, quantum: int)
    requires Positive(x) && LOW <= quantum <= e && Stops(x, quantum)
    requires Tens(1.0, e) <= x < Tens(1.0, e + 1)
    ensures Found(Nearer(x, quantum), x, e, quantum)
  {
    hide Round, Tens;
    GridBounds(x, e, quantum);
  }

  /** The search ends on a decimal that reads back, on the first grid that has one. */
  lemma {:induction false} SearchFound(x: real, e: int, quantum: int)
    requires Positive(x) && LOW <= quantum <= e
    requires Tens(1.0, e) <= x < Tens(1.0, e + 1)
    ensures Found(Search(x, quantum), x, e, quantum)
    decreases quantum - LOW
  {
    hide Round, Tens, Below, Above, ReadsBack, Nearer;
    if quantum == LOW {
      FinestGridExact(x);
    }
    if Stops(x, quantum) {
      NearerFound(x, e, quantum);
    } else {
      SearchFound(x, e, quantum - 1);
    }
  }

  function Shortest(x: real): (d: Decimal)
    requires Positive(x)
    ensures d.sig > 0 && d.sig % 10 != 0
  {
    var e := Magnitude(x, LOW);
    assert Search(x, e).sig > 0 by {
      MagnitudeBounds(x);
      SearchFound(x, e, e);
    }
    Strip(Search(x, e))
  }

  /** The shortest decimal reads back. */
  lemma ShortestReadsBack(x: real)
    requires Positive(x)
    ensures ReadsBack(Shortest(x), x)
  {
    var e := Magnitude(x, LOW);
    MagnitudeBounds(x);
    SearchFound(x, e, e);
    StripValue(Search(x, e));
  }

  /** The number of decimal digits of n. */
  function Length(n: nat): nat {
    if n < 10 then 1 else 1 + Length(n / 10)
  }

  lemma {:induction false} LengthBounds(n: nat)
    requires n > 0
    ensures IntTens(1, Length(n) - 1) <= n < IntTens(1, Length(n))
  {
    if n >= 10 {
      LengthBounds(n / 10);
    }
  }

  lemma {:induction false} LengthAtMost(n: nat, k: nat)
    requires 0 < n < IntTens(1, k)
    ensures Length(n) <= k
  {
    if n >= 10 {
      assert k > 0;
      LengthAtMost(n / 10, k - 1);
    } else {
      assert k > 0;
    }
  }

  lemma {:induction false} StripLength(d: Decimal, k: nat)
    requires 0 < d.sig <= IntTens(1, k) && k > 0
    ensures Length(Strip(d).sig) <= k
    decreases d.sig
  {
    if d.sig % 10 == 0 {
      if k == 1 {
        assert d.sig / 10 == 1;
      } else {
        StripLength(Decimal(d.sig / 10, d.quantum + 1), k - 1);
      }
    } else {
      PowerDivisible(k);
      LengthAtMost(d.sig, k);
    }
  }

  lemma PowerDivisible(k: nat)
    requires k > 0
    ensures IntTens(1, k) % 10 == 0
  {
  }

  /** d.sig * 10^d.quantum lies in the decade that its digits and quantum give. */
  lemma ValueBounds(d: Decimal)
    requires d.sig > 0
    ensures var t := d.quantum + Length(d.sig) - 1; Tens(1.0, t) <= d.Value() < Tens(1.0, t + 1)
  {
    var n := Length(d.sig);
    LengthBounds(d.sig);
    TensOfInt(1, n - 1);
    TensOfInt(1, n);
    TensTens(1.0, n - 1, d.quantum);
    TensTens(1.0, n, d.quantum);
    TensOrder(IntTens(1, n - 1) as real, d.sig as real, d.quantum);
    TensOrder(d.sig as real, IntTens(1, n) as real, d.quantum);
  }

  /** A decimal of n digits is separated from `x` by a neighbour of `x` on the n-digit grid. */
  lemma NeighbourBetween(x: real, e: int, d: Decimal)
    requires x >= 0.0 && d.sig > 0
    requires Tens(1.0, e) <= x < Tens(1.0, e + 1)
    ensures var q := e - Length(d.sig) + 1;
            && (d.Value() <= x ==> d.Value() <= Below(x, q).Value() <= x)
            && (d.Value() > x ==> x < Above(x, q).Value() <= d.Value())
  {
    var q := e - Length(d.sig) + 1;
    var t := d.quantum + Length(d.sig) - 1;
    ValueBounds(d);
    GridBounds(x, e, q);
    if t == e {
      assert d.quantum == q;
      SameGrid(x, d);
    } else if t < e {
      TensGrows(1.0, t + 1, e);
      GridPower(Below(x, q).sig, e, q);
    } else {
      TensGrows(1.0, e + 1, t);
      GridPower(Above(x, q).sig, e, q);
    }
  }

  lemma SameGrid(x: real, d: Decimal)
    requires x >= 0.0
    ensures d.Value() <= x ==> d.Value() <= Below(x, d.quantum).Value()
    ensures d.Value() > x ==> Above(x, d.quantum).Value() <= d.Value()
  {
    var q := d.quantum;
    var s := Tens(x, -q);
    TensTens(x, -q, q);
    TensOrder(d.sig as real, s, q);
    TensOrder(s, d.sig as real, q);
    FloorBounds(s, d.sig);
    FloorNonNegative(x, q);
    TensOrder(d.sig as real, s.Floor as real, q);
    TensOrder((s.Floor + 1) as real, d.sig as real, q);
  }

  /** Significands between two powers of ten give values between two powers of ten. */
  lemma GridPower(sig: nat, e: int, q: int)
    requires q <= e
    ensures IntTens(1, e - q) <= sig ==> Tens(1.0, e) <= Decimal(sig, q).Value()
    ensures sig <= IntTens(1, e - q + 1) ==> Decimal(sig, q).Value() <= Tens(1.0, e + 1)
  {
    TensOfInt(1, e - q);
    TensOfInt(1, e - q + 1);
    TensTens(1.0, e - q, q);
    TensTens(1.0, e - q + 1, q);
    TensOrder(IntTens(1, e - q) as real, sig as real, q);
    TensOrder(sig as real, IntTens(1, e - q + 1) as real, q);
  }

  /** Everything between two numbers that round to `x` reads back as `x`. */
  lemma RoundConvex(v: real, u: real, w: real, x: real)
    requires 0.0 <= v <= u <= w && Round(v) == Some(x) && Round(w) == Some(x)
    ensures Round(u) == Some(x)
  {
    hide Round;
    RoundMonotone(u, w);
    RoundMonotone(v, u);
  }

  /** If a decimal of n digits reads back, so does a neighbour on the n-digit grid. */
  lemma StopsByLength(x: real, e: int, d: Decimal)
    requires Positive(x) && d.sig > 0 && ReadsBack(d, x)
    requires Tens(1.0, e) <= x < Tens(1.0, e + 1)
    ensures Stops(x, e - Length(d.sig) + 1)
  {
    var q := e - Length(d.sig) + 1;
    NeighbourBetween(x, e, d);
    RoundExact(x);
    if d.Value() <= x {
      RoundConvex(d.Value(), Below(x, q).Value(), x, x);
    } else {
      RoundConvex(x, Above(x, q).Value(), d.Value(), x);
    }
  }

  /** The decimal found has at most n digits if the search would stop on the n-digit grid. */
  lemma FoundLength(d: Decimal, x: real, e: int, n: nat)
    requires x >= 0.0 && n > 0 && Found(d, x, e, e) && Stops(x, e - n + 1)
    ensures Length(Strip(d).sig) <= n
  {
    assert e - n + 1 <= d.quantum;
    PowerGrows(e - d.quantum + 1, n);
    StripLength(d, n);
  }

  lemma LengthPositive(n: nat)
    ensures Length(n) > 0
  {
  }

  /** Nothing shorter reads back. */
  lemma ShortestMinimal(x: real, d: Decimal)
    requires Positive(x) && d.sig > 0 && ReadsBack(d, x)
    ensures Length(Shortest(x).sig) <= Length(d.sig)
  {
    hide Round, Tens, Search, Found, Stops, Strip, ReadsBack, Magnitude;
    var e, n := Magnitude(x, LOW), Length(d.sig);
    LengthPositive(d.sig);
    MagnitudeBounds(x);
    SearchFound(x, e, e);
    StopsByLength(x, e, d);
    FoundLength(Search(x, e), x, e, n);
  }

  // ---------- the nearest of the shortest ----------

  /** The search ends on the grid of the length that it finds. */
  lemma FoundGrid(x: real)
    requires Positive(x)
    ensures var e := Magnitude(x, LOW);
            && Search(x, e).quantum == e - Length(Shortest(x).sig) + 1
            && Search(x, e) == Nearer(x, Search(x, e).quantum) && Search(x, e).sig > 0
            && Shortest(x).Value() == Search(x, e).Value()
            && Tens(1.0, e) <= x < Tens(1.0, e + 1) && Stops(x, Search(x, e).quantum)
  {
    hide Round, Tens, ReadsBack, Magnitude;
    var e := Magnitude(x, LOW);
    MagnitudeBounds(x);
    SearchFound(x, e, e);
    var d := Search(x, e);
    StripValue(d);
    SearchEnds(x, e);
    ShortestReadsBack(x);
    var n := Length(Shortest(x).sig);
    LengthPositive(Shortest(x).sig);
    StopsByLength(x, e, Shortest(x));
    StripLength(d, e - d.quantum + 1);
    assert e - n + 1 <= d.quantum;
  }

  /** The search result is the preferred neighbour on its own grid. */
  lemma {:induction false} SearchEnds(x: real, start: int)
    requires x >= 0.0
    ensures Search(x, start) == Nearer(x, Search(x, start).quantum)
    decreases start - LOW
  {
    if !(start <= LOW || Stops(x, start)) {
      SearchEnds(x, start - 1);
    }
  }

  /** The preferred neighbour reads back, is no farther than the other if that does, and even when they tie. */
  lemma NearerMeaning(x: real, e: int, quantum: int)
    requires x >= 0.0 && Tens(1.0, e) <= x < Tens(1.0, e + 1) && quantum <= e && Stops(x, quantum)
    ensures var lo, hi, d := Below(x, quantum), Above(x, quantum), Nearer(x, quantum);
            && ReadsBack(d, x) && (d == lo || d == hi)
            && (d == hi && ReadsBack(lo, x) ==> hi.Value() - x <= x - lo.Value())
            && (d == lo && ReadsBack(hi, x) ==> x - lo.Value() <= hi.Value() - x)
            && (ReadsBack(lo, x) && ReadsBack(hi, x) && x - lo.Value() == hi.Value() - x ==> d.sig % 2 == 0)
  {
    hide Round;
    var s := Tens(x, -quantum);
    FloorNonNegative(x, quantum);
    var f := s.Floor;
    var d := s - f as real;
    TensTens(x, -quantum, quantum);
    TensSum(f as real, d, quantum);
    TensSum(s, 1.0 - d, quantum);
    assert s + (1.0 - d) == (f + 1) as real;
    assert f as real + d == s;
    TensOrder(d, 1.0 - d, quantum);
    TensOrder(1.0 - d, d, quantum);
  }

  /**
   Of the decimals as short as the chosen one that read back none is nearer, and
   where another is as near the chosen one ends in an even digit at that length.
   */
  lemma ShortestNearest(x: real, d: Decimal) returns (even: Decimal)
    requires Positive(x) && d.sig > 0 && ReadsBack(d, x) && Length(d.sig) == Length(Shortest(x).sig)
    ensures Abs(Shortest(x).Value() - x) <= Abs(d.Value() - x)
    ensures Abs(Shortest(x).Value() - x) == Abs(d.Value() - x) && d.Value() != Shortest(x).Value()
            ==> && even.sig % 2 == 0 && even.Value() == Shortest(x).Value()
                && even.quantum == Magnitude(x, LOW) - Length(d.sig) + 1
  {
    hide Round, Tens, Search, Nearer, Magnitude, ReadsBack, Below, Strip;
    var e := Magnitude(x, LOW);
    FoundGrid(x);
    even := Search(x, e);
    var q := even.quantum;
    assert q <= e by {
      LengthPositive(d.sig);
    }
    NeighbourBetween(x, e, d);
    NearerMeaning(x, e, q);
    NeighboursRead(x, q, d);
    GridBounds(x, e, q);
  }

  /** A decimal that reads back shields the neighbour between itself and `x`. */
  lemma NeighboursRead(x: real, q: int, d: Decimal)
    requires Positive(x) && ReadsBack(d, x)
    ensures d.Value() <= Below(x, q).Value() <= x ==> ReadsBack(Below(x, q), x)
    ensures x < Above(x, q).Value() <= d.Value() ==> ReadsBack(Above(x, q), x)
  {
    RoundExact(x);
    if d.Value() <= Below(x, q).Value() <= x {
      RoundConvex(d.Value(), Below(x, q).Value(), x, x);
    }
    if x < Above(x, q).Value() <= d.Value() {
      RoundConvex(x, Above(x, q).Value(), d.Value(), x);
    }
  }

  lemma {:induction false} PowerGrows(j: nat, k: nat)
    requires j <= k
    ensures IntTens(1, j) <= IntTens(1, k)
  {
    if j < k {
      PowerGrows(j, k - 1);
      PowerPositive(k - 1);
    }
  }

  /** A value has one decimal without trailing zeros. */
  lemma DecimalUnique(c: Decimal, d: Decimal)
    requires c.sig > 0 && d.sig > 0 && c.sig % 10 != 0 && d.sig % 10 != 0
    requires c.Value() == d.Value()
    ensures c == d
  {
    if c.quantum <= d.quantum {
      DecimalAligned(c, d);
    } else {
      DecimalAligned(d, c);
    }
  }

  lemma DecimalAligned(c: Decimal, d: Decimal)
    requires c.sig % 10 != 0 && c.quantum <= d.quantum && c.Value() == d.Value()
    ensures c == d
  {
    var k := d.quantum - c.quantum;
    TensTens(d.sig as real, k, c.quantum);
    TensOfInt(d.sig, k);
    var n := IntTens(d.sig, k);
    TensOrder(c.sig as real, n as real, c.quantum);
    TensOrder(n as real, c.sig as real, c.quantum);
    assert c.sig == n;
  }

  /** The search from the magnitude of a whole number up to 2^53 finds that number. */
  lemma SearchOfInt(n: nat, e: int)
    requires 0 < n <= TWO_53 && Positive(n as real) && 0 <= e
    requires Found(Search(n as real, e), n as real, e, e) && ReadsBack(Decimal(n, 0), n as real)
    requires Below(n as real, 0) == Decimal(n, 0)
    ensures Search(n as real, e).quantum >= 0 && Search(n as real, e).Value() == n as real
  {
    var x, found := n as real, Search(n as real, e);
    assert Stops(x, 0);
    assert found.quantum >= 0;
    TensOfInt(found.sig, found.quantum);
    var v: nat := IntTens(found.sig, found.quantum);
    assert found.Value() == v as real;
    ReadsBackSmall(n, v);
    if found.quantum == 0 {
      hide ReadsBack;
      SearchEnds(x, e);
      ExactNearer(n);
    } else {
      EndsInZero(found.sig, found.quantum);
    }
  }

  lemma EndsInZero(n: nat, k: nat)
    requires k > 0
    ensures IntTens(n, k) % 10 == 0
  {
  }

  /** A grid point that reads back is its own nearer neighbour. */
  lemma ExactNearer(n: nat)
    requires Below(n as real, 0) == Decimal(n, 0) && ReadsBack(Decimal(n, 0), n as real)
    ensures Nearer(n as real, 0) == Decimal(n, 0)
  {
  }

  /** The shortest decimal of a whole number up to 2^53 is that number. */
  lemma ShortestOfInt(n: nat)
    requires 0 < n <= TWO_53
    ensures Positive(n as real)
    ensures Shortest(n as real).quantum >= 0
    ensures Shortest(n as real).Value() == n as real
  {
    SmallIntRepresentable(n);
    var x := n as real;
    var e := Magnitude(x, LOW);
    MagnitudeBounds(x);
    if e < 0 {
      TensGrows(1.0, e + 1, 0);
    }
    SearchFound(x, e, e);
    FloorBounds(x, n);
    RoundExact(x);
    assert Below(x, 0) == Decimal(n, 0);
    assert Stops(x, 0);
    SearchOfInt(n, e);
    StripValue(Search(x, e));
  }

  /** Whole numbers up to 2^53 read back only from themselves, but 2^53 + 1 also rounds to 2^53. */
  lemma ReadsBackSmall(n: nat, v: nat)
    requires n <= TWO_53 && Round(v as real) == Some(n as real)
    ensures v == n || (n == TWO_53 && v == TWO_53 + 1)
  {
    if v <= TWO_53 {
      SmallIntRepresentable(v);
      RoundExact(v as real);
    } else if v >= TWO_53 + 2 {
      assert Shift((TWO_52 + 1) as real, 1) == (TWO_53 + 2) as real;
      assert Scaled((TWO_53 + 2) as real, TWO_52 + 1, 1);
      RoundExact((TWO_53 + 2) as real);
      RoundMonotone((TWO_53 + 2) as real, v as real);
    } else {
      SmallIntRepresentable(TWO_53);
      RoundExact(TWO_53 as real);
      RoundMonotone(TWO_53 as real, v as real);
    }
  }

  /** An exact whole number below 10^19 is laid out with at most 21 digits and no fraction. */
  lemma ShortestOfExactInt(n: nat)
    requires 0 < n && Representable(n as real) && (n as real) < Tens(1.0, 19)
    ensures Positive(n as real)
    ensures Shortest(n as real).quantum >= 0
    ensures Shortest(n as real).quantum + Length(Shortest(n as real).sig) <= 21
  {
    hide Round, Search, Strip, Magnitude, IntTens;
    var x := n as real;
    var e := Magnitude(x, LOW);
    MagnitudeBounds(x);
    if e < 0 {
      TensGrows(1.0, e + 1, 0);
    }
    if e >= 19 {
      TensGrows(1.0, 19, e);
    }
    SearchFound(x, e, e);
    FloorBounds(x, n);
    RoundExact(x);
    assert Below(x, 0) == Decimal(n, 0);
    assert Stops(x, 0);
    var d := Search(x, e);
    StripReach(d, e);
  }

  /** Stripping zeros moves the point but not the leading digit. */
  lemma {:induction false} StripReach(d: Decimal, e: int)
    requires d.quantum <= e && 0 < d.sig <= IntTens(1, e - d.quantum + 1)
    ensures Strip(d).quantum + Length(Strip(d).sig) <= e + 2
    decreases d.sig
  {
    if d.sig % 10 == 0 {
      if d.quantum == e {
        assert d.sig == 10;
        assert Strip(d) == Strip(Decimal(1, e + 1)) == Decimal(1, e + 1);
      } else {
        StripReach(Decimal(d.sig / 10, d.quantum + 1), e);
      }
    } else {
      PowerDivisible(e - d.quantum + 1);
      LengthAtMost(d.sig, e - d.quantum + 1);
    }
  }
}
