/**
 Exact scaling of real numbers by powers of two and ten. Each step multiplies
 by a constant, so every fact here is linear.
 */
module Scaling {

  /** x * 2^k. */
  function Shift(x: real, k: int): real
    decreases if k < 0 then -k else k
  {
    if k == 0 then x
    else if k > 0 then 2.0 * Shift(x, k - 1)
    else Shift(x, k + 1) / 2.0
  }

  /** x * 10^k. */
  function Tens(x: real, k: int): real
    decreases if k < 0 then -k else k
  {
    if k == 0 then x
    else if k > 0 then 10.0 * Tens(x, k - 1)
    else Tens(x, k + 1) / 10.0
  }

  /** n * 2^k, n * 5^k and n * 10^k over the integers. */
  function IntShift(n: int, k: nat): int {
    if k == 0 then n else 2 * IntShift(n, k - 1)
  }

  function IntFives(n: int, k: nat): int {
    if k == 0 then n else 5 * IntFives(n, k - 1)
  }

  function IntTens(n: int, k: nat): int {
    if k == 0 then n else 10 * IntTens(n, k - 1)
  }

  lemma {:induction false} ShiftShift(x: real, j: int, k: int)
    ensures Shift(Shift(x, j), k) == Shift(x, j + k)
    decreases if k < 0 then -k else k
  {
    if k > 0 {
      ShiftShift(x, j, k - 1);
      ShiftStep(x, j + k - 1);
    } else if k < 0 {
      ShiftShift(x, j, k + 1);
      ShiftStep(x, j + k);
    }
  }

  lemma {:induction false} TensTens(x: real, j: int, k: int)
    ensures Tens(Tens(x, j), k) == Tens(x, j + k)
    decreases if k < 0 then -k else k
  {
    if k > 0 {
      TensTens(x, j, k - 1);
      TensStep(x, j + k - 1);
    } else if k < 0 {
      TensTens(x, j, k + 1);
      TensStep(x, j + k);
    }
  }

  lemma ShiftStep(x: real, k: int)
    ensures Shift(x, k + 1) == 2.0 * Shift(x, k)
  {
  }

  lemma TensStep(x: real, k: int)
    ensures Tens(x, k + 1) == 10.0 * Tens(x, k)
  {
  }

  /** Scaling keeps and reflects the order. */
  lemma {:induction false} ShiftOrder(x: real, y: real, k: int)
    ensures x <= y <==> Shift(x, k) <= Shift(y, k)
    ensures x < y <==> Shift(x, k) < Shift(y, k)
    decreases if k < 0 then -k else k
  {
    if k > 0 {
      ShiftOrder(x, y, k - 1);
    } else if k < 0 {
      ShiftOrder(x, y, k + 1);
    }
  }

  lemma {:induction false} TensOrder(x: real, y: real, k: int)
    ensures x <= y <==> Tens(x, k) <= Tens(y, k)
    ensures x < y <==> Tens(x, k) < Tens(y, k)
    decreases if k < 0 then -k else k
  {
    if k > 0 {
      TensOrder(x, y, k - 1);
    } else if k < 0 {
      TensOrder(x, y, k + 1);
    }
  }

  lemma {:induction false} ShiftSum(x: real, y: real, k: int)
    ensures Shift(x + y, k) == Shift(x, k) + Shift(y, k)
    decreases if k < 0 then -k else k
  {
    if k > 0 {
      ShiftSum(x, y, k - 1);
    } else if k < 0 {
      ShiftSum(x, y, k + 1);
    }
  }

  lemma {:induction false} TensSum(x: real, y: real, k: int)
    ensures Tens(x + y, k) == Tens(x, k) + Tens(y, k)
    decreases if k < 0 then -k else k
  {
    if k > 0 {
      TensSum(x, y, k - 1);
    } else if k < 0 {
      TensSum(x, y, k + 1);
    }
  }

  lemma {:induction false} ShiftZero(k: int)
    ensures Shift(0.0, k) == 0.0
    decreases if k < 0 then -k else k
  {
    if k > 0 {
      ShiftZero(k - 1);
    } else if k < 0 {
      ShiftZero(k + 1);
    }
  }

  lemma {:induction false} TensZero(k: int)
    ensures Tens(0.0, k) == 0.0
    decreases if k < 0 then -k else k
  {
    if k > 0 {
      TensZero(k - 1);
    } else if k < 0 {
      TensZero(k + 1);
    }
  }

  /** A larger exponent scales a non-negative number up. */
  lemma {:induction false} ShiftGrows(x: real, j: int, k: int)
    requires x >= 0.0 && j <= k
    ensures 0.0 <= Shift(x, j) <= Shift(x, k)
    ensures j < k ==> 2.0 * Shift(x, j) <= Shift(x, k)
    decreases k - j
  {
    ShiftZero(j);
    ShiftOrder(0.0, x, j);
    if j < k {
      ShiftGrows(x, j, k - 1);
      ShiftStep(x, k - 1);
    }
  }

  lemma {:induction false} TensGrows(x: real, j: int, k: int)
    requires x >= 0.0 && j <= k
    ensures 0.0 <= Tens(x, j) <= Tens(x, k)
    ensures j < k ==> 10.0 * Tens(x, j) <= Tens(x, k)
    decreases k - j
  {
    TensZero(j);
    TensOrder(0.0, x, j);
    if j < k {
      TensGrows(x, j, k - 1);
      TensStep(x, k - 1);
    }
  }

  lemma {:induction false} ShiftOfInt(n: int, k: nat)
    ensures Shift(n as real, k) == IntShift(n, k) as real
  {
    if k > 0 {
      ShiftOfInt(n, k - 1);
    }
  }

  lemma {:induction false} TensOfInt(n: int, k: nat)
    ensures Tens(n as real, k) == IntTens(n, k) as real
  {
    if k > 0 {
      TensOfInt(n, k - 1);
    }
  }

  lemma {:induction false} TensFiveTimes(x: real, k: int)
    ensures Tens(5.0 * x, k) == 5.0 * Tens(x, k)
    decreases if k < 0 then -k else k
  {
    if k > 0 {
      TensFiveTimes(x, k - 1);
    } else if k < 0 {
      TensFiveTimes(x, k + 1);
    }
  }

  /** n * 2^k = (n * 5^-k) * 10^k for k <= 0: a binary fraction is a decimal one. */
  lemma {:induction false} HalvesAreTenths(n: int, k: int)
    requires k <= 0
    ensures Shift(n as real, k) == Tens(IntFives(n, -k) as real, k)
    decreases -k
  {
    if k < 0 {
      HalvesAreTenths(n, k + 1);
      var m := IntFives(n, -k - 1);
      assert IntFives(n, -k) == 5 * m;
      TensFiveTimes(m as real, k);
      TensStep(m as real, k);
      assert (5 * m) as real == 5.0 * (m as real);
    }
  }

  lemma {:induction false} IntShiftOrder(m: int, n: int, k: nat)
    ensures m < n <==> IntShift(m, k) < IntShift(n, k)
  {
    if k > 0 {
      IntShiftOrder(m, n, k - 1);
    }
  }

  lemma FloorBounds(x: real, n: int)
    ensures n as real <= x <==> n <= x.Floor
    ensures x < n as real <==> x.Floor < n
    ensures (n as real).Floor == n
  {
  }
}
