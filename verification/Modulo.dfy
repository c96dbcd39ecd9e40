/** Floor division, and slot arithmetic for rings addressed by counters modulo their capacity. */
module Modulo {

  function Slot(counter: int, m: nat): (r: nat)
    requires m > 0
    ensures r < m
  {
    counter % m
  }

  lemma {:induction false} AtLeastOnce(d: int, m: int)
    requires d >= 1 && m > 0
    ensures d * m >= m
  {
  }

  /** The quotient and remainder are determined by the division equation. */
  lemma {:induction false} DivisionIs(n: int, m: int, q: int, r: int)
    requires n == q * m + r && 0 <= r < m
    ensures n / m == q && n % m == r
  {
    var d := q - n / m;
    assert d * m == q * m - (n / m) * m == n % m - r;
    if d >= 1 {
      AtLeastOnce(d, m);
      assert false;
    } else if d <= -1 {
      AtLeastOnce(-d, m);
      assert false;
    }
  }

  /** A floor quotient reaches `q` exactly when `q` times the divisor fits. */
  lemma {:induction false} QuotientAtLeast(n: int, d: int, q: int)
    requires d > 0
    ensures q <= n / d <==> q * d <= n
  {
    var k := n / d - q;
    assert n == (n / d) * d + n % d && k * d == (n / d) * d - q * d;
    if k >= 0 {
      assert k * d >= 0;
    } else {
      AtLeastOnce(-k, d);
      assert (-k) * d == -(k * d);
    }
  }

  lemma {:induction false} FloorMonotone(a: int, b: int, d: int)
    requires a <= b && d > 0
    ensures a / d <= b / d
  {
    QuotientAtLeast(a, d, a / d);
    QuotientAtLeast(b, d, a / d);
  }

  lemma {:induction false} NextSlot(n: int, m: nat)
    requires m > 0
    ensures Slot(n + 1, m) == if Slot(n, m) + 1 >= m then 0 else Slot(n, m) + 1
  {
    if n % m + 1 < m {
      DivisionIs(n + 1, m, n / m, n % m + 1);
    } else {
      assert (n / m + 1) * m == (n / m) * m + m;
      DivisionIs(n + 1, m, n / m + 1, 0);
    }
  }

  lemma {:induction false} SlotsApart(i: int, j: int, m: nat)
    requires 0 < m && i < j < i + m
    ensures Slot(i, m) != Slot(j, m)
  {
    var r := i % m + (j - i);
    if r < m {
      DivisionIs(j, m, i / m, r);
    } else {
      assert (i / m + 1) * m == (i / m) * m + m;
      DivisionIs(j, m, i / m + 1, r - m);
    }
  }

  lemma {:induction false} SlotMinusCapacity(n: int, m: nat)
    requires m > 0
    ensures Slot(n - m, m) == Slot(n, m)
  {
    assert (n / m - 1) * m == (n / m) * m - m;
    DivisionIs(n - m, m, n / m - 1, n % m);
  }

  lemma {:induction false} SmallSlot(n: int, m: nat)
    requires 0 <= n < m
    ensures Slot(n, m) == n
  {
    DivisionIs(n, m, 0, n);
  }

  /** Stepping back by `k` from the slot of `n` reaches the slot of `n - k`. */
  lemma {:induction false} SlotBack(n: int, k: int, m: nat)
    requires m > 0
    ensures Slot(Slot(n, m) - k, m) == Slot(n - k, m)
  {
    var h := n % m - k;
    var q, r := h / m, h % m;
    assert n - k == (n / m + q) * m + r by {
      assert (n / m + q) * m == (n / m) * m + q * m;
    }
    DivisionIs(n - k, m, n / m + q, r);
  }
}
