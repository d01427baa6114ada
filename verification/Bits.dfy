/** Bitwise AND on non-negative integers, and why masking with a power of two
    minus one is the same as taking a remainder. */
module Bits {

  function BitAnd(a: nat, b: nat): nat
  {
    if a == 0 || b == 0 then 0
    else 2 * BitAnd(a / 2, b / 2) + (if a % 2 == 1 && b % 2 == 1 then 1 else 0)
  }

  function Pow2(k: nat): (p: nat)
    ensures p >= 1
  {
    if k == 0 then 1 else 2 * Pow2(k - 1)
  }

  ghost predicate IsPow2(n: int) {
    exists k: nat :: Pow2(k) == n
  }

  lemma {:induction false} HalvingModulus(x: nat, m: nat)
    requires m > 0
    ensures x % (2 * m) == 2 * ((x / 2) % m) + x % 2
  {
    var q, r := (x / 2) / m, (x / 2) % m;
    assert x == 2 * (q * m + r) + x % 2;
    assert x == q * (2 * m) + (2 * r + x % 2);
    EuclideanUnique(x, 2 * m, q, 2 * r + x % 2);
  }

  /** A positive factor may be cancelled. */
  lemma Smaller(a: int, b: int, n: int)
    requires n > 0 && a * n < b * n
    ensures a < b
  {
  }

  /** Division with remainder is unique. */
  lemma EuclideanUnique(x: int, m: int, q: int, r: int)
    requires m > 0 && 0 <= r < m && x == q * m + r
    ensures x / m == q && x % m == r
  {
    var d := x / m - q;
    assert d * m == r - x % m by {
      assert x == (x / m) * m + x % m;
      assert d * m == (x / m) * m - q * m;
    }
    SmallMultiple(d, m);
  }

  lemma SmallMultiple(d: int, m: int)
    requires m > 0 && -m < d * m < m
    ensures d == 0
  {
  }

  lemma HalvingMask(x: nat, m: nat)
    requires m > 0
    ensures BitAnd(x, 2 * m - 1) == 2 * BitAnd(x / 2, m - 1) + x % 2
  {
    assert (2 * m - 1) / 2 == m - 1 && (2 * m - 1) % 2 == 1;
  }

  /** `x & (2^k - 1) == x mod 2^k`: the ring buffer's fast modulo. */
  lemma {:induction false} MaskIsMod(x: nat, k: nat)
    ensures BitAnd(x, Pow2(k) - 1) == x % Pow2(k)
    decreases k
  {
    if k == 0 {
      assert x % 1 == 0;
    } else {
      var m := Pow2(k - 1);
      MaskIsMod(x / 2, k - 1);
      HalvingMask(x, m);
      HalvingModulus(x, m);
    }
  }

  /** `c & (c - 1)` is zero exactly for powers of two: the constructor's test. */
  lemma {:induction false} PowerOfTwoTest(c: nat)
    requires c > 0
    ensures BitAnd(c, c - 1) == 0 <==> IsPow2(c)
  {
    if c == 1 {
      assert Pow2(0) == 1;
    } else if c % 2 == 1 {
      assert (c - 1) / 2 == c / 2 && (c - 1) % 2 == 0;
      assert BitAnd(c, c - 1) == 2 * BitAnd(c / 2, c / 2);
      AndSelf(c / 2);
      forall k: nat ensures Pow2(k) != c {
        assert k > 0 ==> Pow2(k) == 2 * Pow2(k - 1);
      }
    } else {
      var h := c / 2;
      assert (c - 1) / 2 == h - 1 && (c - 1) % 2 == 1;
      PowerOfTwoTest(h);
      assert BitAnd(c, c - 1) == 2 * BitAnd(h, h - 1);
      if IsPow2(h) {
        var k: nat :| Pow2(k) == h;
        assert Pow2(k + 1) == c;
      }
      if IsPow2(c) {
        var k: nat :| Pow2(k) == c;
        assert Pow2(k - 1) == h;
      }
    }
  }

  lemma {:induction false} AndSelf(a: nat)
    ensures BitAnd(a, a) == a
  {
    if a > 0 {
      AndSelf(a / 2);
    }
  }

  lemma {:induction false} Pow2Monotone(j: nat, k: nat)
    ensures j < k ==> 2 * Pow2(j) <= Pow2(k)
    ensures j <= k ==> Pow2(j) <= Pow2(k)
    decreases k
  {
    if j < k {
      Pow2Monotone(j, k - 1);
    }
  }

  /** The slot of a ticket in a ring of `m` slots: its remainder modulo `m`,
      by repeated subtraction. */
  function Slot(t: nat, m: nat): (s: nat)
    requires m > 0
    ensures s < m
  {
    if t < m then t else Slot(t - m, m)
  }

  lemma {:induction false} SlotIsMod(t: nat, m: nat)
    requires m > 0
    ensures Slot(t, m) == t % m
  {
    if t < m {
      EuclideanUnique(t, m, 0, t);
    } else {
      SlotIsMod(t - m, m);
      EuclideanUnique(t, m, (t - m) / m + 1, (t - m) % m);
    }
  }

  /** `x & (2^k - 1)` is the slot of `x` in a ring of `2^k` slots. */
  lemma MaskIsSlot(x: nat, k: nat)
    ensures BitAnd(x, Pow2(k) - 1) == Slot(x, Pow2(k)) == x % Pow2(k)
  {
    MaskIsMod(x, k);
    SlotIsMod(x, Pow2(k));
  }

  /** Tickets less than a lap apart never share a slot. */
  lemma {:induction false} SlotInjective(a: nat, b: nat, m: nat)
    requires m > 0 && Slot(a, m) == Slot(b, m)
    requires a - b < m && b - a < m
    ensures a == b
    decreases a + b
  {
    if a >= m && b >= m {
      SlotInjective(a - m, b - m, m);
    }
  }

  /** The next lap reuses the same slots. */
  lemma SlotPeriodic(t: nat, m: nat)
    requires m > 0
    ensures Slot(t + m, m) == Slot(t, m)
  {
  }
}
