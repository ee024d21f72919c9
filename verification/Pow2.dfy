/** The bit trick that rounds a buffer size up to a power of two. */
module Pow2 {

  function Pow(k: nat): (p: nat)
    ensures p > 0
  {
    if k == 0 then 1 else 2 * Pow(k - 1)
  }

  /** Bitwise `|` of two non-negative integers. */
  function Or(x: nat, y: nat): nat
    decreases x + y
  {
    if x + y == 0 then 0
    else (if x % 2 == 1 || y % 2 == 1 then 1 else 0) + 2 * Or(x / 2, y / 2)
  }

  /** `x >> k` of a non-negative integer. */
  function Shr(x: nat, k: nat): nat
    decreases k
  {
    if k == 0 then x else Shr(x / 2, k - 1)
  }

  function Line(x: nat, k: nat): nat {
    Or(x, Shr(x, k))
  }

  /** `x |= x >> 1`, then by 2, 4, 8 and 16. */
  function Smear(x: nat): nat {
    Line(Line(Line(Line(Line(x, 1), 2), 4), 8), 16)
  }

  function Pow2Gt(x: int): int
    requires x > 0
  {
    Smear(x - 1) + 1
  }

  lemma {:induction false} OrBounds(x: nat, y: nat, m: nat)
    requires x < Pow(m) && y < Pow(m)
    ensures y <= Or(x, y) < Pow(m)
    decreases m
  {
    if x + y > 0 {
      assert m > 0;
      OrBounds(x / 2, y / 2, m - 1);
    }
  }

  lemma {:induction false} OrZero(x: nat)
    ensures Or(x, 0) == x
    decreases x
  {
    if x > 0 {
      OrZero(x / 2);
    }
  }

  /** High bits that only the left operand has stay as they are. */
  lemma {:induction false} OrHigh(a: nat, u: nat, y: nat, m: nat)
    requires u < Pow(m) && y < Pow(m)
    ensures Or(a * Pow(m) + u, y) == a * Pow(m) + Or(u, y)
    decreases m
  {
    if m == 0 {
      OrZero(a);
    } else {
      var p := Pow(m - 1);
      var x := a * Pow(m) + u;
      assert a * Pow(m) == 2 * (a * p);
      assert x / 2 == a * p + u / 2 && x % 2 == u % 2;
      OrHigh(a, u / 2, y / 2, m - 1);
      if x + y == 0 {
        assert a * p == 0;
      } else if u + y == 0 {
        OrZero(a * p);
        OrZero(x);
      }
    }
  }

  lemma {:induction false} PowAdd(a: nat, b: nat)
    ensures Pow(a + b) == Pow(a) * Pow(b)
    decreases a
  {
    if a > 0 {
      PowAdd(a - 1, b);
      assert Pow(a) * Pow(b) == 2 * (Pow(a - 1) * Pow(b));
    }
  }

  lemma {:induction false} PowGrows(a: nat, b: nat)
    requires a < b
    ensures 2 * Pow(a) <= Pow(b)
    decreases b
  {
    if a < b - 1 {
      PowGrows(a, b - 1);
    }
  }

  /** `x` has `len` bits, of which the topmost `k` are all set. */
  predicate TopSet(x: nat, len: nat, k: nat) {
    k <= len && Pow(len) - Pow(len - k) <= x < Pow(len)
  }

  function Least(a: nat, b: nat): nat {
    if a < b then a else b
  }

  lemma {:induction false} ShrQuotient(x: nat, k: nat)
    ensures Pow(k) * Shr(x, k) <= x < Pow(k) * Shr(x, k) + Pow(k)
    decreases k
  {
    if k > 0 {
      ShrQuotient(x / 2, k - 1);
      TwiceAs(Pow(k - 1), Shr(x, k), x);
    }
  }

  lemma TwiceAs(q: nat, y: nat, x: nat)
    requires q * y <= x / 2 < q * y + q
    ensures (2 * q) * y <= x < (2 * q) * y + 2 * q
  {
    assert (2 * q) * y == 2 * (q * y);
  }

  /** Shifting a number just below `p * q`. */
  lemma ShiftBounds(p: nat, q: nat, r: nat, x: nat, y: nat)
    requires p * y <= x < p * y + p
    requires p * q - p * r <= x < p * q
    ensures q - r <= y < q
  {
    assert p * (q - r) <= x < p * (y + 1);
    assert p * y <= x < p * q;
  }

  /** Below the run of set bits, the shifted copy fills in. */
  lemma FillBelow(x: nat, m: nat, p: nat, q: nat, r: nat, y: nat)
    requires q == Pow(m) && p > 0 && p * y <= x < p * y + p
    requires p * q - q <= x < p * q
    requires q <= p * r
    ensures p * q - r <= Or(x, y) < p * q
  {
    ShiftBounds(p, q, r, x, y);
    var u := x - (p * q - q);
    OrBounds(u, y, m);
    assert x == (p - 1) * q + u;
    OrHigh(p - 1, u, y, m);
    assert (p - 1) * q == p * q - q;
  }

  lemma LineDoubles(x: nat, len: nat, k: nat)
    requires 2 * k <= len && Pow(len) - Pow(len - k) <= x < Pow(len)
    ensures Pow(len) - Pow(len - 2 * k) <= Line(x, k) < Pow(len)
  {
    ShrQuotient(x, k);
    PowAdd(k, len - k);
    PowAdd(k, len - 2 * k);
    FillBelow(x, len - k, Pow(k), Pow(len - k), Pow(len - 2 * k), Shr(x, k));
  }

  lemma LineFinishes(x: nat, len: nat, k: nat)
    requires k <= len < 2 * k && Pow(len) - Pow(len - k) <= x < Pow(len)
    ensures Line(x, k) == Pow(len) - 1
  {
    ShrQuotient(x, k);
    PowAdd(k, len - k);
    PowGrows(len - k, k);
    FillBelow(x, len - k, Pow(k), Pow(len - k), 1, Shr(x, k));
  }

  /** A shift that is wider than the number leaves nothing. */
  lemma {:induction false} ShiftedOut(x: nat, k: nat)
    requires x < Pow(k)
    ensures Line(x, k) == x
  {
    ShiftsToZero(x, k);
    OrZero(x);
  }

  lemma {:induction false} ShiftsToZero(x: nat, k: nat)
    requires x < Pow(k)
    ensures Shr(x, k) == 0
    decreases k
  {
    if k > 0 {
      ShiftsToZero(x / 2, k - 1);
    }
  }

  lemma {:induction false} BitLength(x: nat, bound: nat) returns (len: nat)
    requires x < Pow(bound)
    ensures len <= bound && x < Pow(len)
    ensures len > 0 ==> Pow(len - 1) <= x
    decreases bound
  {
    if bound > 0 && x < Pow(bound - 1) {
      len := BitLength(x, bound - 1);
    } else {
      len := bound;
    }
  }

  /** One line of the trick doubles the run of set bits, up to the whole number. */
  lemma LineStep(x: nat, len: nat, k: nat)
    requires TopSet(x, len, Least(k, len))
    ensures TopSet(Line(x, k), len, Least(2 * k, len))
  {
    if 2 * k <= len {
      LineDoubles(x, len, k);
    } else if k <= len {
      LineFinishes(x, len, k);
    } else {
      PowGrows(len, k);
      ShiftedOut(x, k);
    }
  }

  lemma SmearFills(x: nat, len: nat)
    requires x < Pow(len) && len <= 32
    requires len > 0 ==> Pow(len - 1) <= x
    ensures Smear(x) == Pow(len) - 1
  {
    var a := Line(x, 1);
    var b := Line(a, 2);
    var c := Line(b, 4);
    var d := Line(c, 8);
    LineStep(x, len, 1);
    LineStep(a, len, 2);
    LineStep(b, len, 4);
    LineStep(c, len, 8);
    LineStep(d, len, 16);
    assert Least(32, len) == len;
  }

  lemma ThirtyBits()
    ensures Pow(30) == 0x4000_0000
  {
    assert Pow(4) == 16;
    PowAdd(4, 4);
    PowAdd(8, 8);
    PowAdd(8, 4);
    PowAdd(12, 2);
    PowAdd(16, 14);
  }

  /** The result is a power of two, large enough, and no smaller power of two is. */
  lemma Pow2GtIsLeast(x: int)
    requires 0 < x <= 0x4000_0000
    ensures x <= Pow2Gt(x) <= 0x4000_0000
    ensures exists k :: 0 <= k <= 30 && Pow2Gt(x) == Pow(k)
    ensures forall k: nat :: Pow(k) >= x ==> Pow(k) >= Pow2Gt(x)
  {
    ThirtyBits();
    LeastPower(x, 30);
  }

  lemma LeastPower(x: int, bound: nat)
    requires 0 < x <= Pow(bound) && bound <= 32
    ensures x <= Pow2Gt(x) <= Pow(bound)
    ensures exists k :: 0 <= k <= bound && Pow2Gt(x) == Pow(k)
    ensures forall k: nat :: Pow(k) >= x ==> Pow(k) >= Pow2Gt(x)
  {
    hide Pow, Smear;
    var len := BitLength(x - 1, bound);
    SmearFills(x - 1, len);
    if len < bound {
      PowGrows(len, bound);
    }
    forall k: nat | Pow(k) >= x
      ensures Pow(k) >= Pow(len)
    {
      NoSmallerPower(x, len, k);
    }
  }

  lemma NoSmallerPower(x: int, len: nat, k: nat)
    requires 0 < x <= Pow(k)
    requires len > 0 ==> Pow(len - 1) < x
    ensures Pow(len) <= Pow(k)
  {
    if k < len - 1 {
      PowGrows(k, len - 1);
      assert false;
    } else if len < k {
      PowGrows(len, k);
    }
  }

  /** `pow2gt`. */
  method RoundUp(size: int) returns (x: int)
    requires 0 < size <= 0x4000_0000
    ensures x == Pow2Gt(size) && size <= x <= 0x4000_0000
  {
    Pow2GtIsLeast(size);
    x := Pow2Gt(size);
  }
}
