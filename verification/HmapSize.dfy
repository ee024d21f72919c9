/** The slot counts that the Robin Hood map chooses. */
module HmapSize {
  import opened Pow2

  const PRIMES: seq<nat> :=
    [0, 1, 5, 11, 23, 53, 101, 197, 389, 683, 1259, 2417, 4733, 9371, 18617, 37097,
     74093, 148073, 296099, 592019, 1100009, 2200013, 4400021, 8800019]
  const LAST: nat := 8800019

  /** `size + 1` items at a load factor of 0.9, rounded down. */
  function Wanted(size: nat): nat {
    (size + 1) * 10 / 9
  }

  function FirstAtLeast(s: nat, i: nat): nat
    requires i < |PRIMES| && s <= LAST
    decreases |PRIMES| - i, s
  {
    if PRIMES[i] >= s || i + 1 == |PRIMES| then PRIMES[i] else FirstAtLeast(s, i + 1)
  }

  function DoubleUntil(last: nat, s: nat): nat
    requires last > 0
    decreases s - last
  {
    if last < s then DoubleUntil(2 * last, s) else last
  }

  /** The number of slots for `size` items. */
  function Ideal(size: nat): nat {
    var s := Wanted(size);
    if s <= LAST then FirstAtLeast(s, 0) else DoubleUntil(LAST, s)
  }

  /** `hmapIdealSize`: a scan of the list of primes, then doubling. */
  method IdealSize(size: nat) returns (r: nat)
    ensures r == Ideal(size)
  {
    var s := Wanted(size);
    var i := 0;
    while i < |PRIMES|
      invariant 0 <= i <= |PRIMES|
      invariant s <= LAST && i < |PRIMES| ==> Ideal(size) == FirstAtLeast(s, i)
      invariant i == |PRIMES| ==> LAST < s
    {
      if PRIMES[i] >= s {
        return PRIMES[i];
      }
      i := i + 1;
    }
    r := LAST;
    while r < s
      invariant r > 0 && DoubleUntil(LAST, s) == DoubleUntil(r, s)
      decreases s - r
    {
      r := 2 * r;
    }
  }

  lemma {:induction false} FirstAtLeastBounds(s: nat, i: nat)
    requires i < |PRIMES| && s <= LAST
    ensures s <= FirstAtLeast(s, i) <= LAST
    decreases |PRIMES| - i
  {
    if PRIMES[i] < s && i + 1 < |PRIMES| {
      FirstAtLeastBounds(s, i + 1);
    }
  }

  lemma {:induction false} FirstAtLeastMonotone(s: nat, t: nat, i: nat)
    requires i < |PRIMES| && s <= t <= LAST
    ensures FirstAtLeast(s, i) <= FirstAtLeast(t, i)
    decreases |PRIMES| - i
  {
    if PRIMES[i] < t && i + 1 < |PRIMES| {
      FirstAtLeastMonotone(s, t, i + 1);
      FirstAtLeastGrows(s, i);
    }
  }

  lemma {:induction false} FirstAtLeastGrows(s: nat, i: nat)
    requires i + 1 < |PRIMES| && s <= LAST
    ensures FirstAtLeast(s, i) <= FirstAtLeast(s, i + 1)
    decreases |PRIMES| - i
  {
    assert forall k :: 0 <= k < |PRIMES| - 1 ==> PRIMES[k] < PRIMES[k + 1];
    if PRIMES[i] >= s && i + 2 < |PRIMES| {
      FirstAtLeastGrows(s, i + 1);
    }
  }

  lemma {:induction false} DoubleUntilMonotone(last: nat, s: nat, t: nat)
    requires last > 0 && s <= t
    ensures last <= DoubleUntil(last, s) <= DoubleUntil(last, t)
    ensures s <= DoubleUntil(last, s)
    decreases t - last
  {
    if last < t {
      DoubleUntilMonotone(2 * last, s, t);
    }
  }

  lemma {:induction false} FirstAtLeastIsLeast(s: nat, i: nat)
    requires i < |PRIMES| && s <= LAST
    ensures FirstAtLeast(s, i) in PRIMES
    ensures forall k :: i <= k < |PRIMES| && s <= PRIMES[k] ==> FirstAtLeast(s, i) <= PRIMES[k]
    decreases |PRIMES| - i
  {
    if PRIMES[i] < s && i + 1 < |PRIMES| {
      FirstAtLeastIsLeast(s, i + 1);
    } else {
      forall k | i <= k < |PRIMES|
        ensures PRIMES[i] <= PRIMES[k]
      {
        PrimesAscend(i, k);
      }
    }
  }

  lemma {:induction false} PrimesAscend(i: nat, k: nat)
    requires i <= k < |PRIMES|
    ensures PRIMES[i] <= PRIMES[k]
    decreases k - i
  {
    assert forall m :: 0 <= m < |PRIMES| - 1 ==> PRIMES[m] < PRIMES[m + 1];
    if i < k {
      PrimesAscend(i + 1, k);
    }
  }

  lemma {:induction false} DoubleUntilIsLeast(last: nat, s: nat) returns (k: nat)
    requires 0 < last < s
    ensures DoubleUntil(last, s) == last * Pow(k) && s <= DoubleUntil(last, s) < 2 * s
    decreases s - last
  {
    if 2 * last < s {
      var m := DoubleUntilIsLeast(2 * last, s);
      k := m + 1;
      assert 2 * last * Pow(m) == last * Pow(m + 1);
    } else {
      k := 1;
      assert Pow(1) == 2 * Pow(0);
    }
  }

  /**
   Of `s` slots, nine of ten hold one item more than `size`. The map gets the least listed number of slots that is not
   smaller than `s`, and beyond the list the largest one doubled as often as is necessary.
   */
  lemma IdealIsLeast(size: nat, s: nat)
    requires 9 * s <= 10 * (size + 1) < 9 * (s + 1)
    ensures if s <= 8800019 then
              Ideal(size) in PRIMES && s <= Ideal(size) && forall p :: p in PRIMES && s <= p ==> Ideal(size) <= p
            else
              s <= Ideal(size) < 2 * s && exists k :: Ideal(size) == 8800019 * Pow(k)
  {
    assert s == Wanted(size);
    if s <= LAST {
      FirstAtLeastBounds(s, 0);
      FirstAtLeastIsLeast(s, 0);
      hide PRIMES;
    } else {
      var k := DoubleUntilIsLeast(LAST, s);
    }
  }

  /** There is always room for one more item than the table holds. */
  lemma IdealLeavesRoom(size: nat)
    ensures size < Ideal(size)
  {
    var s := Wanted(size);
    if s <= LAST {
      FirstAtLeastBounds(s, 0);
    } else {
      DoubleUntilMonotone(LAST, s, s);
    }
  }

  lemma IdealMonotone(a: nat, b: nat)
    requires a <= b
    ensures Ideal(a) <= Ideal(b)
  {
    var s, t := Wanted(a), Wanted(b);
    if t <= LAST {
      FirstAtLeastMonotone(s, t, 0);
    } else if s <= LAST {
      FirstAtLeastBounds(s, 0);
      DoubleUntilMonotone(LAST, t, t);
    } else {
      DoubleUntilMonotone(LAST, s, t);
    }
  }

  /** What the table needs of its sizes: room for one more item, and no shrinking with growth. */
  ghost predicate Sizing(f: nat -> nat) {
    && (forall n: nat :: n < f(n))
    && (forall a: nat, b: nat :: a <= b ==> f(a) <= f(b))
  }

  lemma IdealIsSizing()
    ensures Sizing(Ideal)
  {
    forall n: nat ensures n < Ideal(n) {
      IdealLeavesRoom(n);
    }
    forall a: nat, b: nat | a <= b ensures Ideal(a) <= Ideal(b) {
      IdealMonotone(a, b);
    }
  }
}
