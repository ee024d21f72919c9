/** The capacities of the linear-probing table and how they grow. */
module Primes {

  const PRIMES: seq<nat> :=
    [7, 17, 31, 67, 257, 1031, 4093, 8191, 16381, 32381, 65539, 131071, 262147, 524287, 1048583]
  const MAX_PRIME: nat := 1048583
  const MAX_LOAD_FACTOR: nat := 70

  /** `p` is the first listed prime above `i`, or the largest one if there is none. */
  predicate IsNextPrime(i: nat, p: nat) {
    && p in PRIMES
    && (if i < MAX_PRIME then i < p && forall q :: q in PRIMES && i < q ==> p <= q else p == MAX_PRIME)
  }

  /** `nextPrime`: a binary search over the list. */
  method NextPrime(i: nat) returns (p: nat)
    ensures IsNextPrime(i, p)
  {
    var j, k := 0, |PRIMES|;
    while j < k
      invariant 0 <= j <= k <= |PRIMES|
      invariant forall m :: 0 <= m < j ==> PRIMES[m] <= i
      invariant forall m :: k <= m < |PRIMES| ==> i < PRIMES[m]
    {
      var m := (j + k) / 2;
      Ascending(m);
      if PRIMES[m] <= i {
        j := m + 1;
      } else {
        k := m;
      }
    }
    var at := if k >= |PRIMES| then |PRIMES| - 1 else k;
    Ascending(at);
    p := PRIMES[at];
  }

  lemma Ascending(m: nat)
    requires m < |PRIMES|
    ensures forall a :: 0 <= a < m ==> PRIMES[a] < PRIMES[m]
    ensures forall b :: m < b < |PRIMES| ==> PRIMES[m] < PRIMES[b]
    ensures PRIMES[|PRIMES| - 1] == MAX_PRIME
  {
    forall a, b | 0 <= a < b < |PRIMES| ensures PRIMES[a] < PRIMES[b] {
      AscendingStep(a, b);
    }
  }

  lemma {:induction false} AscendingStep(a: nat, b: nat)
    requires a < b < |PRIMES|
    ensures PRIMES[a] < PRIMES[b]
    decreases b - a
  {
    assert forall k :: 0 <= k < |PRIMES| - 1 ==> PRIMES[k] < PRIMES[k + 1];
    if a + 1 < b {
      AscendingStep(a + 1, b);
    }
  }

  lemma FirstTwo(i: nat)
    requires i == 4 || i == 7
    ensures forall p :: IsNextPrime(i, p) ==> p == if i == 4 then 7 else 17
  {
    Ascending(1);
    assert PRIMES[0] in PRIMES && PRIMES[1] in PRIMES;
  }

  /** The capacities that a table can have. */
  predicate IsCapacity(c: nat) {
    c in PRIMES || c >= MAX_PRIME
  }

  predicate Overloaded(size: nat, capacity: nat) {
    size * 100 >= capacity * MAX_LOAD_FACTOR
  }

  /** The capacity that a rehash chooses, given the next prime. */
  function Grown(capacity: nat, next: nat): nat {
    if next <= capacity then capacity * 2 + 1 else next
  }

  /** One insertion above the load limit, a larger capacity brings the load below it again. */
  lemma GrowthLeavesRoom(size: nat, capacity: nat, next: nat)
    requires IsCapacity(capacity) && IsNextPrime(capacity, next)
    requires size > 0 && !Overloaded(size - 1, capacity)
    ensures capacity < Grown(capacity, next) && IsCapacity(Grown(capacity, next))
    ensures !Overloaded(size, Grown(capacity, next))
  {
    if capacity < MAX_PRIME {
      var k :| 0 <= k < |PRIMES| && PRIMES[k] == capacity;
      assert k < 14;
      Ascending(k + 1);
      assert PRIMES[k + 1] in PRIMES;
      assert next == PRIMES[k + 1] by {
        var j :| 0 <= j < |PRIMES| && PRIMES[j] == next;
        Ascending(k);
      }
    }
  }
}
