/** The linear-probing hash table that grows at a load of 70 percent. */
module HashTables {
  import opened Options
  import opened Ring
  import opened Primes
  import opened LinearProbing
  import opened ProbeLayout
  import opened Removal

  /** Some stored element has this hash and compares equal to the query. */
  ghost predicate Matched<E, Q>(items: multiset<Bucket<E>>, code: nat, query: Q, compare: (E, Q) -> bool) {
    exists b :: b in items && b.Used? && b.code == code && compare(b.elem, query)
  }

  /** The element at which a probe for it stops. */
  ghost predicate IsFirst<E, Q>(t: seq<Bucket<E>>, code: nat, query: Q, compare: (E, Q) -> bool, elem: E) {
    exists i: nat :: StopsAt(t, code, query, compare, i) && t[i] == Used(code, elem)
  }

  /** The capacity after a rehash. */
  predicate Grows(capacity: nat, c: nat) {
    c > capacity && exists next :: next in PRIMES && IsNextPrime(capacity, next) && c == Grown(capacity, next)
  }

  /**
   The table after an insertion that makes it hold `size` elements: the new one is in its first free bucket, and
   if that is too many, all are moved to a larger table in the order of their buckets.
   */
  ghost predicate Inserted<E>(t: seq<Bucket<E>>, size: nat, b: Bucket<E>, u: seq<Bucket<E>>)
    requires b.Used? && multiset(t)[Free] > 0
  {
    if Overloaded(size, |t|) then Grows(|t|, |u|) && u == PlaceAll(Blank<E>(|u|), Place(t, b)) else u == Place(t, b)
  }

  class HashTable<E> {
    var buckets: array<Bucket<E>>   // hashes and elems
    var size: nat

    ghost predicate Valid()
      reads this, buckets
    {
      && IsCapacity(buckets.Length)
      && Reachable(buckets[..])
      && size == buckets.Length - multiset(buckets[..])[Free]
      && !Overloaded(size, buckets.Length)
    }

    /** `newHashTableWithCapacity` */
    constructor (capacity: nat)
      ensures Valid() && fresh(buckets) && size == 0 && Items(buckets[..]) == multiset{}
      ensures IsNextPrime(capacity, buckets.Length) && buckets[..] == Blank<E>(buckets.Length)
    {
      var c := NextPrime(capacity);
      buckets := new Bucket<E>[c](_ => Free);
      size := 0;
      new;
      AllFree(buckets[..]);
      assert buckets[..] == Blank<E>(c);
    }

    /** The probe of `insertInHashTable` and `findInHashTable`: the matching bucket or the free one at the end. */
    method Locate<Q>(query: Q, code: nat, compare: (E, Q) -> bool) returns (i: nat)
      requires Valid()
      ensures StopsAt(buckets[..], code, query, compare, i)
      ensures buckets[i].Free? ==> !Matched(Items(buckets[..]), code, query, compare)
    {
      ghost var t := buckets[..];
      ghost var home := Home(code, buckets.Length);
      ghost var free := FindFree(t, size);
      i := Home(code, buckets.Length);
      while buckets[i].Used?
        invariant i < buckets.Length && UsedBefore(t, code, i)
        invariant Dist(buckets.Length, home, i) <= Dist(buckets.Length, home, free)
        invariant NoneBefore(t, code, query, compare, i)
        decreases buckets.Length - Dist(buckets.Length, home, i)
      {
        if buckets[i].code == code && compare(buckets[i].elem, query) {
          return;
        }
        ProbeStep(t, code, query, compare, i, free);
        i := Succ(buckets.Length, i);
      }
      NoneMatched(t, code, query, compare, i);
    }

    /** `findInHashTable` */
    method Find<Q>(query: Q, hash: nat, compare: (E, Q) -> bool) returns (r: Option<E>)
      requires Valid()
      ensures r.None? <==> !Matched(Items(buckets[..]), Mark(hash), query, compare)
      ensures r.Some? ==> Used(Mark(hash), r.value) in Items(buckets[..]) && compare(r.value, query)
      ensures r.Some? ==> IsFirst(buckets[..], Mark(hash), query, compare, r.value)
    {
      var i := Locate(query, Mark(hash), compare);
      if buckets[i].Free? {
        return None;
      }
      assert buckets[i] in Items(buckets[..]);
      assert StopsAt(buckets[..], Mark(hash), query, compare, i);
      return Some(buckets[i].elem);
    }

    /** `insertInHashTable`: adds the element unless one with its hash compares equal. */
    method Insert<Q>(elem: E, query: Q, hash: nat, compare: (E, Q) -> bool) returns (added: bool)
      requires Valid()
      modifies this, buckets
      ensures Valid() && (buckets == old(buckets) || fresh(buckets))
      ensures added <==> !Matched(old(Items(buckets[..])), Mark(hash), query, compare)
      ensures Items(buckets[..])
              == old(Items(buckets[..])) + if added then multiset{Used(Mark(hash), elem)} else multiset{}
      ensures size == old(size) + if added then 1 else 0
      ensures buckets.Length >= old(buckets.Length)
      ensures !added ==> buckets == old(buckets) && buckets[..] == old(buckets[..])
      ensures added ==> multiset(old(buckets[..]))[Free] > 0
                        && Inserted(old(buckets[..]), size, Used(Mark(hash), elem), buckets[..])
    {
      ghost var t := buckets[..];
      var b := Used(Mark(hash), elem);
      var i := Locate(query, Mark(hash), compare);
      if buckets[i].Used? {
        assert buckets[i] in Items(t);
        return false;
      }
      FillKeepsReachable(t, i, b);
      FillAddsItem(t, i, b);
      PlaceAt(t, b, i);
      buckets[i] := b;
      assert buckets[..] == t[i := b];
      size := size + 1;
      if Overloaded(size, buckets.Length) {
        Rehash();
      }
      return true;
    }

    /** `rehashTable`: a strictly larger table with the same elements. */
    method Rehash()
      requires IsCapacity(buckets.Length) && Reachable(buckets[..])
      requires size > 0 && size == buckets.Length - multiset(buckets[..])[Free] && !Overloaded(size - 1, buckets.Length)
      modifies this
      ensures Valid() && fresh(buckets) && size == old(size)
      ensures Items(buckets[..]) == old(Items(buckets[..]))
      ensures Grows(old(buckets.Length), buckets.Length)
      ensures buckets[..] == PlaceAll(Blank<E>(buckets.Length), old(buckets[..]))
    {
      var capacity := NextCapacity(size, buckets.Length);
      var larger := new Bucket<E>[capacity](_ => Free);
      AllFree(larger[..]);
      assert larger[..] == Blank<E>(capacity);
      MoveAll(buckets, larger, size);
      buckets := larger;
    }

    /**
     `removeFromHashTable` of the element in bucket `at`. Exactly that element goes; the
     others stay reachable if and only if the removal is harmless.
     */
    method Remove(at: nat)
      requires Valid() && at < buckets.Length && buckets[at].Used?
      modifies this, buckets
      ensures buckets == old(buckets) && size == old(size) - 1
      ensures Items(buckets[..]) == old(Items(buckets[..])) - multiset{old(buckets[at])}
      ensures Reachable(buckets[..]) <==> Harmless(old(buckets[..]), at)
      ensures Valid() <==> Harmless(old(buckets[..]), at)
      ensures buckets[..] == Closed(old(buckets[..]), at, Succ(buckets.Length, at), 2 * buckets.Length + 1)
    {
      hide Closed, Harmless;
      ghost var t := buckets[..];
      ghost var free := FindFree(t, size);
      Unlink(buckets, at, free);
      RemovedItems(t, at, buckets[..]);
      size := size - 1;
    }
  }

  method NextCapacity(size: nat, capacity: nat) returns (c: nat)
    requires IsCapacity(capacity) && size > 0 && !Overloaded(size - 1, capacity)
    ensures IsCapacity(c) && !Overloaded(size, c) && Grows(capacity, c)
  {
    var next := NextPrime(capacity);
    GrowthLeavesRoom(size, capacity, next);
    c := if next <= capacity then capacity * 2 + 1 else next;
  }

  /** The loop of `rehashTable`. */
  method MoveAll<E>(from: array<Bucket<E>>, larger: array<Bucket<E>>, size: nat)
    requires from != larger && size == from.Length - multiset(from[..])[Free] && size < larger.Length
    requires Reachable(larger[..]) && Items(larger[..]) == multiset{} && multiset(larger[..])[Free] == larger.Length
    requires from.Length < larger.Length
    modifies larger
    ensures larger[..] == PlaceAll(old(larger[..]), from[..])
    ensures Reachable(larger[..]) && Items(larger[..]) == Items(from[..])
    ensures size == larger.Length - multiset(larger[..])[Free]
  {
    ghost var t, start := from[..], larger[..];
    var i := 0;
    while i < from.Length
      invariant 0 <= i <= from.Length && from[..] == t
      invariant larger[..] == PlaceAll(start, t[..i])
      invariant Reachable(larger[..])
      invariant Items(larger[..]) == Items(t[..i])
      invariant larger.Length - multiset(larger[..])[Free] == i - multiset(t[..i])[Free]
    {
      MoreItems(t, i);
      PlaceMore(start, t, i);
      if from[i].Used? {
        Move(larger, from[i]);
      }
      i := i + 1;
    }
    assert t[..i] == t;
  }

  /** One element into the larger table: the inner loop of `rehashTable`. */
  method Move<E>(larger: array<Bucket<E>>, b: Bucket<E>)
    requires Reachable(larger[..]) && b.Used? && multiset(larger[..])[Free] > 0
    modifies larger
    ensures Reachable(larger[..])
    ensures larger[..] == Place(old(larger[..]), b)
    ensures Items(larger[..]) == old(Items(larger[..])) + multiset{b}
    ensures multiset(larger[..])[Free] == old(multiset(larger[..])[Free]) - 1
  {
    ghost var t := larger[..];
    assert Free in multiset(t);
    ghost var free: nat :| free < |t| && t[free].Free?;
    ghost var home := Home(b.code, larger.Length);
    var i := Home(b.code, larger.Length);
    while larger[i].Used?
      invariant 0 <= i < larger.Length && UsedBefore(t, b.code, i)
      invariant Dist(larger.Length, home, i) <= Dist(larger.Length, home, free)
      invariant larger[..] == t
      decreases larger.Length - Dist(larger.Length, home, i)
    {
      NextIsFurther(larger.Length, home, i, free);
      UsedBeforeNext(t, b.code, i);
      i := Succ(larger.Length, i);
    }
    FillKeepsReachable(t, i, b);
    FillAddsItem(t, i, b);
    PlaceAt(t, b, i);
    larger[i] := b;
    assert larger[..] == t[i := b];
  }

  lemma UsedBeforeNext<E>(t: seq<Bucket<E>>, code: nat, i: nat)
    requires i < |t| && UsedBefore(t, code, i) && t[i].Used? && Dist(|t|, Home(code, |t|), i) + 1 < |t|
    ensures UsedBefore(t, code, Succ(|t|, i))
  {
  }

  lemma ProbeStep<E, Q>(t: seq<Bucket<E>>, code: nat, query: Q, compare: (E, Q) -> bool, i: nat, free: nat)
    requires i < |t| && free < |t| && t[free].Free? && t[i].Used?
    requires UsedBefore(t, code, i) && NoneBefore(t, code, query, compare, i)
    requires Dist(|t|, Home(code, |t|), i) <= Dist(|t|, Home(code, |t|), free)
    requires !(t[i].code == code && compare(t[i].elem, query))
    ensures UsedBefore(t, code, Succ(|t|, i)) && NoneBefore(t, code, query, compare, Succ(|t|, i))
    ensures Dist(|t|, Home(code, |t|), i) < Dist(|t|, Home(code, |t|), Succ(|t|, i)) <= Dist(|t|, Home(code, |t|), free)
  {
    NextIsFurther(|t|, Home(code, |t|), i, free);
    UsedBeforeNext(t, code, i);
  }

  lemma NoneMatched<E, Q>(t: seq<Bucket<E>>, code: nat, query: Q, compare: (E, Q) -> bool, i: nat)
    requires Reachable(t) && i < |t| && t[i].Free? && NoneBefore(t, code, query, compare, i)
    ensures !Matched(Items(t), code, query, compare)
  {
    FreeEndsProbe(t, code, i);
    forall b | b in Items(t) && b.Used? && b.code == code ensures !compare(b.elem, query) {
      assert b in multiset(t);
      var s :| 0 <= s < |t| && t[s] == b;
    }
  }

  ghost function FindFree<E>(t: seq<Bucket<E>>, size: nat): (free: nat)
    requires size == |t| - multiset(t)[Free] && !Overloaded(size, |t|)
    ensures free < |t| && t[free].Free?
  {
    assert Free in multiset(t);
    var free: nat :| free < |t| && t[free].Free?;
    free
  }

  lemma {:induction false} AllFree<E>(t: seq<Bucket<E>>)
    requires forall i :: 0 <= i < |t| ==> t[i].Free?
    ensures multiset(t)[Free] == |t| && Items(t) == multiset{}
  {
    if t != [] {
      assert t == [t[0]] + t[1..];
      AllFree(t[1..]);
    }
  }

  lemma RemovedItems<E>(t: seq<Bucket<E>>, at: nat, u: seq<Bucket<E>>)
    requires at < |t| == |u| && t[at].Used? && multiset(u) == multiset(t[at := Free])
    ensures Items(u) == Items(t) - multiset{t[at]}
    ensures multiset(u)[Free] == multiset(t)[Free] + 1 <= |t|
  {
    assert t[at] in multiset(t);
    assert multiset(u)[Free] <= |multiset(u)|;
  }

  lemma MoreItems<E>(t: seq<Bucket<E>>, i: nat)
    requires i < |t|
    ensures t[i].Free? ==> Items(t[..i + 1]) == Items(t[..i])
                           && multiset(t[..i + 1])[Free] == multiset(t[..i])[Free] + 1
    ensures t[i].Used? ==> Items(t[..i + 1]) == Items(t[..i]) + multiset{t[i]}
    ensures t[i].Used? ==> multiset(t[..i + 1])[Free] == multiset(t[..i])[Free]
    ensures t[i].Used? ==> i - multiset(t[..i])[Free] < |t| - multiset(t)[Free]
  {
    assert t[..i + 1] == t[..i] + [t[i]];
    assert t == t[..i] + [t[i]] + t[i + 1..];
    assert multiset(t[i + 1..])[Free] <= |multiset(t[i + 1..])|;
  }
}
