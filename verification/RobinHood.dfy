/** Slot tables of the Robin Hood map: probe distances and what they guarantee. */
module RobinHood {
  import opened Ring

  /** A slot; the home position is stored beside the item, as in the source. */
  datatype Slot<K, V> = Empty | Full(home: nat, key: K, val: V)

  predicate Homed<K, V>(t: seq<Slot<K, V>>, hash: K -> nat) {
    forall i :: 0 <= i < |t| && t[i].Full? ==> t[i].home == Home(hash(t[i].key), |t|)
  }

  /** The probe distance of the item in slot `i`. */
  function D<K, V>(t: seq<Slot<K, V>>, i: nat): nat
    requires i < |t| && t[i].Full? && t[i].home < |t|
  {
    Dist(|t|, t[i].home, i)
  }

  /** The Robin Hood order at slot `i`: a displaced item follows one displaced at most one less. */
  predicate OrderedAt<K, V>(t: seq<Slot<K, V>>, hash: K -> nat, i: nat)
    requires Homed(t, hash) && i < |t|
  {
    t[i].Full? && D(t, i) > 0 ==>
      var p := Pred(|t|, i);
      t[p].Full? && D(t, i) <= D(t, p) + 1
  }

  predicate Ordered<K, V>(t: seq<Slot<K, V>>, hash: K -> nat) {
    Homed(t, hash) && forall i :: 0 <= i < |t| ==> OrderedAt(t, hash, i)
  }

  predicate Distinct<K(==), V>(t: seq<Slot<K, V>>) {
    forall i, j :: 0 <= i < j < |t| && t[i].Full? && t[j].Full? ==> t[i].key != t[j].key
  }

  predicate Present<K(==), V>(t: seq<Slot<K, V>>, k: K) {
    exists i :: 0 <= i < |t| && t[i].Full? && t[i].key == k
  }

  /** The full slots are exactly the pairs of the finite map `m`. */
  ghost predicate Represents<K, V>(slots: multiset<Slot<K, V>>, m: map<K, V>) {
    && (forall s :: s in slots && s.Full? ==> s.key in m && m[s.key] == s.val)
    && (forall k :: k in m ==> exists s :: s in slots && s.Full? && s.key == k)
  }

  /**
   From the home position of the item in slot `s` up to `s`, every slot is full and
   its item is displaced at least as far as a probe for the item in `s` has come.
   */
  lemma {:induction false} OnPath<K, V>(t: seq<Slot<K, V>>, hash: K -> nat, s: nat, u: nat)
    requires Ordered(t, hash) && s < |t| && u < |t| && t[s].Full?
    requires Dist(|t|, t[s].home, u) <= D(t, s)
    ensures t[u].Full? && D(t, u) >= Dist(|t|, t[s].home, u)
    decreases D(t, s) - Dist(|t|, t[s].home, u)
  {
    if u != s {
      var v := Succ(|t|, u);
      OnPath(t, hash, s, v);
      assert OrderedAt(t, hash, v) && Pred(|t|, v) == u;
    }
  }

  /** A probe for `k` stops at a slot that is empty or less displaced than the probe. */
  predicate StopsAt<K, V>(t: seq<Slot<K, V>>, hash: K -> nat, k: K, u: nat)
    requires Homed(t, hash) && u < |t|
  {
    t[u].Empty? || Dist(|t|, Home(hash(k), |t|), u) > D(t, u)
  }

  /** Where a probe stops, the key is not at this slot and not at any later one. */
  lemma StopMeansAbsent<K, V>(t: seq<Slot<K, V>>, hash: K -> nat, k: K, u: nat)
    requires Ordered(t, hash) && u < |t| && StopsAt(t, hash, k, u)
    ensures forall s :: 0 <= s < |t| && t[s].Full? && t[s].key == k ==>
              Dist(|t|, Home(hash(k), |t|), s) < Dist(|t|, Home(hash(k), |t|), u)
  {
    forall s | 0 <= s < |t| && t[s].Full? && t[s].key == k
      ensures Dist(|t|, Home(hash(k), |t|), s) < Dist(|t|, Home(hash(k), |t|), u)
    {
      if Dist(|t|, Home(hash(k), |t|), u) <= D(t, s) {
        OnPath(t, hash, s, u);
      }
    }
  }

  /** A probe for `k` does not meet it before slot `s`. */
  predicate NoneBefore<K(==), V>(t: seq<Slot<K, V>>, hash: K -> nat, k: K, s: nat)
    requires s < |t|
  {
    var home := Home(hash(k), |t|);
    forall u :: 0 <= u < |t| && Dist(|t|, home, u) < Dist(|t|, home, s) && t[u].Full? ==> t[u].key != k
  }

  /** The first slot with `k` that a probe from its home meets. */
  predicate FirstMatch<K(==), V>(t: seq<Slot<K, V>>, hash: K -> nat, k: K, s: nat) {
    s < |t| && t[s].Full? && t[s].key == k && NoneBefore(t, hash, k, s)
  }

  lemma FirstMatchIsOne<K, V>(t: seq<Slot<K, V>>, hash: K -> nat, k: K, i: nat, j: nat)
    requires FirstMatch(t, hash, k, i) && FirstMatch(t, hash, k, j)
    ensures i == j
  {
    var home := Home(hash(k), |t|);
    assert Dist(|t|, home, i) == Dist(|t|, home, j);
  }

  lemma {:induction false} FirstMatchExists<K, V>(t: seq<Slot<K, V>>, hash: K -> nat, k: K, i: nat)
    requires i < |t| && t[i].Full? && t[i].key == k
    ensures exists s: nat :: FirstMatch(t, hash, k, s)
    decreases Dist(|t|, Home(hash(k), |t|), i)
  {
    var home := Home(hash(k), |t|);
    if u :| 0 <= u < |t| && Dist(|t|, home, u) < Dist(|t|, home, i) && t[u].Full? && t[u].key == k {
      FirstMatchExists(t, hash, k, u);
    } else {
      assert FirstMatch(t, hash, k, i);
    }
  }

  /** A probe for the key of `x` meets `x` before any other item with that key. */
  ghost predicate Leads<K, V>(t: seq<Slot<K, V>>, hash: K -> nat, x: Slot<K, V>)
    requires x.Full?
  {
    exists s: nat :: FirstMatch(t, hash, x.key, s) && t[s] == x
  }

  lemma LeaderIsMet<K, V>(t: seq<Slot<K, V>>, hash: K -> nat, x: Slot<K, V>, s: nat)
    requires x.Full? && Leads(t, hash, x) && FirstMatch(t, hash, x.key, s)
    ensures t[s] == x
  {
    var i: nat :| FirstMatch(t, hash, x.key, i) && t[i] == x;
    FirstMatchIsOne(t, hash, x.key, i, s);
  }

  /** What a table of `n` slots stores for a pair. */
  function Item<K, V>(hash: K -> nat, n: nat, k: K, v: V): (x: Slot<K, V>)
    requires n > 0
    ensures x.Full?
  {
    Full(Home(hash(k), n), k, v)
  }

  /** Searches find exactly the pairs of `m`: of several copies of a key, the one that is met first counts. */
  ghost predicate Finds<K, V>(t: seq<Slot<K, V>>, hash: K -> nat, m: map<K, V>)
    requires |t| > 0
  {
    && (forall i :: 0 <= i < |t| && t[i].Full? ==> t[i].key in m)
    && (forall k :: k in m ==> Leads(t, hash, Item(hash, |t|, k, m[k])))
  }

  /** What is found is determined by the table. */
  lemma FindsOne<K, V>(t: seq<Slot<K, V>>, hash: K -> nat, m: map<K, V>, m': map<K, V>)
    requires |t| > 0 && Finds(t, hash, m) && Finds(t, hash, m')
    ensures m == m'
  {
    forall k | k in m
      ensures k in m' && m[k] == m'[k]
    {
      FindsPair(t, hash, m, m', k);
    }
    forall k | k in m'
      ensures k in m
    {
      FindsPair(t, hash, m', m, k);
    }
  }

  lemma FindsPair<K, V>(t: seq<Slot<K, V>>, hash: K -> nat, m: map<K, V>, m': map<K, V>, k: K)
    requires |t| > 0 && Finds(t, hash, m) && Finds(t, hash, m') && k in m
    ensures k in m' && m[k] == m'[k]
  {
    var x := Item(hash, |t|, k, m[k]);
    assert Leads(t, hash, x);
    var s: nat :| FirstMatch(t, hash, k, s) && t[s] == x;
    LeaderIsMet(t, hash, Item(hash, |t|, k, m'[k]), s);
  }

  /** If no key is stored twice, the stored items are exactly the pairs that are found. */
  lemma DistinctFinds<K, V>(t: seq<Slot<K, V>>, hash: K -> nat, m: map<K, V>)
    requires |t| > 0 && Distinct(t) && Finds(t, hash, m)
    ensures Represents(multiset(t), m)
  {
    forall x | x in multiset(t) && x.Full?
      ensures x.key in m && m[x.key] == x.val
    {
      var i :| 0 <= i < |t| && t[i] == x;
      var y := Item(hash, |t|, x.key, m[x.key]);
      assert Leads(t, hash, y);
      var s: nat :| FirstMatch(t, hash, x.key, s) && t[s] == y;
      assert i == s;
    }
    forall k | k in m
      ensures exists x :: x in multiset(t) && x.Full? && x.key == k
    {
      var y := Item(hash, |t|, k, m[k]);
      assert Leads(t, hash, y);
      var s: nat :| FirstMatch(t, hash, k, s) && t[s] == y;
      assert y in multiset(t);
    }
  }

  /** Slot `s` holds `k` and is the first slot of the items that share the home of `k`. */
  predicate FirstOfHome<K(==), V>(t: seq<Slot<K, V>>, hash: K -> nat, k: K, s: nat)
    requires Homed(t, hash) && s < |t|
  {
    && t[s].Full? && t[s].key == k
    && forall u :: 0 <= u < |t| && Dist(|t|, t[s].home, u) < D(t, s) ==> t[u].Full? && t[u].home != t[s].home
  }

  /** A put of `k` overwrites an item, rather than adding one. */
  predicate Overwrites<K(==), V>(t: seq<Slot<K, V>>, hash: K -> nat, k: K)
    requires Homed(t, hash)
  {
    exists s :: 0 <= s < |t| && FirstOfHome(t, hash, k, s)
  }

  /** A valid table whose two items share a home: a put of the second key does not overwrite it. */
  lemma SecondOfHomeIsNotOverwritten()
    ensures var t: seq<Slot<int, int>> := [Full(0, 2, 20), Full(0, 1, 10), Empty, Empty, Empty];
            var hash: int -> nat := _ => 0;
            Ordered(t, hash) && Distinct(t) && Present(t, 1) && !Overwrites(t, hash, 1)
  {
    var t: seq<Slot<int, int>> := [Full(0, 2, 20), Full(0, 1, 10), Empty, Empty, Empty];
    var hash: int -> nat := _ => 0;
    assert Home(0, 5) == 0;
    assert t[1].Full? && t[1].key == 1;
    assert Homed(t, hash);
    assert !FirstOfHome(t, hash, 1, 1) by { assert Dist(5, 0, 0) < D(t, 1); }
  }
}
