/** What a second copy of a key costs. */
module RobinHoodCopies {
  import opened Options
  import opened Ring
  import opened RobinHood
  import opened RobinHoodPut
  import opened RobinHoodFound
  import opened RobinHoodMap
  import opened HmapSize

  /** A put of `k` leaves a second copy and makes the table grow, and the new copy lies before the old one. */
  ghost predicate Loses<K, V>(t: seq<Slot<K, V>>, hash: K -> nat, size: nat, k: K)
    requires |t| > 0 && Homed(t, hash)
  {
    Present(t, k) && !Overwrites(t, hash, k) && |t| < size && !Wraps(t, hash, k)
  }

  /** In a table without copies, what was put is found, or exactly where `Loses` holds, the old value. */
  method PutThenGet<K(==), V(==)>(h: Hmap<K, V>, k: K, v: V) returns (got: Option<V>)
    requires h.Valid() && Distinct(h.data[..])
    modifies h, h.data
    ensures h.Valid()
    ensures var lost := old(Loses(h.data[..], h.hash, h.sizeFor(h.nitems + 1), k));
            (lost ==> k in old(h.model)) && got == Some(if lost then old(h.model)[k] else v)
  {
    ghost var t0, m := h.data[..], h.model;
    ghost var x := Item(h.hash, |t0|, k, v);
    hide Ordered, Finds, Distinct, Placed, Sizing, Collected;
    var added, t := h.Put(k, v);
    got := h.Get(k);
    PutLoses(t0, t, h.hash, k, v, added, m);
    hide *;
  }

  lemma PutLoses<K, V>(t: seq<Slot<K, V>>, u: seq<Slot<K, V>>, hash: K -> nat, k: K, v: V, added: bool, m: map<K, V>)
    requires |t| > 0 && Distinct(t) && Placed(t, u, hash, Item(hash, |t|, k, v), added) && Finds(t, hash, m)
    ensures Present(t, k) <==> k in m
    ensures !Distinct(u) <==> Present(t, k) && !Overwrites(t, hash, k)
    ensures !Present(t, k) || !Overwrites(t, hash, k) ==> added
    ensures Distinct(u) || (k in Collected(u) && Collected(u)[k] == if Wraps(t, hash, k) then v else m[k])
  {
    var x := Item(hash, |t|, k, v);
    CopyIsLeft(t, u, hash, x, added, m);
    FoundIfPresent(t, hash, k, m);
    hide Placed, Ordered, Distinct, Collected, Overwrites, Leads;
    if k in m {
      var s := Stored(t, hash, k, m);
      if !Distinct(u) {
        RehashKeepsOld(t, u, hash, x, s);
      }
    }
  }

  lemma Stored<K, V>(t: seq<Slot<K, V>>, hash: K -> nat, k: K, m: map<K, V>) returns (s: nat)
    requires |t| > 0 && Finds(t, hash, m) && k in m
    ensures s < |t| && t[s].Full? && t[s].key == k && t[s].val == m[k]
  {
    assert Leads(t, hash, Item(hash, |t|, k, m[k]));
    s :| s < |t| && t[s].Full? && t[s].key == k && t[s].val == m[k];
  }

  /**
   Putting a key that is present but not the first of its home, and removing it again: the new value is the one
   that is found in between, and afterwards the old one is back.
   */
  method PutThenRemove<K(==), V(==)>(h: Hmap<K, V>, k: K, v: V) returns (got: Option<V>)
    requires h.Valid() && Distinct(h.data[..]) && k in h.model && !Overwrites(h.data[..], h.hash, k)
    requires h.sizeFor(h.nitems + 1) <= h.data.Length
    modifies h, h.data
    ensures got == Some(v)
    ensures h.Valid() && Distinct(h.data[..]) && h.model == old(h.model) && h.nitems == old(h.nitems)
  {
    ghost var t0, m := h.data[..], h.model;
    ghost var x := PutCopy(h, k, v);
    hide *;
    got := h.Get(k);
    RemoveCopy(h, k, t0, x, m);
  }

  method PutCopy<K(==), V(==)>(h: Hmap<K, V>, k: K, v: V) returns (ghost x: Slot<K, V>)
    requires h.Valid() && Distinct(h.data[..]) && k in h.model && !Overwrites(h.data[..], h.hash, k)
    requires h.sizeFor(h.nitems + 1) <= h.data.Length
    modifies h, h.data
    ensures h.data == old(h.data) && h.data.Length > 0 && x == Item(h.hash, h.data.Length, k, v)
    ensures h.Valid() && Placed(old(h.data[..]), h.data[..], h.hash, x, true)
    ensures Finds(old(h.data[..]), h.hash, old(h.model))
    ensures h.model == old(h.model)[k := v] && h.nitems == old(h.nitems) + 1
  {
    hide Sizing, OrderedAt, FirstMatch;
    ghost var t0 := h.data[..];
    x := Item(h.hash, |t0|, k, v);
    assert |t0| > 0 && Finds(t0, h.hash, h.model);
    hide Hmap.Valid, Hmap.Sound, Finds, Distinct, Placed, Collected, Overwrites;
    var added, t := h.Put(k, v);
    CopyIsLeft(t0, t, h.hash, x, added, old(h.model));
  }

  /** Takes out the copy `x` that was put into the table `t0`. */
  method RemoveCopy<K(==), V(==)>(h: Hmap<K, V>, k: K, ghost t0: seq<Slot<K, V>>, ghost x: Slot<K, V>,
                                  ghost m: map<K, V>)
    requires h.Valid() && Placed(t0, h.data[..], h.hash, x, true) && k == x.key && k in h.model
    requires |t0| > 0 && Distinct(t0) && Finds(t0, h.hash, m)
    modifies h, h.data
    ensures h.Valid() && Distinct(h.data[..]) && h.model == m && h.nitems == old(h.nitems) - 1
  {
    hide Hmap.Valid, Hmap.Sound, Finds, Distinct, Placed, Collected, Taken, SameBut;
    ghost var t := h.data[..];
    ghost var t2, mid := h.Remove(k);
    RemovesLeader(t0, t, t2, h.hash, x, m, mid);
  }

  /** A copy that was put is taken out again. */
  lemma RemovesLeader<K, V>(t0: seq<Slot<K, V>>, t: seq<Slot<K, V>>, t2: seq<Slot<K, V>>, hash: K -> nat,
                            x: Slot<K, V>, m: map<K, V>, mid: map<K, V>)
    requires |t0| > 0 && Distinct(t0) && Finds(t0, hash, m)
    requires Placed(t0, t, hash, x, true) && Taken(t, t2, hash, x.key, mid)
    ensures Distinct(t2) && mid == m
  {
    hide Finds, Distinct, NoneBefore, Ordered, OthersLead, CopyAdded, MovedOn;
    var at: nat :| FirstMatch(t, hash, x.key, at) && multiset(t2) == multiset(t[at := Empty])
                   && Finds(t[at := Empty], hash, mid);
    LeaderIsMet(t, hash, x, at);
    EmptiedTable(t, at);
    var u := t[at := Empty];
    assert |u| > 0 && multiset(u) == multiset(t0);
    hide Leads, Exchanged, Placed, Taken, FirstMatch;
    SameDistinct(t0, t2);
    SameDistinct(t0, u);
    DistinctFinds(t0, hash, m);
    DistinctFinds(u, hash, mid);
    SameModel(multiset(t0), m, mid);
  }

  lemma SameModel<K, V>(slots: multiset<Slot<K, V>>, m: map<K, V>, n: map<K, V>)
    requires Represents(slots, m) && Represents(slots, n)
    ensures m == n
  {
  }

  /** Tables of five slots that outgrow them: the new value is lost, and with a home at the end it is not. */
  lemma GrowthWitnesses()
    ensures var t: seq<Slot<int, int>> := [Full(0, 4, 40), Full(0, 3, 30), Full(0, 2, 20), Full(0, 1, 10), Empty];
            var hash: int -> nat := _ => 0;
            Ordered(t, hash) && Distinct(t) && Loses(t, hash, Ideal(5), 1)
    ensures var t: seq<Slot<int, int>> := [Full(4, 3, 30), Full(4, 2, 20), Full(4, 1, 10), Empty, Full(4, 4, 40)];
            var hash: int -> nat := _ => 4;
            Ordered(t, hash) && Distinct(t) && Present(t, 1) && !Overwrites(t, hash, 1) && Wraps(t, hash, 1)
  {
    NewIsLost();
    NewIsKept();
  }

  lemma NewIsLost()
    ensures var t: seq<Slot<int, int>> := [Full(0, 4, 40), Full(0, 3, 30), Full(0, 2, 20), Full(0, 1, 10), Empty];
            var hash: int -> nat := _ => 0;
            Ordered(t, hash) && Distinct(t) && Loses(t, hash, Ideal(5), 1)
  {
    var t: seq<Slot<int, int>> := [Full(0, 4, 40), Full(0, 3, 30), Full(0, 2, 20), Full(0, 1, 10), Empty];
    var hash: int -> nat := _ => 0;
    assert Home(0, 5) == 0 && t[3].Full? && t[3].key == 1;
    assert Homed(t, hash);
    assert !FirstOfHome(t, hash, 1, 3) by { assert Dist(5, 0, 0) < D(t, 3); }
    assert Ideal(5) == 11 by { SizeForFive(); }
    WrapsAt(t, hash, 1, 0, 3);
  }

  lemma SizeForFive()
    ensures Ideal(5) == 11
  {
    assert Wanted(5) == 6;
    assert FirstAtLeast(6, 3) == 11;
    assert FirstAtLeast(6, 2) == 11;
    assert FirstAtLeast(6, 1) == 11;
  }

  lemma NewIsKept()
    ensures var t: seq<Slot<int, int>> := [Full(4, 3, 30), Full(4, 2, 20), Full(4, 1, 10), Empty, Full(4, 4, 40)];
            var hash: int -> nat := _ => 4;
            Ordered(t, hash) && Distinct(t) && Present(t, 1) && !Overwrites(t, hash, 1) && Wraps(t, hash, 1)
  {
    var t: seq<Slot<int, int>> := [Full(4, 3, 30), Full(4, 2, 20), Full(4, 1, 10), Empty, Full(4, 4, 40)];
    var hash: int -> nat := _ => 4;
    assert Home(4, 5) == 4 && t[2].Full? && t[2].key == 1 && t[4].Full?;
    assert Homed(t, hash);
    assert !FirstOfHome(t, hash, 1, 2) by { assert Dist(5, 4, 4) < D(t, 2); }
    assert OthersBefore(t, 4, 4) && Succ(5, 2) == 3;
  }
}
