/** The Robin Hood hash map with backward-shift removal. */
module RobinHoodMap {
  import opened Options
  import opened Ring
  import opened RobinHood
  import opened RobinHoodSteps
  import opened RobinHoodPut
  import opened RobinHoodFound
  import opened HmapSize

  class Hmap<K(==), V(==)> {
    const hash: K -> nat
    const sizeFor: nat -> nat   // hmapIdealSize
    var data: array<Slot<K, V>>
    var nitems: nat
    ghost var model: map<K, V>

    /** Slot order, stored homes and item count are consistent, and searches find `model`; there may be copies. */
    ghost predicate Sound()
      reads this, data
    {
      && data.Length > 0 && Sizing(sizeFor)
      && Ordered(data[..], hash)
      && nitems == data.Length - multiset(data[..])[Empty]
      && Finds(data[..], hash, model)
    }

    /** What holds between calls: there is room for one more item, too. */
    ghost predicate Valid()
      reads this, data
    {
      Sound() && sizeFor(nitems) <= data.Length
    }

    /** `hmapInitWithCapacity` */
    constructor (hash: K -> nat, capacity: nat)
      ensures Valid() && fresh(data) && this.hash == hash && model == map[]
      ensures sizeFor == Ideal && data.Length == Ideal(capacity)
    {
      this.hash := hash;
      nitems, model := 0, map[];
      sizeFor := Ideal;
      IdealIsSizing();
      var n := IdealSize(capacity);
      assert 0 < Ideal(0) <= Ideal(capacity) by { IdealLeavesRoom(0); IdealMonotone(0, capacity); }
      data := new Slot<K, V>[n](_ => Empty);
      new;
      AllEmpty(data[..]);
    }

    /** A probe for `k` from its home: `hmapGet` and the search of `hmapRemove`. */
    method Probe(k: K) returns (r: Option<nat>)
      requires Sound() && nitems < data.Length
      ensures r.Some? ==> FirstMatch(data[..], hash, k, r.value)
      ensures r.None? ==> !Present(data[..], k)
    {
      ghost var t, home := data[..], Home(hash(k), data.Length);
      assert Empty in multiset(t);
      ghost var free: nat :| free < data.Length && t[free].Empty?;
      var i: nat, j: nat := Home(hash(k), data.Length), 0;
      assert NoneBefore(t, hash, k, i);
      hide Ordered, Finds, Sizing, NoneBefore, Present;
      while true
        invariant i < data.Length && j == Dist(data.Length, home, i) <= Dist(data.Length, home, free)
        invariant NoneBefore(t, hash, k, i)
        decreases data.Length - j
      {
        if data[i].Full? {
          HomeIsInside(t, hash, i);
        }
        if data[i].Empty? || j > Dist(data.Length, data[i].home, i) {
          StopMeansAbsent(t, hash, k, i);
          NoneAnywhere(t, hash, k, i);
          return None;
        }
        if data[i].key == k {
          return Some(i);
        }
        NoneUpTo(t, hash, k, i, free);
        i, j := Succ(data.Length, i), j + 1;
      }
    }

    /** `hmapGet` */
    method Get(k: K) returns (r: Option<V>)
      requires Valid()
      ensures r == if k in model then Some(model[k]) else None
    {
      ghost var t := data[..];
      var at := Probe(k);
      if at.None? {
        FoundIfPresent(t, hash, k, model);
        return None;
      }
      FoundFirst(t, hash, k, at.value, model);
      return Some(data[at.value].val);
    }

    /**
     `hmapPutInternal`. A put overwrites exactly when the key is the first item of its
     home; otherwise it adds an item, even if the key is stored further on.
     */
    method PutInternal(k: K, v: V) returns (added: bool)
      requires Sound() && nitems < data.Length
      modifies this, data
      ensures Sound() && data == old(data) && nitems == old(nitems) + if added then 1 else 0
      ensures Placed(old(data[..]), data[..], hash, Item(hash, data.Length, k, v), added)
      ensures model == old(model)[k := v]
      ensures old(Distinct(data[..])) ==>
                (Distinct(data[..]) <==> k !in old(model) || old(Overwrites(data[..], hash, k)))
    {
      hide Finds, Sizing, Placed, Ordered, Distinct, Overwrites;
      ghost var t := data[..];
      added := Place(data, hash, Item(hash, data.Length, k, v));
      PutFinds(t, data[..], hash, k, v, added, model);
      PlacedCounts(t, data[..], hash, Item(hash, data.Length, k, v), added);
      if Distinct(t) {
        CopyIsLeft(t, data[..], hash, Item(hash, data.Length, k, v), added, model);
      }
      if added {
        nitems := nitems + 1;
      }
      model := model[k := v];
    }

    /**
     `hmapPut`. Where `mayRehash` is false the table is known to be large enough, so nothing is rehashed. `t` is the
     table before it grows.
     */
    method Put(k: K, v: V, ghost mayRehash: bool := true) returns (added: bool, ghost t: seq<Slot<K, V>>)
      requires mayRehash || sizeFor(nitems + 1) <= data.Length
      requires Valid()
      modifies this, data
      ensures Valid() && Placed(old(data[..]), t, hash, Item(hash, old(data.Length), k, v), added)
      ensures var total := old(nitems) + if added then 1 else 0;
              && Grown(t, old(data.Length), total, old(model)[k := v])
              && if old(data.Length) < sizeFor(total) then fresh(data) else data == old(data) && data[..] == t
      ensures old(Distinct(data[..])) ==>
                (Distinct(t) <==> k !in old(model) || old(Overwrites(data[..], hash, k)))
      ensures !mayRehash ==> data == old(data)
      decreases mayRehash, 1
    {
      hide Ordered, Finds, Placed, Overwrites, Distinct, Collected;
      added := PutInternal(k, v);
      t := data[..];
      if added {
        ResizeMore(mayRehash);
      }
    }

    /** The table `t` of `n` slots with `total` items, in which `m` is found, was resized to `size` slots. */
    ghost predicate Resized(t: seq<Slot<K, V>>, n: nat, size: nat, total: nat, m: map<K, V>)
      reads this, data
    {
      && |t| == n && data.Length == size
      && model == (if size == n then m else Collected(t))
      && (Distinct(t) ==> Distinct(data[..]) && model == m && nitems == total)
      && nitems <= total
    }

    ghost predicate Grown(t: seq<Slot<K, V>>, n: nat, total: nat, m: map<K, V>)
      reads this, data
    {
      Resized(t, n, if n < sizeFor(total) then sizeFor(total) else n, total, m)
    }

    /** `hmapResizeMore` */
    method ResizeMore(ghost mayRehash: bool)
      requires mayRehash || sizeFor(nitems) <= data.Length
      requires Sound()
      modifies this, data
      ensures Valid() && Grown(old(data[..]), old(data.Length), old(nitems), old(model))
      ensures if old(data.Length) < sizeFor(old(nitems)) then fresh(data)
              else data == old(data) && data[..] == old(data[..])
      decreases mayRehash, 0
    {
      var newSize := sizeFor(nitems);
      if newSize > data.Length {
        Rehash(newSize);
      }
    }

    /** `hmapResizeLess` */
    method ResizeLess()
      requires Valid()
      modifies this, data
      ensures Valid() && Resized(old(data[..]), old(data.Length), sizeFor(old(nitems)), old(nitems), old(model))
      ensures if sizeFor(old(nitems)) < old(data.Length) then fresh(data)
              else data == old(data) && data[..] == old(data[..])
    {
      var newSize := sizeFor(nitems);
      if newSize < data.Length {
        Rehash(newSize);
      }
    }

    /** `hmapRehash` to the size for the present items. */
    method Rehash(newCapacity: nat)
      requires Sound() && newCapacity == sizeFor(nitems)
      modifies this, data
      ensures Valid() && fresh(data) && data.Length == newCapacity && nitems <= old(nitems)
      ensures model == Collected(old(data[..]))
      ensures old(Distinct(data[..])) ==> Distinct(data[..]) && model == old(model) && nitems == old(nitems)
      decreases false, 4
    {
      var oldData := data;
      ghost var total := nitems;
      hide Leads, FirstMatch;
      if Distinct(data[..]) {
        CollectedIsFound(data[..], hash, model);
      }
      data := new Slot<K, V>[newCapacity](_ => Empty);
      nitems, model := 0, map[];
      AllEmpty(data[..]);
      assert Ordered(data[..], hash) && Finds(data[..], hash, model) && Distinct(data[..]);
      hide Ordered, Finds, Distinct;
      Refill(oldData, total);
    }

    /** The loop of `hmapRehash`; the puts in it never rehash again. */
    method Refill(oldData: array<Slot<K, V>>, ghost total: nat)
      requires Valid() && model == map[] && nitems == 0 && data.Length == sizeFor(total) && oldData != data
      requires Distinct(data[..]) && total == oldData.Length - multiset(oldData[..])[Empty]
      modifies this, data
      ensures Valid() && data == old(data) && model == Collected(oldData[..]) && nitems <= total
      ensures Distinct(oldData[..]) ==> Distinct(data[..]) && nitems == total
      decreases false, 3
    {
      ghost var t := oldData[..];
      var i := 0;
      assert t[..0] == [];
      hide Ordered, Finds, Placed;
      while i < oldData.Length
        invariant 0 <= i <= oldData.Length && oldData[..] == t && data == old(data)
        invariant Valid() && model == Collected(t[..i])
        invariant nitems <= i - multiset(t[..i])[Empty]
        invariant Distinct(t) ==> Distinct(data[..]) && nitems == i - multiset(t[..i])[Empty]
      {
        NextSlot(t, i);
        if oldData[i].Full? {
          PutSlot(oldData[i].key, oldData[i].val, total, Distinct(t));
        }
        i := i + 1;
      }
      assert t[..i] == t;
    }

    /** One put of that loop; `distinct` says that there are no copies in the old table. */
    method PutSlot(k: K, v: V, ghost total: nat, ghost distinct: bool)
      requires Valid() && nitems < total && data.Length == sizeFor(total)
      requires distinct ==> Distinct(data[..]) && k !in model
      modifies this, data
      ensures Valid() && data == old(data) && model == old(model)[k := v]
      ensures old(nitems) <= nitems <= old(nitems) + 1
      ensures distinct ==> Distinct(data[..]) && nitems == old(nitems) + 1
      decreases false, 2
    {
      ghost var before := data[..];
      assert sizeFor(nitems + 1) <= sizeFor(total);
      var added, t := Put(k, v, false);
      if distinct {
        CopyIsLeft(before, t, hash, Item(hash, data.Length, k, v), added, old(model));
      }
    }

    /** `hmapRemove`. `t` is the table before it shrinks, and `mid` what is found in it. */
    method Remove(k: K) returns (ghost t: seq<Slot<K, V>>, ghost mid: map<K, V>)
      requires Valid()
      modifies this, data
      ensures Valid()
      ensures k !in old(model) ==> data == old(data) && data[..] == old(data[..]) && nitems == old(nitems)
                                   && model == old(model)
      ensures k in old(model) ==>
                && Taken(old(data[..]), t, hash, k, mid) && SameBut(old(model), mid, k) && old(nitems) > 0
                && Resized(t, old(data.Length), sizeFor(old(nitems) - 1), old(nitems) - 1, mid)
                && if data.Length < old(data.Length) then fresh(data) else data == old(data) && data[..] == t
      ensures old(Distinct(data[..])) ==>
                Distinct(data[..]) && model == old(model) - {k}
                && nitems == old(nitems) - if k in old(model) then 1 else 0
    {
      t, mid := data[..], model;
      ghost var t0, total := data[..], nitems - 1;
      hide Ordered, Finds, FirstMatch;
      var at := Probe(k);
      if at.None? {
        FoundIfPresent(t0, hash, k, model);
        return;
      }
      FoundFirst(t0, hash, k, at.value, model);
      mid := TakeFirst(k, at.value);
      t := data[..];
      TakenDistinct(t0, t, hash, k, old(model), mid);
      hide Taken, SameBut, Distinct, Collected;
      ResizeLess();
    }

    /** Takes out the item in slot `at`, the first one with `k` that is met. */
    method TakeFirst(k: K, at: nat) returns (ghost mid: map<K, V>)
      requires Sound() && nitems < data.Length && FirstMatch(data[..], hash, k, at)
      modifies this, data
      ensures Sound() && data == old(data) && nitems == old(nitems) - 1 && model == mid
      ensures Taken(old(data[..]), data[..], hash, k, mid) && SameBut(old(model), mid, k)
      ensures old(Distinct(data[..])) ==> k !in mid
    {
      ghost var t0 := data[..];
      mid := Uncovered(t0, hash, at, model);
      hide Finds, Distinct, SameBut, Sizing, FirstMatch;
      assert t0[at] in multiset(t0) && Empty in multiset(t0);
      TakeOut(data, hash, at);
      SameFinds(t0[at := Empty], data[..], hash, mid);
      model := mid;
      nitems := nitems - 1;
    }
  }

  /** A probe goes on behind an item of another key. */
  lemma NoneUpTo<K, V>(t: seq<Slot<K, V>>, hash: K -> nat, k: K, i: nat, free: nat)
    requires i < |t| && free < |t| && NoneBefore(t, hash, k, i) && t[i].Full? && t[i].key != k && t[free].Empty?
    requires Dist(|t|, Home(hash(k), |t|), i) <= Dist(|t|, Home(hash(k), |t|), free)
    ensures var n, home := |t|, Home(hash(k), |t|);
            && NoneBefore(t, hash, k, Succ(n, i))
            && Dist(n, home, Succ(n, i)) == Dist(n, home, i) + 1 <= Dist(n, home, free)
  {
    NextIsFurther(|t|, Home(hash(k), |t|), i, free);
  }

  lemma NoneAnywhere<K, V>(t: seq<Slot<K, V>>, hash: K -> nat, k: K, i: nat)
    requires i < |t| && NoneBefore(t, hash, k, i)
    requires forall s :: 0 <= s < |t| && t[s].Full? && t[s].key == k ==>
               Dist(|t|, Home(hash(k), |t|), s) < Dist(|t|, Home(hash(k), |t|), i)
    ensures !Present(t, k)
  {
  }

  lemma HomeIsInside<K, V>(t: seq<Slot<K, V>>, hash: K -> nat, i: nat)
    requires Ordered(t, hash) && i < |t| && t[i].Full?
    ensures t[i].home < |t| && D(t, i) == Dist(|t|, t[i].home, i)
  {
  }

  lemma EmptiedTable<K, V>(t: seq<Slot<K, V>>, i: nat)
    requires i < |t|
    ensures multiset(t[i := Empty]) == multiset(t) - multiset{t[i]} + multiset{Empty}
  {
    assert t[i] in multiset(t);
  }

  /** Empties slot `at` and shifts the displaced items behind it back by one. */
  method TakeOut<K(==), V(==)>(data: array<Slot<K, V>>, hash: K -> nat, at: nat)
    requires at < data.Length && data[at].Full? && Empty in multiset(data[..]) && Ordered(data[..], hash)
    modifies data
    ensures Ordered(data[..], hash) && multiset(data[..]) == multiset(old(data[..])[at := Empty])
    ensures multiset(data[..])[Empty] == old(multiset(data[..])[Empty]) + 1
    ensures AllLead(old(data[..])[at := Empty], data[..], hash)
  {
    ghost var t0 := data[..];
    ghost var free: nat :| free < data.Length && t0[free].Empty?;
    EmptyingMakesHole(t0, hash, at);
    EmptiedTable(t0, at);
    data[at] := Empty;
    assert data[..] == t0[at := Empty];
    ShiftBack(data, hash, at, D(t0, at), free);
  }

  /** The inner loop of `hmapRemove`: the hole moves until the next item is at home or missing. */
  method ShiftBack<K(==), V(==)>(data: array<Slot<K, V>>, hash: K -> nat, at: nat, ghost room: nat, ghost free: nat)
    requires HoleAt(data[..], hash, at, room) && free < data.Length && free != at && data[free].Empty?
    modifies data
    ensures Ordered(data[..], hash) && multiset(data[..]) == old(multiset(data[..]))
    ensures AllLead(old(data[..]), data[..], hash)
  {
    ghost var t0, items := data[..], multiset(data[..]);
    ghost var g := room;
    var n := data.Length;
    var i, ni := at, Succ(n, at);
    while data[ni].Full? && Dist(n, data[ni].home, ni) > 0
      invariant 0 <= i < n && ni == Succ(n, i) && i != free && data[free].Empty?
      invariant HoleAt(data[..], hash, i, g)
      invariant multiset(data[..]) == items && AllLead(t0, data[..], hash)
      decreases Dist(n, i, free)
    {
      ghost var t := data[..];
      ghost var u := t[i := t[ni]][ni := Empty];
      ShiftMovesHole(t, hash, i, g);
      ShiftItems(t, i, ni);
      ShiftKeepsLeaders(t, hash, i);
      AllLeadTwice(t0, t, u, hash);
      g := D(t, ni);
      data[i] := data[ni];
      data[ni] := Empty;
      assert data[..] == u;
      i, ni := ni, Succ(n, ni);
    }
    HoleCloses(data[..], hash, i, g);
  }

  lemma ShiftItems<K, V>(t: seq<Slot<K, V>>, i: nat, s: nat)
    requires i < |t| && s < |t| && i != s && t[i].Empty?
    ensures multiset(t[i := t[s]][s := Empty]) == multiset(t)
  {
    assert t[i] in multiset(t);
    assert multiset(t[i := t[s]]) == multiset(t) - multiset{Empty} + multiset{t[s]};
  }

  /** One more slot of the old table. */
  lemma NextSlot<K, V>(t: seq<Slot<K, V>>, i: nat)
    requires i < |t|
    ensures match t[i]
            case Empty => Collected(t[..i + 1]) == Collected(t[..i])
            case Full(_, k, v) => Collected(t[..i + 1]) == Collected(t[..i])[k := v]
    ensures multiset(t[..i + 1])[Empty] == multiset(t[..i])[Empty] + if t[i].Empty? then 1 else 0
    ensures t[i].Full? ==> i - multiset(t[..i])[Empty] < |t| - multiset(t)[Empty]
    ensures Distinct(t) && t[i].Full? ==> t[i].key !in Collected(t[..i])
  {
    SlotCounts(t, i);
    assert t[..i + 1][..i] == t[..i];
    if t[i].Full? {
      CollectedKeys(t[..i], t[i].key);
    }
  }

  lemma SlotCounts<K, V>(t: seq<Slot<K, V>>, i: nat)
    requires i < |t|
    ensures multiset(t[..i + 1])[Empty] == multiset(t[..i])[Empty] + if t[i].Empty? then 1 else 0
    ensures t[i].Full? ==> i - multiset(t[..i])[Empty] < |t| - multiset(t)[Empty]
  {
    assert t[..i + 1] == t[..i] + [t[i]];
    assert t == t[..i] + [t[i]] + t[i + 1..];
    assert multiset(t[i + 1..])[Empty] <= |multiset(t[i + 1..])|;
  }

  lemma PlacedCounts<K, V>(t: seq<Slot<K, V>>, u: seq<Slot<K, V>>, hash: K -> nat, x: Slot<K, V>, added: bool)
    requires Placed(t, u, hash, x, added)
    ensures Ordered(u, hash) && multiset(u)[Empty] == multiset(t)[Empty] - if added then 1 else 0
  {
  }

  /** One turn of that loop: the carried item takes a slot and the item there is carried on, or it is passed. */
  method PlaceTurn<K(==), V(==)>(data: array<Slot<K, V>>, hash: K -> nat, x: Slot<K, V>, i: nat, j: nat, c: Slot<K, V>,
                                 ghost t0: seq<Slot<K, V>>, ghost free: nat, ghost swapped: bool, ghost f: nat)
    returns (next: nat, carried: Slot<K, V>, ghost after: bool, ghost f': nat)
    requires Given(t0, hash, x, free) && Scan(t0, data[..], hash, x, free, i, j, c, swapped, f)
    requires i < data.Length && data[i].Full? && data[i].key != c.key
    modifies data
    ensures carried.Full? && Scan(t0, data[..], hash, x, free, Succ(data.Length, i), next, carried, after, f')
    ensures x.home < data.Length && Dist(data.Length, x.home, Succ(data.Length, i)) > Dist(data.Length, x.home, i)
  {
    ghost var t := data[..];
    ScanIsInside(t0, t, hash, x, free, i, j, c, swapped, f);
    var p := Dist(data.Length, data[i].home, i);
    assert D(t, i) == p;
    hide Scan, Given, D, Dist, Succ;
    if j >= p {
      ScanSwaps(t0, t, hash, x, free, i, j, c, swapped, f);
      next, carried, after, f' := p + 1, data[i], true, if swapped then f else i;
      data[i] := c;
      assert data[..] == t[i := c];
    } else {
      ScanPasses(t0, t, hash, x, free, i, j, c, swapped, f);
      next, carried, after, f' := j + 1, c, swapped, f;
    }
  }

  /** The loop of `hmapPutInternal`. */
  method Place<K(==), V(==)>(data: array<Slot<K, V>>, hash: K -> nat, x: Slot<K, V>) returns (added: bool)
    requires data.Length > 0 && Ordered(data[..], hash)
    requires Empty in multiset(data[..]) && x.Full? && x.home == Home(hash(x.key), data.Length)
    modifies data
    ensures Placed(old(data[..]), data[..], hash, x, added)
  {
    ghost var t0 := data[..];
    var n := data.Length;
    var i: nat, j: nat, c := x.home, 0, x;
    ghost var swapped, f: nat := false, 0;
    ghost var free: nat :| free < n && t0[free].Empty?;
    ScanStarts(t0, hash, x, free);
    assert Given(t0, hash, x, free);
    hide Scan, Given, Placed, Ordered;

    while data[i].Full? && data[i].key != c.key
      invariant i < n && c.Full? && Given(t0, hash, x, free) && Scan(t0, data[..], hash, x, free, i, j, c, swapped, f)
      decreases n - Dist(n, x.home, i)
    {
      j, c, swapped, f := PlaceTurn(data, hash, x, i, j, c, t0, free, swapped, f);
      i := Succ(n, i);
    }

    ghost var t := data[..];
    ScanEnds(t0, t, hash, x, free, i, j, c, swapped, f);
    added := data[i].Empty?;
    data[i] := c;
    assert data[..] == t[i := c];
  }

  lemma {:induction false} AllEmpty<K, V>(t: seq<Slot<K, V>>)
    requires forall i :: 0 <= i < |t| ==> t[i].Empty?
    ensures multiset(t)[Empty] == |t| && forall s :: s in multiset(t) ==> s.Empty?
  {
    if t != [] {
      assert t == [t[0]] + t[1..];
      AllEmpty(t[1..]);
    }
  }
}
