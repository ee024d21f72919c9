/** What single slot writes do to the Robin Hood order and to the stored map. */
module RobinHoodSteps {
  import opened Ring
  import opened RobinHood

  /** `c` is an item on its way to slot `i` or beyond, `j` steps from its home. */
  predicate Pending<K, V>(t: seq<Slot<K, V>>, hash: K -> nat, i: nat, j: nat, c: Slot<K, V>)
    requires Homed(t, hash)
  {
    && i < |t| && c.Full? && c.home == Home(hash(c.key), |t|) && j == Dist(|t|, c.home, i)
    && (j > 0 ==> var p := Pred(|t|, i); t[p].Full? && j <= D(t, p) + 1)
  }

  /** An item may take an empty slot, or the slot of an item that is displaced no more than it. */
  lemma PlaceKeepsOrder<K, V>(t: seq<Slot<K, V>>, hash: K -> nat, i: nat, j: nat, c: Slot<K, V>)
    requires Ordered(t, hash) && Pending(t, hash, i, j, c)
    requires t[i].Empty? || D(t, i) <= j
    ensures Ordered(t[i := c], hash)
  {
    var u := t[i := c];
    forall q | 0 <= q < |u| ensures OrderedAt(u, hash, q) {
      assert OrderedAt(t, hash, q);
    }
  }

  /** The displaced item moves on behind the item that took its slot. */
  lemma DisplacedIsPending<K, V>(t: seq<Slot<K, V>>, hash: K -> nat, i: nat, j: nat, c: Slot<K, V>, free: nat)
    requires Ordered(t, hash) && Pending(t, hash, i, j, c) && t[i].Full? && D(t, i) <= j
    requires free < |t| && t[free].Empty?
    ensures Homed(t[i := c], hash)
    ensures Pending(t[i := c], hash, Succ(|t|, i), D(t, i) + 1, t[i])
  {
    if D(t, i) + 1 == |t| {
      OnPath(t, hash, i, free);
    }
  }

  lemma CarriedIsPending<K, V>(t: seq<Slot<K, V>>, hash: K -> nat, i: nat, j: nat, c: Slot<K, V>)
    requires Ordered(t, hash) && Pending(t, hash, i, j, c) && t[i].Full? && j < D(t, i)
    ensures Pending(t, hash, Succ(|t|, i), j + 1, c)
  {
  }

  /** Slot `i` was emptied; the item before it had room for one displaced `g`. */
  predicate HoleAt<K, V>(t: seq<Slot<K, V>>, hash: K -> nat, i: nat, g: nat) {
    && Homed(t, hash) && i < |t| && t[i].Empty?
    && (forall u :: 0 <= u < |t| && u != Succ(|t|, i) ==> OrderedAt(t, hash, u))
    && (var s := Succ(|t|, i); t[s].Full? ==> D(t, s) <= g + 1)
    && (g > 0 ==> var p := Pred(|t|, i); t[p].Full? && g <= D(t, p) + 1)
  }

  lemma EmptyingMakesHole<K, V>(t: seq<Slot<K, V>>, hash: K -> nat, i: nat)
    requires Ordered(t, hash) && i < |t| && t[i].Full? && |t| > 1
    ensures HoleAt(t[i := Empty], hash, i, D(t, i))
  {
    var u := t[i := Empty];
    assert OrderedAt(t, hash, i) && OrderedAt(t, hash, Succ(|t|, i));
    forall q | 0 <= q < |t| && q != Succ(|t|, i) ensures OrderedAt(u, hash, q) {
      assert OrderedAt(t, hash, q);
    }
  }

  lemma ShiftMovesHole<K, V>(t: seq<Slot<K, V>>, hash: K -> nat, i: nat, g: nat)
    requires HoleAt(t, hash, i, g) && |t| > 1
    requires var s := Succ(|t|, i); t[s].Full? && D(t, s) > 0
    ensures var s := Succ(|t|, i); HoleAt(t[i := t[s]][s := Empty], hash, s, D(t, s))
  {
    var s := Succ(|t|, i);
    var u := t[i := t[s]][s := Empty];
    forall q | 0 <= q < |t| && q != Succ(|t|, s) ensures OrderedAt(u, hash, q) {
      if q != s && q != i {
        assert OrderedAt(t, hash, q);
      }
    }
    if Succ(|t|, s) != i {
      assert OrderedAt(t, hash, Succ(|t|, s));
    }
  }

  lemma HoleCloses<K, V>(t: seq<Slot<K, V>>, hash: K -> nat, i: nat, g: nat)
    requires HoleAt(t, hash, i, g)
    requires var s := Succ(|t|, i); t[s].Full? ==> D(t, s) == 0
    ensures Ordered(t, hash)
  {
    forall q | 0 <= q < |t| ensures OrderedAt(t, hash, q) {
    }
  }

  // What the multiset of the slots says about keys

  predicate DistinctIn<K(==), V(==)>(m: multiset<Slot<K, V>>) {
    forall a, b :: a in m && b in m && a.Full? && b.Full? && a.key == b.key ==> a == b && m[a] == 1
  }

  lemma TwiceIn<T>(t: seq<T>, i: nat, j: nat)
    requires i < j < |t| && t[i] == t[j]
    ensures multiset(t)[t[i]] >= 2
  {
    assert t == t[..j] + t[j..];
    assert t[i] in t[..j] && t[j] in t[j..];
  }

  lemma OnceIn<T>(t: seq<T>, i: nat)
    requires i < |t| && forall j :: 0 <= j < |t| && j != i ==> t[j] != t[i]
    ensures multiset(t)[t[i]] == 1
  {
    assert t == t[..i] + [t[i]] + t[i + 1..];
    assert t[i] !in t[..i] && t[i] !in t[i + 1..];
  }

  lemma DistinctByMultiset<K, V>(t: seq<Slot<K, V>>)
    ensures Distinct(t) <==> DistinctIn(multiset(t))
  {
    if Distinct(t) {
      forall a, b | a in multiset(t) && b in multiset(t) && a.Full? && b.Full? && a.key == b.key
        ensures a == b && multiset(t)[a] == 1
      {
        var i :| 0 <= i < |t| && t[i] == a;
        var j :| 0 <= j < |t| && t[j] == b;
        assert i == j;
        OnceIn(t, i);
      }
    }
    if DistinctIn(multiset(t)) {
      forall i, j | 0 <= i < j < |t| && t[i].Full? && t[j].Full? ensures t[i].key != t[j].key {
        assert t[i] in multiset(t) && t[j] in multiset(t);
        if t[i].key == t[j].key {
          TwiceIn(t, i, j);
        }
      }
    }
  }

  /** Adding an item keeps keys distinct exactly if its key is new. */
  lemma AddedDistinct<K, V>(a: multiset<Slot<K, V>>, b: multiset<Slot<K, V>>, x: Slot<K, V>)
    requires DistinctIn(a) && x.Full? && b == a - multiset{Empty} + multiset{x}
    ensures DistinctIn(b) <==> !exists s :: s in a && s.Full? && s.key == x.key
  {
    assert x in b;
    if s :| s in a && s.Full? && s.key == x.key {
      assert s in b;
      if s == x {
        assert b[x] >= 2;
      }
    } else {
      forall p, q | p in b && q in b && p.Full? && q.Full? && p.key == q.key
        ensures p == q && b[p] == 1
      {
        assert p != x ==> p in a;
        assert q != x ==> q in a;
      }
    }
  }

  lemma ReplaceDistinct<K, V>(a: multiset<Slot<K, V>>, b: multiset<Slot<K, V>>, y: Slot<K, V>, x: Slot<K, V>)
    requires DistinctIn(a) && y in a && y.Full? && x.Full? && x.key == y.key
    requires b == a - multiset{y} + multiset{x}
    ensures DistinctIn(b)
  {
    assert b[x] == 1 by { assert x in a ==> x == y; }
    forall s | s in b && s.Full? && s != x
      ensures s in a && s.key != x.key && b[s] == 1
    {
      assert s in a && s != y;
    }
  }
}
