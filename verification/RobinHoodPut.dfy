/** The put loop of the Robin Hood map, one turn at a time. */
module RobinHoodPut {
  import opened Ring
  import opened RobinHood
  import opened RobinHoodSteps

  /** `u` has the items of `t` and `x`; if nothing is added, an item has gone for it. */
  ghost predicate Exchanged<K, V>(t: seq<Slot<K, V>>, u: seq<Slot<K, V>>, x: Slot<K, V>, added: bool) {
    exists y :: y in multiset(t) && (added <==> y.Empty?) && multiset(u) == multiset(t) - multiset{y} + multiset{x}
  }

  /** For keys other than `k`, a probe still meets the same item first. */
  ghost predicate OthersLead<K, V>(t: seq<Slot<K, V>>, u: seq<Slot<K, V>>, hash: K -> nat, k: K) {
    forall s :: 0 <= s < |t| && t[s].Full? && t[s].key != k && Leads(t, hash, t[s]) ==> Leads(u, hash, t[s])
  }

  /** In a table without copies of a key, what is overwritten and whether there is a copy now. */
  ghost predicate CopyAdded<K, V>(t: seq<Slot<K, V>>, u: seq<Slot<K, V>>, hash: K -> nat, k: K, added: bool)
    requires Homed(t, hash)
  {
    && (added <==> !Overwrites(t, hash, k))
    && (Distinct(u) <==> Present(t, k) ==> !added)
  }

  /** All items before slot `i` belong to other homes. */
  ghost predicate OthersBefore<K, V>(t0: seq<Slot<K, V>>, home: nat, i: nat)
    requires home < |t0| && i < |t0|
  {
    forall u :: 0 <= u < |t0| && Dist(|t0|, home, u) < Dist(|t0|, home, i) ==> t0[u].Full? && t0[u].home != home
  }

  /** `x` takes slot `f`, the first one of its home, and the items of its key move on by one slot. */
  ghost predicate MovedOn<K, V>(t: seq<Slot<K, V>>, u: seq<Slot<K, V>>, x: Slot<K, V>, f: nat)
    requires x.Full? && x.home < |t| && |u| == |t|
  {
    && f < |t| && u[f] == x && t[f].Full? && t[f].home == x.home && OthersBefore(t, x.home, f)
    && forall s :: 0 <= s < |t| && t[s].Full? && t[s].key == x.key ==> u[Succ(|t|, s)] == t[s]
  }

  /** What a put of `x` makes of a table `t`. */
  ghost predicate Placed<K, V>(t: seq<Slot<K, V>>, u: seq<Slot<K, V>>, hash: K -> nat, x: Slot<K, V>, added: bool)
  {
    && |u| == |t| && x.Full? && x.home < |t| && Ordered(t, hash) && Ordered(u, hash)
    && Exchanged(t, u, x, added)
    && Leads(u, hash, x) && OthersLead(t, u, hash, x.key)
    && (Distinct(t) ==> CopyAdded(t, u, hash, x.key, added))
    && (added && Present(t, x.key) ==> exists f: nat :: MovedOn(t, u, x, f))
  }

  /** A put of `x` into the table `t`, which has a free slot. */
  ghost predicate Given<K, V>(t: seq<Slot<K, V>>, hash: K -> nat, x: Slot<K, V>, free: nat) {
    && free < |t| && t[free].Empty? && Ordered(t, hash)
    && x.Full? && x.home == Home(hash(x.key), |t|)
  }

  /** The slots from `i` on, as far as the home of `x`, are still those of `t0`. */
  ghost predicate Untouched<K, V>(t0: seq<Slot<K, V>>, t: seq<Slot<K, V>>, home: nat, i: nat)
    requires |t| == |t0| && home < |t| && i < |t|
  {
    forall u :: 0 <= u < |t| && Dist(|t|, home, u) >= Dist(|t|, home, i) ==> t[u] == t0[u]
  }

  /** While `c` is carried to slot `i`, a probe meets `e` first of its key, or will once it is put down. */
  ghost predicate Heads<K, V>(t: seq<Slot<K, V>>, hash: K -> nat, e: Slot<K, V>, i: nat, c: Slot<K, V>)
    requires e.Full? && c.Full? && i < |t|
  {
    var n, home := |t|, Home(hash(e.key), |t|);
    || (c == e && NoneBefore(t, hash, e.key, i))
    || exists s: nat :: FirstMatch(t, hash, e.key, s) && t[s] == e
                        && (c.key == e.key ==> Dist(n, home, s) < Dist(n, home, i))
  }

  /** `x` and the items of other keys that a probe met first are still, or will be, met first. */
  ghost predicate AllHead<K, V>(t0: seq<Slot<K, V>>, t: seq<Slot<K, V>>, hash: K -> nat, x: Slot<K, V>, i: nat,
                                c: Slot<K, V>)
    requires x.Full? && c.Full? && i < |t|
  {
    && Heads(t, hash, x, i, c)
    && forall s :: 0 <= s < |t0| && t0[s].Full? && t0[s].key != x.key && Leads(t0, hash, t0[s]) ==>
                     Heads(t, hash, t0[s], i, c)
  }

  /** A put of `x` does not find its key at slot `f`, but may take the slot. */
  ghost predicate Takes<K, V>(t0: seq<Slot<K, V>>, hash: K -> nat, x: Slot<K, V>, f: nat)
    requires Homed(t0, hash) && f < |t0| && x.Full? && x.home < |t0|
  {
    OthersBefore(t0, x.home, f)
    && (t0[f].Full? ==> t0[f].key != x.key && D(t0, f) <= Dist(|t0|, x.home, f))
  }

  /** `x` is in slot `f`, and all items from there to slot `i` have moved on by one. */
  ghost predicate Shifted<K, V>(t0: seq<Slot<K, V>>, t: seq<Slot<K, V>>, hash: K -> nat, x: Slot<K, V>, f: nat,
                                i: nat, j: nat, c: Slot<K, V>)
    requires Homed(t0, hash) && |t| == |t0| && i < |t| && x.Full? && x.home < |t|
  {
    var n, p := |t|, Pred(|t|, i);
    && f < n && Dist(n, x.home, f) < Dist(n, x.home, i)
    && t[f] == x && t0[f].Full? && Takes(t0, hash, x, f)
    && t0[p].Full? && c == t0[p] && j == D(t0, p) + 1
    && forall u :: 0 <= u < n && Dist(n, x.home, f) <= Dist(n, x.home, u) && Dist(n, x.home, u) + 1 < Dist(n, x.home, i)
                   ==> t[Succ(n, u)] == t0[u]
  }

  /**
   The put has come to slot `i` of the current table `t`, carrying `c` at distance `j`
   from its home; `swapped` says that `x` itself has found a slot, which is `f`.
   */
  ghost predicate Scan<K, V>(t0: seq<Slot<K, V>>, t: seq<Slot<K, V>>, hash: K -> nat, x: Slot<K, V>, free: nat,
                             i: nat, j: nat, c: Slot<K, V>, swapped: bool, f: nat)
    requires Given(t0, hash, x, free)
  {
    && |t| == |t0| && i < |t|
    && Ordered(t, hash) && Pending(t, hash, i, j, c)
    && Dist(|t|, x.home, i) <= Dist(|t|, x.home, free)
    && Untouched(t0, t, x.home, i)
    && multiset(t) + multiset{c} == multiset(t0) + multiset{x}
    && AllHead(t0, t, hash, x, i, c)
    && (if swapped then Shifted(t0, t, hash, x, f, i, j, c) else c == x && t == t0 && OthersBefore(t0, x.home, i))
  }

  lemma ScanStarts<K, V>(t0: seq<Slot<K, V>>, hash: K -> nat, x: Slot<K, V>, free: nat)
    requires Given(t0, hash, x, free)
    ensures Scan(t0, t0, hash, x, free, x.home, 0, x, false, 0)
  {
    forall s | 0 <= s < |t0| && t0[s].Full? && t0[s].key != x.key && Leads(t0, hash, t0[s])
      ensures Heads(t0, hash, t0[s], x.home, x)
    {
    }
  }

  /** What the loop may rely on in every turn. */
  lemma ScanIsInside<K, V>(t0: seq<Slot<K, V>>, t: seq<Slot<K, V>>, hash: K -> nat, x: Slot<K, V>, free: nat,
                           i: nat, j: nat, c: Slot<K, V>, swapped: bool, f: nat)
    requires Given(t0, hash, x, free) && Scan(t0, t, hash, x, free, i, j, c, swapped, f)
    ensures |t| == |t0| && i < |t| && c.Full? && x.home < |t| && (t[i].Full? ==> t[i].home < |t|)
  {
  }

  /** If the first same-home slot or free slot on the path of `x` does not hold its key, nothing is overwritten. */
  lemma NoOverwriteBeyond<K, V>(t: seq<Slot<K, V>>, hash: K -> nat, x: Slot<K, V>, i: nat)
    requires Ordered(t, hash) && i < |t| && x.Full? && x.home == Home(hash(x.key), |t|) && Takes(t, hash, x, i)
    ensures !Overwrites(t, hash, x.key)
  {
    forall s | 0 <= s < |t|
      ensures !FirstOfHome(t, hash, x.key, s)
    {
      if FirstOfHome(t, hash, x.key, s) && Dist(|t|, x.home, i) <= Dist(|t|, x.home, s) {
        OnPath(t, hash, s, i);
      }
    }
  }

  // Who is met first

  /** `c` is put down in slot `i`, and the item there is carried on. */
  lemma HeadsSwaps<K, V>(t: seq<Slot<K, V>>, hash: K -> nat, e: Slot<K, V>, i: nat, c: Slot<K, V>)
    requires e.Full? && c.Full? && i < |t| && Heads(t, hash, e, i, c) && t[i].Full? && t[i].key != c.key
    requires t[i].home == Home(hash(t[i].key), |t|) && D(t, i) + 1 < |t|
    ensures Heads(t[i := c], hash, e, Succ(|t|, i), t[i])
  {
    var u := t[i := c];
    if c == e && NoneBefore(t, hash, e.key, i) {
      assert FirstMatch(u, hash, e.key, i);
    } else {
      var home := Home(hash(e.key), |t|);
      var s: nat :| FirstMatch(t, hash, e.key, s) && t[s] == e
                    && (c.key == e.key ==> Dist(|t|, home, s) < Dist(|t|, home, i));
      if s != i {
        assert FirstMatch(u, hash, e.key, s);
      }
    }
  }

  lemma HeadsPasses<K, V>(t: seq<Slot<K, V>>, hash: K -> nat, e: Slot<K, V>, i: nat, c: Slot<K, V>)
    requires e.Full? && c.Full? && i < |t| && Heads(t, hash, e, i, c) && t[i].Full? && t[i].key != c.key
    requires Dist(|t|, Home(hash(c.key), |t|), i) + 1 < |t|
    ensures Heads(t, hash, e, Succ(|t|, i), c)
  {
  }

  lemma HeadsEnds<K, V>(t: seq<Slot<K, V>>, hash: K -> nat, e: Slot<K, V>, i: nat, c: Slot<K, V>)
    requires e.Full? && c.Full? && i < |t| && Heads(t, hash, e, i, c) && (t[i].Full? ==> t[i].key == c.key)
    ensures Leads(t[i := c], hash, e)
  {
    var u := t[i := c];
    if c == e && NoneBefore(t, hash, e.key, i) {
      assert FirstMatch(u, hash, e.key, i) && u[i] == e;
    } else {
      var home := Home(hash(e.key), |t|);
      var s: nat :| FirstMatch(t, hash, e.key, s) && t[s] == e
                    && (c.key == e.key ==> Dist(|t|, home, s) < Dist(|t|, home, i));
      assert FirstMatch(u, hash, e.key, s) && u[s] == e;
    }
  }

  // One turn

  lemma SwapItems<T>(a: seq<T>, t: seq<T>, x: T, c: T, i: nat)
    requires i < |t| && multiset(t) + multiset{c} == multiset(a) + multiset{x}
    ensures multiset(t[i := c]) + multiset{t[i]} == multiset(a) + multiset{x}
  {
    assert t[i] in multiset(t);
  }

  /** `x` itself takes slot `i`. */
  lemma ShiftStarts<K, V>(t0: seq<Slot<K, V>>, hash: K -> nat, x: Slot<K, V>, i: nat)
    requires Homed(t0, hash) && i < |t0| && x.Full? && x.home < |t0| && t0[i].Full? && Takes(t0, hash, x, i)
    requires Dist(|t0|, x.home, Succ(|t0|, i)) == Dist(|t0|, x.home, i) + 1
    ensures Shifted(t0, t0[i := x], hash, x, i, Succ(|t0|, i), D(t0, i) + 1, t0[i])
  {
    hide Takes;
  }

  lemma ShiftedAt<K, V>(t0: seq<Slot<K, V>>, t: seq<Slot<K, V>>, hash: K -> nat, x: Slot<K, V>, f: nat,
                        i: nat, j: nat, c: Slot<K, V>, q: nat)
    requires Homed(t0, hash) && |t| == |t0| && i < |t| && x.Full? && x.home < |t|
    requires Shifted(t0, t, hash, x, f, i, j, c)
    requires q < |t| && Dist(|t|, x.home, f) <= Dist(|t|, x.home, q) < Dist(|t|, x.home, i)
    ensures t[i := c][Succ(|t|, q)] == t0[q]
  {
    hide Takes, Homed;
    if Dist(|t|, x.home, q) + 1 < Dist(|t|, x.home, i) {
      assert t[Succ(|t|, q)] == t0[q];
    } else {
      assert q == Pred(|t|, i);
    }
  }

  /** The items that are moved on stay one slot behind the old ones. */
  lemma ShiftGoesOn<K, V>(t0: seq<Slot<K, V>>, t: seq<Slot<K, V>>, hash: K -> nat, x: Slot<K, V>, f: nat,
                          i: nat, j: nat, c: Slot<K, V>)
    requires Homed(t0, hash) && |t| == |t0| && i < |t| && x.Full? && x.home < |t|
    requires Shifted(t0, t, hash, x, f, i, j, c) && t[i].Full? && t[i] == t0[i]
    requires Dist(|t|, x.home, Succ(|t|, i)) == Dist(|t|, x.home, i) + 1
    ensures Shifted(t0, t[i := c], hash, x, f, Succ(|t|, i), D(t0, i) + 1, t[i])
  {
    forall q: nat | q < |t| && Dist(|t|, x.home, f) <= Dist(|t|, x.home, q) < Dist(|t|, x.home, i)
      ensures t[i := c][Succ(|t|, q)] == t0[q]
    {
      ShiftedAt(t0, t, hash, x, f, i, j, c, q);
    }
    hide Takes;
  }

  /** A slot that is full while scanning is as it was, and the free one comes later. */
  lemma NotYetFree<K, V>(t0: seq<Slot<K, V>>, t: seq<Slot<K, V>>, hash: K -> nat, x: Slot<K, V>, free: nat,
                         i: nat, j: nat, c: Slot<K, V>, swapped: bool, f: nat)
    requires Given(t0, hash, x, free) && Scan(t0, t, hash, x, free, i, j, c, swapped, f) && t[i].Full?
    ensures t[i] == t0[i] && i != free && t[free].Empty? && x.home < |t|
    ensures Dist(|t|, x.home, Succ(|t|, i)) == Dist(|t|, x.home, i) + 1 <= Dist(|t|, x.home, free)
  {
    hide AllHead, OthersBefore, Shifted, Pending;
    NextIsFurther(|t|, x.home, i, free);
  }

  lemma SwapShifts<K, V>(t0: seq<Slot<K, V>>, t: seq<Slot<K, V>>, hash: K -> nat, x: Slot<K, V>, free: nat,
                         i: nat, j: nat, c: Slot<K, V>, swapped: bool, f: nat)
    requires Given(t0, hash, x, free) && Scan(t0, t, hash, x, free, i, j, c, swapped, f)
    requires t[i].Full? && t[i].key != c.key && D(t, i) <= j && t[i] == t0[i]
    requires Dist(|t|, x.home, Succ(|t|, i)) == Dist(|t|, x.home, i) + 1
    ensures Shifted(t0, t[i := c], hash, x, if swapped then f else i, Succ(|t|, i), D(t, i) + 1, t[i])
  {
    hide AllHead, Untouched;
    if swapped {
      ShiftGoesOn(t0, t, hash, x, f, i, j, c);
    } else {
      ShiftStarts(t0, hash, x, i);
    }
  }

  /** The carried item takes a slot and the item there goes on. */
  lemma ScanSwaps<K, V>(t0: seq<Slot<K, V>>, t: seq<Slot<K, V>>, hash: K -> nat, x: Slot<K, V>, free: nat,
                        i: nat, j: nat, c: Slot<K, V>, swapped: bool, f: nat)
    requires Given(t0, hash, x, free) && Scan(t0, t, hash, x, free, i, j, c, swapped, f)
    requires t[i].Full? && t[i].key != c.key && D(t, i) <= j
    ensures Scan(t0, t[i := c], hash, x, free, Succ(|t|, i), D(t, i) + 1, t[i], true, if swapped then f else i)
    ensures Dist(|t|, x.home, Succ(|t|, i)) == Dist(|t|, x.home, i) + 1
  {
    NotYetFree(t0, t, hash, x, free, i, j, c, swapped, f);
    SwapShifts(t0, t, hash, x, free, i, j, c, swapped, f);
    hide AllHead, OthersBefore, Shifted, Untouched, Leads;
    UntouchedFrom(t0, t, x.home, i, c);
    SwapItems(t0, t, x, c, i);
    PlaceKeepsOrder(t, hash, i, j, c);
    DisplacedIsPending(t, hash, i, j, c, free);
    SwappedHead(t0, t, hash, x, i, c);
    hide Ordered, Pending;
  }

  lemma UntouchedFrom<K, V>(t0: seq<Slot<K, V>>, t: seq<Slot<K, V>>, home: nat, i: nat, c: Slot<K, V>)
    requires |t| == |t0| && home < |t| && i < |t| && Untouched(t0, t, home, i)
    requires Dist(|t|, home, Succ(|t|, i)) == Dist(|t|, home, i) + 1
    ensures Untouched(t0, t[i := c], home, Succ(|t|, i))
  {
  }

  lemma SwappedHead<K, V>(t0: seq<Slot<K, V>>, t: seq<Slot<K, V>>, hash: K -> nat, x: Slot<K, V>, i: nat,
                          c: Slot<K, V>)
    requires x.Full? && c.Full? && i < |t| && AllHead(t0, t, hash, x, i, c) && t[i].Full? && t[i].key != c.key
    requires t[i].home == Home(hash(t[i].key), |t|) && D(t, i) + 1 < |t|
    ensures AllHead(t0, t[i := c], hash, x, Succ(|t|, i), t[i])
  {
    HeadsSwaps(t, hash, x, i, c);
    forall s | 0 <= s < |t0| && t0[s].Full? && t0[s].key != x.key && Leads(t0, hash, t0[s])
      ensures Heads(t[i := c], hash, t0[s], Succ(|t|, i), t[i])
    {
      HeadsSwaps(t, hash, t0[s], i, c);
    }
  }

  /** The carried item passes an item that is further from its home; after a swap there is none. */
  lemma ScanPasses<K, V>(t0: seq<Slot<K, V>>, t: seq<Slot<K, V>>, hash: K -> nat, x: Slot<K, V>, free: nat,
                         i: nat, j: nat, c: Slot<K, V>, swapped: bool, f: nat)
    requires Given(t0, hash, x, free) && Scan(t0, t, hash, x, free, i, j, c, swapped, f)
    requires t[i].Full? && t[i].key != c.key && j < D(t, i)
    ensures Scan(t0, t, hash, x, free, Succ(|t|, i), j + 1, c, swapped, f)
    ensures Dist(|t|, x.home, Succ(|t|, i)) == Dist(|t|, x.home, i) + 1
  {
    assert t[i] == t0[i];
    NextIsFurther(|t|, x.home, i, free);
    assert !swapped by { assert OrderedAt(t0, hash, i); }
    CarriedIsPending(t, hash, i, j, c);
    OthersPassed(t0, x.home, i);
    PassedHead(t0, t, hash, x, i, c);
    hide AllHead, Ordered, Pending, OthersBefore, Shifted;
  }

  lemma OthersPassed<K, V>(t: seq<Slot<K, V>>, home: nat, i: nat)
    requires home < |t| && i < |t| && OthersBefore(t, home, i) && t[i].Full? && t[i].home != home
    requires Dist(|t|, home, Succ(|t|, i)) == Dist(|t|, home, i) + 1
    ensures OthersBefore(t, home, Succ(|t|, i))
  {
    forall u | 0 <= u < |t| && Dist(|t|, home, u) < Dist(|t|, home, Succ(|t|, i))
      ensures t[u].Full? && t[u].home != home
    {
      if Dist(|t|, home, u) == Dist(|t|, home, i) {
        assert u == i;
      }
    }
  }

  lemma PassedHead<K, V>(t0: seq<Slot<K, V>>, t: seq<Slot<K, V>>, hash: K -> nat, x: Slot<K, V>, i: nat, c: Slot<K, V>)
    requires x.Full? && c.Full? && i < |t| && AllHead(t0, t, hash, x, i, c) && t[i].Full? && t[i].key != c.key
    requires Dist(|t|, Home(hash(c.key), |t|), i) + 1 < |t|
    ensures AllHead(t0, t, hash, x, Succ(|t|, i), c)
  {
    HeadsPasses(t, hash, x, i, c);
    forall s | 0 <= s < |t0| && t0[s].Full? && t0[s].key != x.key && Leads(t0, hash, t0[s])
      ensures Heads(t, hash, t0[s], Succ(|t|, i), c)
    {
      HeadsPasses(t, hash, t0[s], i, c);
    }
  }

  // The end

  /** The carried item takes a free slot, or overwrites an item of its key. */
  lemma ScanEnds<K, V>(t0: seq<Slot<K, V>>, t: seq<Slot<K, V>>, hash: K -> nat, x: Slot<K, V>, free: nat,
                       i: nat, j: nat, c: Slot<K, V>, swapped: bool, f: nat)
    requires Given(t0, hash, x, free) && Scan(t0, t, hash, x, free, i, j, c, swapped, f)
    requires t[i].Full? ==> t[i].key == c.key
    ensures Placed(t0, t[i := c], hash, x, t[i].Empty?)
  {
    PlaceKeepsOrder(t, hash, i, j, c);
    EndLeads(t0, t, hash, x, free, i, j, c, swapped, f);
    EndExchanges(t0, t, hash, x, free, i, j, c, swapped, f);
    if Distinct(t0) {
      EndCopies(t0, t, hash, x, free, i, j, c, swapped, f);
    }
    if t[i].Empty? && Present(t0, x.key) {
      EndMoves(t0, t, hash, x, free, i, j, c, swapped, f);
    }
    hide Scan, Leads, Ordered, Distinct, CopyAdded, Present, MovedOn, Exchanged;
  }

  lemma EndLeads<K, V>(t0: seq<Slot<K, V>>, t: seq<Slot<K, V>>, hash: K -> nat, x: Slot<K, V>, free: nat,
                       i: nat, j: nat, c: Slot<K, V>, swapped: bool, f: nat)
    requires Given(t0, hash, x, free) && Scan(t0, t, hash, x, free, i, j, c, swapped, f)
    requires t[i].Full? ==> t[i].key == c.key
    ensures Leads(t[i := c], hash, x) && OthersLead(t0, t[i := c], hash, x.key)
  {
    HeadsEnds(t, hash, x, i, c);
    forall s | 0 <= s < |t0| && t0[s].Full? && t0[s].key != x.key && Leads(t0, hash, t0[s])
      ensures Leads(t[i := c], hash, t0[s])
    {
      HeadsEnds(t, hash, t0[s], i, c);
    }
  }

  lemma SettledItems<T>(a: multiset<T>, t: multiset<T>, x: T, c: T, e: T)
    requires t + multiset{c} == a + multiset{x} && e in a && e in t
    ensures t - multiset{e} + multiset{c} == a - multiset{e} + multiset{x}
  {
    forall y
      ensures (t - multiset{e} + multiset{c})[y] == (a - multiset{e} + multiset{x})[y]
    {
      assert (t + multiset{c})[y] == (a + multiset{x})[y];
    }
  }

  lemma EndExchanges<K, V>(t0: seq<Slot<K, V>>, t: seq<Slot<K, V>>, hash: K -> nat, x: Slot<K, V>, free: nat,
                           i: nat, j: nat, c: Slot<K, V>, swapped: bool, f: nat)
    requires Given(t0, hash, x, free) && Scan(t0, t, hash, x, free, i, j, c, swapped, f)
    ensures t[i] in multiset(t0) && multiset(t[i := c]) == multiset(t0) - multiset{t[i]} + multiset{x}
    ensures Exchanged(t0, t[i := c], x, t[i].Empty?)
  {
    assert t[i] == t0[i];
    assert t0[i] in multiset(t0) && t[i] in multiset(t);
    SettledItems(multiset(t0), multiset(t), x, c, t[i]);
  }

  lemma EndCopies<K, V>(t0: seq<Slot<K, V>>, t: seq<Slot<K, V>>, hash: K -> nat, x: Slot<K, V>, free: nat,
                        i: nat, j: nat, c: Slot<K, V>, swapped: bool, f: nat)
    requires Given(t0, hash, x, free) && Scan(t0, t, hash, x, free, i, j, c, swapped, f) && Distinct(t0)
    requires t[i].Full? ==> t[i].key == c.key
    ensures CopyAdded(t0, t[i := c], hash, x.key, t[i].Empty?)
  {
    EndExchanges(t0, t, hash, x, free, i, j, c, swapped, f);
    EndOverwrites(t0, t, hash, x, free, i, j, c, swapped, f);
    DistinctByMultiset(t0);
    DistinctByMultiset(t[i := c]);
    PresentInItems(t0, x.key);
    hide Scan, Given, Overwrites, Distinct, Present;
    if t[i].Empty? {
      AddedDistinct(multiset(t0), multiset(t[i := c]), x);
    } else {
      ReplaceDistinct(multiset(t0), multiset(t[i := c]), t[i], x);
    }
  }

  /** In a table without copies, the put ends at an item of its key exactly if that is the first of its home. */
  lemma EndOverwrites<K, V>(t0: seq<Slot<K, V>>, t: seq<Slot<K, V>>, hash: K -> nat, x: Slot<K, V>, free: nat,
                            i: nat, j: nat, c: Slot<K, V>, swapped: bool, f: nat)
    requires Given(t0, hash, x, free) && Scan(t0, t, hash, x, free, i, j, c, swapped, f) && Distinct(t0)
    requires t[i].Full? ==> t[i].key == c.key
    ensures t[i].Empty? <==> !Overwrites(t0, hash, x.key)
    ensures t[i].Full? ==> t[i].key == x.key
  {
    assert t[i] == t0[i];
    if swapped {
      NoOverwriteBeyond(t0, hash, x, f);
    } else if t[i].Empty? {
      NoOverwriteBeyond(t0, hash, x, i);
    } else {
      assert FirstOfHome(t0, hash, x.key, i);
    }
  }

  lemma PresentInItems<K, V>(t: seq<Slot<K, V>>, k: K)
    ensures Present(t, k) <==> exists s :: s in multiset(t) && s.Full? && s.key == k
  {
    if Present(t, k) {
      var i :| 0 <= i < |t| && t[i].Full? && t[i].key == k;
      assert t[i] in multiset(t);
    }
  }

  /** If the key was there and an item was added, all items of the key have moved on by one slot. */
  lemma EndMoves<K, V>(t0: seq<Slot<K, V>>, t: seq<Slot<K, V>>, hash: K -> nat, x: Slot<K, V>, free: nat,
                       i: nat, j: nat, c: Slot<K, V>, swapped: bool, f: nat)
    requires Given(t0, hash, x, free) && Scan(t0, t, hash, x, free, i, j, c, swapped, f)
    requires t[i].Empty? && Present(t0, x.key)
    ensures MovedOn(t0, t[i := c], x, f)
  {
    assert t[i] == t0[i];
    forall s: nat | s < |t| && t0[s].Full? && t0[s].key == x.key
      ensures swapped && t0[f].home == x.home && t[i := c][Succ(|t|, s)] == t0[s]
    {
      KeyIsMoved(t0, t, hash, x, free, i, j, c, swapped, f, s);
    }
    var s :| 0 <= s < |t| && t0[s].Full? && t0[s].key == x.key;
    assert f < |t| && t[i := c][f] == x && OthersBefore(t0, x.home, f);
    hide Scan, Given, OthersBefore;
  }

  lemma KeyIsMoved<K, V>(t0: seq<Slot<K, V>>, t: seq<Slot<K, V>>, hash: K -> nat, x: Slot<K, V>, free: nat,
                         i: nat, j: nat, c: Slot<K, V>, swapped: bool, f: nat, s: nat)
    requires Given(t0, hash, x, free) && Scan(t0, t, hash, x, free, i, j, c, swapped, f) && t[i].Empty?
    requires s < |t| && t0[s].Full? && t0[s].key == x.key
    ensures swapped && t0[f].home == x.home && t[i := c][Succ(|t|, s)] == t0[s]
  {
    hide AllHead;
    assert t[i] == t0[i];
    assert Dist(|t|, x.home, s) < Dist(|t|, x.home, i) by {
      if Dist(|t|, x.home, i) <= Dist(|t|, x.home, s) {
        OnPath(t0, hash, s, i);
      }
    }
    assert swapped;
    KeyIsBehind(t0, hash, x, f, s);
    hide Ordered, Pending;
    ShiftedAt(t0, t, hash, x, f, i, j, c, s);
  }

  /** A key that may not be overwritten is not met before the first slot of its home. */
  lemma KeyIsBehind<K, V>(t: seq<Slot<K, V>>, hash: K -> nat, x: Slot<K, V>, f: nat, s: nat)
    requires Ordered(t, hash) && f < |t| && t[f].Full? && s < |t| && t[s].Full?
    requires x.Full? && t[s].key == x.key && x.home == Home(hash(x.key), |t|) && Takes(t, hash, x, f)
    ensures t[f].home == x.home && Dist(|t|, x.home, f) <= Dist(|t|, x.home, s)
  {
    OnPath(t, hash, s, f);
  }
}
