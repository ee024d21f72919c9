/** What searches find in a Robin Hood table that was changed. */
module RobinHoodFound {
  import opened Ring
  import opened RobinHood
  import opened RobinHoodSteps
  import opened RobinHoodPut

  /** After a put, searches find the updated map, however many copies of a key there are. */
  lemma PutFinds<K, V>(t: seq<Slot<K, V>>, u: seq<Slot<K, V>>, hash: K -> nat, k: K, v: V, added: bool, m: map<K, V>)
    requires |t| > 0 && Placed(t, u, hash, Item(hash, |t|, k, v), added) && Finds(t, hash, m)
    ensures Finds(u, hash, m[k := v])
  {
    var m' := m[k := v];
    hide Ordered, CopyAdded, MovedOn;
    forall i | 0 <= i < |u| && u[i].Full?
      ensures u[i].key in m'
    {
      KeyWasThere(t, u, Item(hash, |t|, k, v), added, i);
    }
    hide Exchanged;
    forall y | y in m' && y != k
      ensures Leads(u, hash, Item(hash, |u|, y, m'[y]))
    {
      LeaderStays(t, u, hash, k, Item(hash, |t|, y, m[y]));
    }
  }

  lemma FoundIfPresent<K, V>(t: seq<Slot<K, V>>, hash: K -> nat, k: K, m: map<K, V>)
    requires |t| > 0 && Finds(t, hash, m)
    ensures k in m <==> Present(t, k)
  {
    if k in m {
      assert Leads(t, hash, Item(hash, |t|, k, m[k]));
    }
  }

  lemma FoundFirst<K, V>(t: seq<Slot<K, V>>, hash: K -> nat, k: K, s: nat, m: map<K, V>)
    requires |t| > 0 && Finds(t, hash, m) && FirstMatch(t, hash, k, s)
    ensures k in m && t[s].val == m[k]
  {
    assert t[s].key in m;
    LeaderIsMet(t, hash, Item(hash, |t|, k, m[k]), s);
  }

  /** A put leaves a second copy exactly if the key is present and not the first item of its home. */
  lemma CopyIsLeft<K, V>(t: seq<Slot<K, V>>, u: seq<Slot<K, V>>, hash: K -> nat, x: Slot<K, V>, added: bool,
                         m: map<K, V>)
    requires |t| > 0 && Placed(t, u, hash, x, added) && Distinct(t) && Finds(t, hash, m)
    ensures Distinct(u) <==> x.key !in m || Overwrites(t, hash, x.key)
    ensures added <==> !Overwrites(t, hash, x.key)
    ensures x.key !in m ==> added
  {
    FoundIfPresent(t, hash, x.key, m);
    if Overwrites(t, hash, x.key) {
      var s :| 0 <= s < |t| && FirstOfHome(t, hash, x.key, s);
      assert Present(t, x.key);
    }
    hide Finds, Distinct, Ordered, Leads, OthersLead, Exchanged, MovedOn, Overwrites, Present;
  }

  lemma KeyWasThere<K, V>(t: seq<Slot<K, V>>, u: seq<Slot<K, V>>, x: Slot<K, V>, added: bool, i: nat)
    requires Exchanged(t, u, x, added) && i < |u| && u[i].Full?
    ensures u[i] == x || exists j :: 0 <= j < |t| && t[j] == u[i]
  {
    assert u[i] in multiset(u);
    assert u[i] != x ==> u[i] in multiset(t);
  }

  lemma LeaderStays<K, V>(t: seq<Slot<K, V>>, u: seq<Slot<K, V>>, hash: K -> nat, k: K, e: Slot<K, V>)
    requires OthersLead(t, u, hash, k) && e.Full? && e.key != k && Leads(t, hash, e)
    ensures Leads(u, hash, e)
  {
    var s: nat :| FirstMatch(t, hash, e.key, s) && t[s] == e;
    assert t[s].Full? && Leads(t, hash, t[s]);
  }

  // Removing

  /** Whatever a probe met first in `t`, it meets first in `u`. */
  ghost predicate AllLead<K, V>(t: seq<Slot<K, V>>, u: seq<Slot<K, V>>, hash: K -> nat) {
    forall s :: 0 <= s < |t| && t[s].Full? && Leads(t, hash, t[s]) ==> Leads(u, hash, t[s])
  }

  lemma SameFinds<K, V>(t: seq<Slot<K, V>>, u: seq<Slot<K, V>>, hash: K -> nat, m: map<K, V>)
    requires |t| > 0 && |u| == |t| && multiset(u) == multiset(t) && AllLead(t, u, hash) && Finds(t, hash, m)
    ensures Finds(u, hash, m)
  {
    forall i | 0 <= i < |u| && u[i].Full?
      ensures u[i].key in m
    {
      assert u[i] in multiset(t);
    }
    forall k | k in m
      ensures Leads(u, hash, Item(hash, |u|, k, m[k]))
    {
      var e := Item(hash, |t|, k, m[k]);
      assert Leads(t, hash, e);
      var s: nat :| FirstMatch(t, hash, k, s) && t[s] == e;
      assert t[s].Full? && Leads(t, hash, t[s]);
    }
  }

  /** Moving an item back into the hole before it keeps who is met first. */
  lemma ShiftKeepsLeaders<K, V>(t: seq<Slot<K, V>>, hash: K -> nat, i: nat)
    requires |t| > 1 && i < |t| && t[i].Empty? && Homed(t, hash)
    requires var s := Succ(|t|, i); t[s].Full? && D(t, s) > 0
    ensures var s := Succ(|t|, i); AllLead(t, t[i := t[s]][s := Empty], hash)
  {
    var s := Succ(|t|, i);
    var u := t[i := t[s]][s := Empty];
    forall q | 0 <= q < |t| && t[q].Full? && Leads(t, hash, t[q])
      ensures Leads(u, hash, t[q])
    {
      var a: nat :| FirstMatch(t, hash, t[q].key, a) && t[a] == t[q];
      var b := if a == s then i else a;
      assert u[b] == t[q] && NoneBefore(u, hash, t[q].key, b);
    }
  }

  lemma AllLeadTwice<K, V>(t: seq<Slot<K, V>>, u: seq<Slot<K, V>>, w: seq<Slot<K, V>>, hash: K -> nat)
    requires AllLead(t, u, hash) && AllLead(u, w, hash)
    ensures AllLead(t, w, hash)
  {
    forall s | 0 <= s < |t| && t[s].Full? && Leads(t, hash, t[s])
      ensures Leads(w, hash, t[s])
    {
      var a: nat :| FirstMatch(u, hash, t[s].key, a) && u[a] == t[s];
      assert u[a].Full? && Leads(u, hash, u[a]);
    }
  }

  lemma EmptiedLeads<K, V>(t: seq<Slot<K, V>>, hash: K -> nat, at: nat, e: Slot<K, V>)
    requires at < |t| && t[at].Full? && e.Full? && e.key != t[at].key && Leads(t, hash, e)
    ensures Leads(t[at := Empty], hash, e)
  {
    var s: nat :| FirstMatch(t, hash, e.key, s) && t[s] == e;
    assert t[at := Empty][s] == e && FirstMatch(t[at := Empty], hash, e.key, s);
  }

  ghost predicate SameBut<K, V>(m: map<K, V>, m': map<K, V>, k: K) {
    && (forall y :: y in m && y != k ==> y in m' && m'[y] == m[y])
    && (forall y :: y in m' && y != k ==> y in m)
  }

  /** Emptying slot `at` leaves what is found of other keys. */
  lemma EmptiedOthers<K, V>(t: seq<Slot<K, V>>, hash: K -> nat, at: nat, m: map<K, V>)
    requires Homed(t, hash) && at < |t| && t[at].Full? && Finds(t, hash, m)
    ensures var k, u := t[at].key, t[at := Empty];
            && Homed(u, hash) && (forall i :: 0 <= i < |u| && u[i].Full? ==> u[i].key in m)
            && (Distinct(t) ==> !Present(u, k))
            && forall y :: y in m && y != k ==> Leads(u, hash, Item(hash, |u|, y, m[y]))
  {
    var k, u := t[at].key, t[at := Empty];
    forall y | y in m && y != k
      ensures Leads(u, hash, Item(hash, |u|, y, m[y]))
    {
      EmptiedLeads(t, hash, at, Item(hash, |t|, y, m[y]));
    }
  }

  /** What is found once the first copy is gone: the next copy, if there is one. */
  lemma Uncovered<K, V>(t: seq<Slot<K, V>>, hash: K -> nat, at: nat, m: map<K, V>) returns (mid: map<K, V>)
    requires Homed(t, hash) && at < |t| && t[at].Full? && Finds(t, hash, m)
    ensures Finds(t[at := Empty], hash, mid) && SameBut(m, mid, t[at].key)
    ensures Distinct(t) ==> t[at].key !in mid
  {
    var k, u := t[at].key, t[at := Empty];
    EmptiedOthers(t, hash, at, m);
    hide Finds, Leads, Distinct, Homed;
    if Present(u, k) {
      var v := NextCopy(u, hash, k);
      mid := m[k := v];
      assert SameBut(m, mid, k);
    } else {
      mid := m - {k};
      assert SameBut(m, mid, k);
    }
    assert forall i :: 0 <= i < |u| && u[i].Full? && u[i].key == k ==> k in mid;
    hide SameBut, Present;
    StillFinds(u, hash, m, mid, k);
  }

  lemma StillFinds<K, V>(u: seq<Slot<K, V>>, hash: K -> nat, m: map<K, V>, mid: map<K, V>, k: K)
    requires |u| > 0 && SameBut(m, mid, k)
    requires forall i :: 0 <= i < |u| && u[i].Full? ==> u[i].key in m && (u[i].key == k ==> k in mid)
    requires forall y :: y in m && y != k ==> Leads(u, hash, Item(hash, |u|, y, m[y]))
    requires k in mid ==> Leads(u, hash, Item(hash, |u|, k, mid[k]))
    ensures Finds(u, hash, mid)
  {
    hide Leads;
  }

  lemma NextCopy<K, V>(u: seq<Slot<K, V>>, hash: K -> nat, k: K) returns (v: V)
    requires |u| > 0 && Homed(u, hash) && Present(u, k)
    ensures Leads(u, hash, Item(hash, |u|, k, v))
  {
    var i: nat :| i < |u| && u[i].Full? && u[i].key == k;
    FirstMatchExists(u, hash, k, i);
    var s: nat :| FirstMatch(u, hash, k, s);
    v := u[s].val;
    assert u[s] == Item(hash, |u|, k, v);
  }

  /** The first item with `k` is taken out of `t0`; then `mid` is found. */
  ghost predicate Taken<K, V>(t0: seq<Slot<K, V>>, t: seq<Slot<K, V>>, hash: K -> nat, k: K, mid: map<K, V>)
    requires |t0| > 0
  {
    && |t| == |t0| && Finds(t, hash, mid)
    && exists at: nat :: FirstMatch(t0, hash, k, at) && multiset(t) == multiset(t0[at := Empty])
                         && Finds(t0[at := Empty], hash, mid)
  }

  lemma TakenDistinct<K, V>(t0: seq<Slot<K, V>>, t: seq<Slot<K, V>>, hash: K -> nat, k: K, m: map<K, V>,
                            mid: map<K, V>)
    requires |t0| > 0 && Taken(t0, t, hash, k, mid) && SameBut(m, mid, k)
    ensures Distinct(t0) ==> Distinct(t)
    ensures k !in mid ==> mid == m - {k}
  {
    hide Finds, NoneBefore;
    if Distinct(t0) {
      var at: nat :| FirstMatch(t0, hash, k, at) && multiset(t) == multiset(t0[at := Empty]);
      SameDistinct(t0[at := Empty], t);
    }
  }

  lemma SameDistinct<K, V>(t: seq<Slot<K, V>>, u: seq<Slot<K, V>>)
    requires Distinct(t) && multiset(u) == multiset(t)
    ensures Distinct(u)
  {
    DistinctByMultiset(t);
    DistinctByMultiset(u);
  }

  // Rehashing

  /** The pairs of a table put one after the other, from the first slot to the last. */
  function Collected<K, V>(t: seq<Slot<K, V>>): map<K, V> {
    if t == [] then map[]
    else
      var m := Collected(t[..|t| - 1]);
      match t[|t| - 1]
      case Empty => m
      case Full(_, k, v) => m[k := v]
  }

  lemma {:induction false} CollectedKeys<K, V>(t: seq<Slot<K, V>>, k: K)
    ensures k in Collected(t) <==> Present(t, k)
  {
    if t != [] {
      var last := |t| - 1;
      CollectedKeys(t[..last], k);
      if Present(t, k) {
        var i :| 0 <= i < |t| && t[i].Full? && t[i].key == k;
        assert i < last ==> t[..last][i] == t[i];
      }
      if Present(t[..last], k) {
        var i :| 0 <= i < last && t[..last][i].Full? && t[..last][i].key == k;
        assert t[i].Full? && t[i].key == k;
      }
    }
  }

  /** Of several copies, the one in the last slot remains. */
  lemma {:induction false} LastSlotRemains<K, V>(t: seq<Slot<K, V>>, i: nat)
    requires i < |t| && t[i].Full?
    requires forall j :: i < j < |t| && t[j].Full? ==> t[j].key != t[i].key
    ensures t[i].key in Collected(t) && Collected(t)[t[i].key] == t[i].val
  {
    var last := |t| - 1;
    if i < last {
      LastSlotRemains(t[..last], i);
    }
  }

  /** Without copies, a rehash collects what is found. */
  lemma CollectedIsFound<K, V>(t: seq<Slot<K, V>>, hash: K -> nat, m: map<K, V>)
    requires |t| > 0 && Distinct(t) && Finds(t, hash, m)
    ensures Collected(t) == m
  {
    forall k | k in Collected(t)
      ensures k in m
    {
      CollectedKeys(t, k);
    }
    forall k | k in m
      ensures k in Collected(t) && Collected(t)[k] == m[k]
    {
      var e := Item(hash, |t|, k, m[k]);
      assert Leads(t, hash, e);
      var s: nat :| FirstMatch(t, hash, k, s) && t[s] == e;
      LastSlotRemains(t, s);
    }
  }

  /** Where `k` is stored, it is followed by a slot that comes before the first one of its home. */
  ghost predicate Wraps<K, V>(t: seq<Slot<K, V>>, hash: K -> nat, k: K)
    requires |t| > 0
  {
    var home := Home(hash(k), |t|);
    exists f: nat, s: nat :: f < |t| && s < |t| && t[f].Full? && t[f].home == home && OthersBefore(t, home, f)
                             && t[s].Full? && t[s].key == k && Succ(|t|, s) < f
  }

  /** A put adds no third item of its key. */
  lemma TwoCopies<K, V>(t: seq<Slot<K, V>>, u: seq<Slot<K, V>>, x: Slot<K, V>, s: nat, q: nat)
    requires Distinct(t) && Exchanged(t, u, x, true) && x.Full?
    requires s < |t| && t[s].Full? && t[s].key == x.key
    requires q < |u| && u[q].Full? && u[q].key == x.key
    ensures u[q] == x || u[q] == t[s]
    ensures x != t[s] ==> multiset(u)[u[q]] == 1
  {
    KeyWasThere(t, u, x, true, q);
    DistinctByMultiset(t);
    assert t[s] in multiset(t);
    if x != t[s] {
      assert x !in multiset(t);
    }
  }

  /** Of the two copies that a put has left, a rehash keeps the old one, unless the items of the home wrap around. */
  lemma RehashKeepsOld<K, V>(t: seq<Slot<K, V>>, u: seq<Slot<K, V>>, hash: K -> nat, x: Slot<K, V>, s: nat)
    requires Distinct(t) && Placed(t, u, hash, x, true) && s < |t| && t[s].Full? && t[s].key == x.key
    requires x.home == Home(hash(x.key), |t|)
    ensures x.key in Collected(u)
    ensures Collected(u)[x.key] == if Wraps(t, hash, x.key) then x.val else t[s].val
  {
    assert Present(t, x.key);
    var f: nat :| MovedOn(t, u, x, f);
    WrapsAt(t, hash, x.key, f, s);
    forall q: nat | q < |u| && u[q].Full? && u[q].key == x.key
      ensures (u[q] == x || u[q] == t[s]) && (x != t[s] ==> multiset(u)[u[q]] == 1)
    {
      TwoCopies(t, u, x, s, q);
    }
    hide Ordered, Leads, OthersLead, CopyAdded, Wraps, Distinct, OthersBefore;
    LaterOfTwo(u, f, Succ(|t|, s));
  }

  lemma LaterOfTwo<K, V>(u: seq<Slot<K, V>>, f: nat, g: nat)
    requires f < |u| && g < |u| && u[f].Full? && u[g].Full? && u[f].key == u[g].key
    requires forall q: nat :: q < |u| && u[q].Full? && u[q].key == u[f].key ==>
               (u[q] == u[f] || u[q] == u[g]) && (u[f] != u[g] ==> multiset(u)[u[q]] == 1)
    ensures u[f].key in Collected(u) && Collected(u)[u[f].key] == (if g < f then u[f] else u[g]).val
  {
    var k, last := u[f].key, if g < f then f else g;
    if u[f] == u[g] {
      CollectedKeys(u, k);
      assert Present(u, k);
      CollectedFrom(u, k);
    } else {
      forall q: nat | last < q < |u| && u[q].Full?
        ensures u[q].key != k
      {
        if u[q].key == k {
          TwiceIn(u, if u[q] == u[f] then f else g, q);
        }
      }
      LastSlotRemains(u, last);
    }
  }

  lemma {:induction false} CollectedFrom<K, V>(t: seq<Slot<K, V>>, k: K)
    requires k in Collected(t)
    ensures exists q: nat :: q < |t| && t[q].Full? && t[q].key == k && t[q].val == Collected(t)[k]
  {
    var last := |t| - 1;
    if t[last].Full? && t[last].key == k {
      assert Collected(t)[k] == t[last].val;
    } else {
      CollectedFrom(t[..last], k);
      var q: nat :| q < last && t[..last][q].Full? && t[..last][q].key == k && t[..last][q].val == Collected(t)[k];
      assert t[q] == t[..last][q];
    }
  }

  lemma WrapsAt<K, V>(t: seq<Slot<K, V>>, hash: K -> nat, k: K, f: nat, s: nat)
    requires Distinct(t) && f < |t| && s < |t| && t[f].Full? && t[s].Full? && t[s].key == k
    requires t[f].home == Home(hash(k), |t|) && OthersBefore(t, t[f].home, f)
    ensures Wraps(t, hash, k) <==> Succ(|t|, s) < f
  {
    forall g: nat | g < |t| && t[g].Full? && t[g].home == t[f].home && OthersBefore(t, t[f].home, g)
      ensures g == f
    {
      assert Dist(|t|, t[f].home, g) == Dist(|t|, t[f].home, f);
    }
  }
}
