/** Where exactly the elements of the linear-probing table are, and which one a probe meets first. */
module ProbeLayout {
  import opened Ring
  import opened LinearProbing

  /** Nothing that a probe for `code` passes before `i` compares equal. */
  predicate NoneBefore<E, Q>(t: seq<Bucket<E>>, code: nat, query: Q, compare: (E, Q) -> bool, i: nat)
    requires i < |t|
  {
    var h := Home(code, |t|);
    forall u :: 0 <= u < |t| && Dist(|t|, h, u) < Dist(|t|, h, i) && t[u].Used? && t[u].code == code ==>
      !compare(t[u].elem, query)
  }

  /** A probe stops at `i`: at the first bucket that is free or holds an element that compares equal. */
  predicate StopsAt<E, Q>(t: seq<Bucket<E>>, code: nat, query: Q, compare: (E, Q) -> bool, i: nat) {
    i < |t| && UsedBefore(t, code, i) && NoneBefore(t, code, query, compare, i)
    && (t[i].Used? ==> t[i].code == code && compare(t[i].elem, query))
  }

  lemma StopsAtOne<E, Q>(t: seq<Bucket<E>>, code: nat, query: Q, compare: (E, Q) -> bool, i: nat, j: nat)
    requires StopsAt(t, code, query, compare, i) && StopsAt(t, code, query, compare, j)
    ensures i == j
  {
    var h := Home(code, |t|);
    assert Dist(|t|, h, i) == Dist(|t|, h, j);
  }

  predicate IsFreeSlot<E>(t: seq<Bucket<E>>, code: nat, i: nat) {
    i < |t| && t[i].Free? && UsedBefore(t, code, i)
  }

  lemma {:induction false} SlotExists<E>(t: seq<Bucket<E>>, code: nat, free: nat)
    requires free < |t| && t[free].Free?
    ensures exists i: nat :: IsFreeSlot(t, code, i)
    decreases Dist(|t|, Home(code, |t|), free)
  {
    var h := Home(code, |t|);
    if !UsedBefore(t, code, free) {
      var u :| 0 <= u < |t| && Dist(|t|, h, u) < Dist(|t|, h, free) && t[u].Free?;
      SlotExists(t, code, u);
    } else {
      assert IsFreeSlot(t, code, free);
    }
  }

  lemma OneFreeSlot<E>(t: seq<Bucket<E>>, code: nat, i: nat, j: nat)
    requires IsFreeSlot(t, code, i) && IsFreeSlot(t, code, j)
    ensures i == j
  {
    var h := Home(code, |t|);
    assert Dist(|t|, h, i) == Dist(|t|, h, j);
  }

  /** The first free bucket on the way from the home of a hash. */
  ghost function FreeSlot<E>(t: seq<Bucket<E>>, code: nat): (i: nat)
    requires multiset(t)[Free] > 0
    ensures IsFreeSlot(t, code, i)
  {
    assert Free in multiset(t);
    var free: nat :| free < |t| && t[free].Free?;
    SlotExists(t, code, free);
    var i: nat :| IsFreeSlot(t, code, i);
    i
  }

  /** An element in the first free bucket of its probe. */
  ghost function Place<E>(t: seq<Bucket<E>>, b: Bucket<E>): (r: seq<Bucket<E>>)
    requires b.Used? && multiset(t)[Free] > 0
    ensures |r| == |t| && multiset(r)[Free] == multiset(t)[Free] - 1
  {
    FillAddsItem(t, FreeSlot(t, b.code), b);
    t[FreeSlot(t, b.code) := b]
  }

  /** The elements of `list`, one after the other. */
  ghost function PlaceAll<E>(t: seq<Bucket<E>>, list: seq<Bucket<E>>): (r: seq<Bucket<E>>)
    requires multiset(t)[Free] > |list|
    ensures |r| == |t| && multiset(r)[Free] >= multiset(t)[Free] - |list|
  {
    if list == [] then t
    else
      var r := PlaceAll(t, list[..|list| - 1]);
      var b := list[|list| - 1];
      if b.Free? then r else Place(r, b)
  }

  function Blank<E>(n: nat): (t: seq<Bucket<E>>)
    ensures |t| == n && multiset(t)[Free] == n
  {
    BlankIsFree<E>(n);
    seq(n, _ => Free)
  }

  lemma {:induction false} BlankIsFree<E>(n: nat)
    ensures multiset(seq<Bucket<E>>(n, _ => Free))[Free] == n
    decreases n
  {
    if n > 0 {
      BlankIsFree<E>(n - 1);
      assert seq<Bucket<E>>(n, _ => Free) == seq<Bucket<E>>(n - 1, _ => Free) + [Free];
    }
  }

  lemma PlaceAt<E>(t: seq<Bucket<E>>, b: Bucket<E>, i: nat)
    requires b.Used? && IsFreeSlot(t, b.code, i)
    ensures multiset(t)[Free] > 0 && Place(t, b) == t[i := b]
  {
    assert t[i] in multiset(t);
    OneFreeSlot(t, b.code, i, FreeSlot(t, b.code));
  }

  /** One more element of the list. */
  lemma PlaceMore<E>(t: seq<Bucket<E>>, list: seq<Bucket<E>>, i: nat)
    requires multiset(t)[Free] > |list| && i < |list|
    ensures PlaceAll(t, list[..i + 1])
         == if list[i].Free? then PlaceAll(t, list[..i]) else Place(PlaceAll(t, list[..i]), list[i])
  {
    assert list[..i + 1][..i] == list[..i];
  }
}
