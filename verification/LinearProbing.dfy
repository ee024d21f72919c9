/** Bucket tables of the linear-probing hash table, and what removal does to them. */
module LinearProbing {
  import opened Ring

  const OCCUPIED: nat := 0x8000_0000

  /** A bucket: its stored hash (with the occupied bit) and element, or nothing. */
  datatype Bucket<+E> = Free | Used(code: nat, elem: E)

  /** `hash |= OCCUPIED_MASK` on 32 bits. */
  function Mark(hash: nat): nat {
    if hash < OCCUPIED then hash + OCCUPIED else hash
  }

  /** The bucket at which the probe for the element in bucket `s` starts. */
  function HomeOf<E>(t: seq<Bucket<E>>, s: nat): (h: nat)
    requires s < |t| && t[s].Used?
    ensures h < |t|
  {
    Home(t[s].code, |t|)
  }

  /** No free bucket lies between the home of the element in `s` and `s` itself. */
  predicate PathUsed<E>(t: seq<Bucket<E>>, s: nat)
    requires s < |t| && t[s].Used?
  {
    var h := HomeOf(t, s);
    forall u :: 0 <= u < |t| && Dist(|t|, h, u) <= Dist(|t|, h, s) ==> t[u].Used?
  }

  /** Every element can be reached by probing from its home. */
  predicate Reachable<E>(t: seq<Bucket<E>>) {
    forall s :: 0 <= s < |t| && t[s].Used? ==> PathUsed(t, s)
  }

  /** The elements of a table with their stored hashes. */
  ghost function Items<E>(t: seq<Bucket<E>>): multiset<Bucket<E>> {
    multiset(t)[Free := 0]
  }

  /** A free bucket ends the search: nothing with this hash is stored at or behind it. */
  lemma FreeEndsProbe<E>(t: seq<Bucket<E>>, code: nat, u: nat)
    requires Reachable(t) && u < |t| && t[u].Free?
    ensures forall s :: 0 <= s < |t| && t[s].Used? && t[s].code == code ==>
              Dist(|t|, Home(code, |t|), s) < Dist(|t|, Home(code, |t|), u)
  {
    forall s | 0 <= s < |t| && t[s].Used? && t[s].code == code
      ensures Dist(|t|, Home(code, |t|), s) < Dist(|t|, Home(code, |t|), u)
    {
      assert PathUsed(t, s);
    }
  }

  /** All buckets that a probe for `code` passes before `i` are used. */
  predicate UsedBefore<E>(t: seq<Bucket<E>>, code: nat, i: nat)
    requires i < |t|
  {
    var h := Home(code, |t|);
    forall u :: 0 <= u < |t| && Dist(|t|, h, u) < Dist(|t|, h, i) ==> t[u].Used?
  }

  /** Filling the free bucket that a probe ends at keeps everything reachable. */
  lemma FillKeepsReachable<E>(t: seq<Bucket<E>>, i: nat, b: Bucket<E>)
    requires Reachable(t) && i < |t| && t[i].Free? && b.Used? && UsedBefore(t, b.code, i)
    ensures Reachable(t[i := b])
  {
    var u := t[i := b];
    forall s | 0 <= s < |u| && u[s].Used? ensures PathUsed(u, s) {
      if s != i {
        assert PathUsed(t, s);
      }
    }
  }

  lemma FillAddsItem<E>(t: seq<Bucket<E>>, i: nat, b: Bucket<E>)
    requires i < |t| && t[i].Free? && b.Used?
    ensures Items(t[i := b]) == Items(t) + multiset{b}
    ensures multiset(t[i := b])[Free] == multiset(t)[Free] - 1
  {
    assert t[i] in multiset(t);
  }

  // Removal

  /** The path of the element in `s` leads through bucket `hole`. */
  predicate Through<E>(t: seq<Bucket<E>>, s: nat, hole: nat)
    requires s < |t| && hole < |t| && t[s].Used?
  {
    var h := HomeOf(t, s);
    Dist(|t|, h, hole) <= Dist(|t|, h, s)
  }

  /** Between `hole` and `next`, going round. */
  predicate Scanned(n: nat, hole: nat, next: nat, s: nat)
    requires hole < n && next < n && s < n
  {
    0 < Dist(n, hole, s) < Dist(n, hole, next)
  }

  /**
   Removal has come to bucket `next`; the contents of bucket `hole` are given up. Every
   other element is reachable, and those already passed do without the hole.
   */
  predicate Shifting<E>(t: seq<Bucket<E>>, hole: nat, next: nat) {
    && hole < |t| && next < |t| && t[hole].Used?
    && (forall s :: 0 <= s < |t| && s != hole && t[s].Used? ==> PathUsed(t, s))
    && (forall s :: 0 <= s < |t| && Scanned(|t|, hole, next, s) ==> t[s].Used? && !Through(t, s, hole))
  }

  lemma ShiftingStarts<E>(t: seq<Bucket<E>>, at: nat)
    requires Reachable(t) && at < |t| && t[at].Used? && |t| > 1
    ensures Shifting(t, at, Succ(|t|, at))
  {
  }

  /** An element whose path needs the hole moves into it and leaves a new hole. */
  lemma ShiftingMoves<E>(t: seq<Bucket<E>>, hole: nat, next: nat)
    requires Shifting(t, hole, next) && hole != next && t[next].Used? && Through(t, next, hole)
    ensures Shifting(t[hole := t[next]], next, Succ(|t|, next))
  {
    var u := t[hole := t[next]];
    forall s | 0 <= s < |u| && s != next && u[s].Used? ensures PathUsed(u, s) {
      if s == hole {
        assert PathUsed(t, next);
        assert HomeOf(u, hole) == HomeOf(t, next);
      } else {
        assert PathUsed(t, s);
      }
    }
  }

  /** An element that can do without the hole stays. */
  lemma ShiftingPasses<E>(t: seq<Bucket<E>>, hole: nat, next: nat)
    requires Shifting(t, hole, next) && hole != next && t[next].Used? && !Through(t, next, hole)
    requires Succ(|t|, next) != hole
    ensures Shifting(t, hole, Succ(|t|, next))
  {
  }

  lemma ShiftingEnds<E>(t: seq<Bucket<E>>, hole: nat, next: nat)
    requires Shifting(t, hole, next) && t[next].Free?
    ensures Reachable(t[hole := Free])
  {
    var u := t[hole := Free];
    forall s | 0 <= s < |u| && u[s].Used? ensures PathUsed(u, s) {
      assert PathUsed(t, s);
    }
  }

  /** An element that was moved to `g` without need cannot be reached past a free bucket below `g`. */
  lemma LostElement<E>(t: seq<Bucket<E>>, g: nat, hole: nat)
    requires hole < g < |t| && t[g].Used? && t[hole].Free?
    requires HomeOf(t, g) == 0 || HomeOf(t, g) > g
    ensures !Reachable(t)
  {
    assert !PathUsed(t, g) by { assert Dist(|t|, HomeOf(t, g), hole) <= Dist(|t|, HomeOf(t, g), g); }
  }

  /** The test in the source: a comparison of positions that ignores the wrap-around. */
  predicate MoveTest(desired: nat, index: nat, next: nat) {
    desired <= index || desired > next
  }

  /** Before the wrap-around the test is exact. */
  lemma MoveTestExact<E>(t: seq<Bucket<E>>, index: nat, next: nat)
    requires index < next < |t| && t[next].Used?
    ensures MoveTest(HomeOf(t, next), index, next) <==> Through(t, next, index)
  {
  }

  /** After it, the test holds for every element. */
  lemma MoveTestWrapped<E>(t: seq<Bucket<E>>, index: nat, next: nat)
    requires next < index < |t| && t[next].Used?
    ensures MoveTest(HomeOf(t, next), index, next)
    ensures Through(t, next, index) <==> next < HomeOf(t, next) <= index
  {
  }

  /** Where the hole is once all buckets up to the end of the array have been passed. */
  function HoleAtEnd<E>(t: seq<Bucket<E>>, hole: nat, next: nat): (g: nat)
    requires hole < next <= |t|
    ensures hole <= g < |t|
    decreases |t| - next
  {
    if next == |t| || t[next].Free? then hole
    else if MoveTest(HomeOf(t, next), hole, next) then HoleAtEnd(t, next, next + 1)
    else HoleAtEnd(t, hole, next + 1)
  }

  /**
   When removing bucket `at` is harmless: the used run behind it ends before the array
   does, or continues with an element in bucket 0 that really has to move into the hole.
   */
  predicate Harmless<E>(t: seq<Bucket<E>>, at: nat)
    requires at < |t|
  {
    || (exists u :: at < u < |t| && t[u].Free?)
    || t[0].Free?
    || 0 < HomeOf(t, 0) <= HoleAtEnd(t, at, at + 1)
  }

  lemma MoveKeepsItems<E>(t: seq<Bucket<E>>, hole: nat, next: nat)
    requires hole < |t| && next < |t| && hole != next
    ensures multiset(t[hole := t[next]][next := Free]) == multiset(t[hole := Free])
  {
    var a, b := t[hole := t[next]][next := Free], t[hole := Free];
    assert a == b[hole := t[next]][next := Free];
    assert b[hole] in multiset(b) && b[next] == t[next];
  }
}
