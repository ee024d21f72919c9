/** The loop of `removeFromHashTable`, followed past the end of the array. */
module Removal {
  import opened Ring
  import opened LinearProbing
  import opened ProbeLayout

  /** A removal of bucket `at` from the table `t`, in which bucket `free` is free. */
  ghost predicate Task<E>(t: seq<Bucket<E>>, at: nat, free: nat) {
    && at < |t| && free < |t| && t[at].Used? && t[free].Free? && Reachable(t)
  }

  ghost predicate SameFrom<E>(t: seq<Bucket<E>>, u: seq<Bucket<E>>, lo: nat, hi: nat)
    requires |t| == |u| && hi <= |t|
  {
    forall i :: lo <= i < hi ==> u[i] == t[i]
  }

  ghost predicate UsedFrom<E>(t: seq<Bucket<E>>, lo: nat, hi: nat)
    requires hi <= |t|
  {
    forall i :: lo <= i < hi ==> t[i].Used?
  }

  /** The scan has not reached the end of the array; `next` may be the end itself. */
  ghost predicate BeforeWrap<E>(t0: seq<Bucket<E>>, t: seq<Bucket<E>>, at: nat, free: nat, index: nat, next: nat)
    requires Task(t0, at, free)
  {
    && |t| == |t0| && at <= index < next <= |t|
    && UsedFrom(t0, at, next) && SameFrom(t0, t, next, |t|) && SameFrom(t0, t, 0, at)
    && HoleAtEnd(t0, at, at + 1) == HoleAtEnd(t0, index, next)
    && Shifting(t, index, if next == |t| then 0 else next)
  }

  /**
   The scan has gone past the end. Either everything is still in order, or (`bad`) the
   element of bucket 0 was moved to `g`, where no probe for it will find it.
   */
  ghost predicate AfterWrap<E>(t0: seq<Bucket<E>>, t: seq<Bucket<E>>, at: nat, free: nat, index: nat, next: nat,
                         g: nat, bad: bool)
    requires Task(t0, at, free)
  {
    && |t| == |t0| && index < next <= free < at <= g < |t|
    && t[free].Free? && UsedFrom(t0, at, |t|) && t0[0].Used? && g == HoleAtEnd(t0, at, at + 1)
    && (bad <==> !(0 < HomeOf(t0, 0) <= g))
    && (if bad then t[g] == t0[0] else Shifting(t, index, next))
  }

  lemma RemovalStarts<E>(t: seq<Bucket<E>>, at: nat, free: nat)
    requires Task(t, at, free)
    ensures BeforeWrap(t, t, at, free, at, at + 1)
  {
    ShiftingStarts(t, at);
  }

  lemma StepBeforeWrap<E>(t0: seq<Bucket<E>>, t: seq<Bucket<E>>, at: nat, free: nat, index: nat, next: nat)
    requires Task(t0, at, free) && BeforeWrap(t0, t, at, free, index, next) && next < |t| && t[next].Used?
    ensures if MoveTest(HomeOf(t, next), index, next)
            then BeforeWrap(t0, t[index := t[next]], at, free, next, next + 1)
            else BeforeWrap(t0, t, at, free, index, next + 1) && Succ(|t|, next) != index
  {
    assert t[next] == t0[next];
    if MoveTest(HomeOf(t, next), index, next) {
      MoveBeforeWrap(t0, t, at, free, index, next);
    } else {
      PassBeforeWrap(t0, t, at, free, index, next);
    }
    hide BeforeWrap;
  }

  lemma MoveBeforeWrap<E>(t0: seq<Bucket<E>>, t: seq<Bucket<E>>, at: nat, free: nat, index: nat, next: nat)
    requires Task(t0, at, free) && BeforeWrap(t0, t, at, free, index, next) && next < |t| && t[next].Used?
    requires MoveTest(HomeOf(t, next), index, next)
    ensures BeforeWrap(t0, t[index := t[next]], at, free, next, next + 1)
  {
    MoveTestExact(t, index, next);
    ShiftingMoves(t, index, next);
    hide Shifting, HomeOf, Reachable;
    assert t[next] == t0[next];
  }

  lemma PassBeforeWrap<E>(t0: seq<Bucket<E>>, t: seq<Bucket<E>>, at: nat, free: nat, index: nat, next: nat)
    requires Task(t0, at, free) && BeforeWrap(t0, t, at, free, index, next) && next < |t| && t[next].Used?
    requires !MoveTest(HomeOf(t, next), index, next)
    ensures BeforeWrap(t0, t, at, free, index, next + 1) && Succ(|t|, next) != index
  {
    MoveTestExact(t, index, next);
    assert t[next] == t0[next];
    assert free < at || free > next;
    ShiftingPasses(t, index, next);
    hide Shifting, HomeOf, Reachable;
  }

  lemma StepAtWrap<E>(t0: seq<Bucket<E>>, t: seq<Bucket<E>>, at: nat, free: nat, index: nat)
    requires Task(t0, at, free) && BeforeWrap(t0, t, at, free, index, |t|) && t[0].Used?
    ensures MoveTest(HomeOf(t, 0), index, 0)
    ensures AfterWrap(t0, t[index := t[0]], at, free, 0, 1, index, !(0 < HomeOf(t0, 0) <= index))
  {
    assert free < at;
    assert t[0] == t0[0];
    MoveTestWrapped(t, index, 0);
    if Through(t, 0, index) {
      ShiftingMoves(t, index, 0);
    }
  }

  lemma StepAfterWrap<E>(t0: seq<Bucket<E>>, t: seq<Bucket<E>>, at: nat, free: nat, index: nat, next: nat,
                         g: nat, bad: bool)
    requires Task(t0, at, free) && AfterWrap(t0, t, at, free, index, next, g, bad) && t[next].Used?
    ensures if MoveTest(HomeOf(t, next), index, next)
            then AfterWrap(t0, t[index := t[next]], at, free, next, next + 1, g, bad)
            else AfterWrap(t0, t, at, free, index, next + 1, g, bad)
  {
    MoveTestExact(t, index, next);
    if !bad {
      if MoveTest(HomeOf(t, next), index, next) {
        ShiftingMoves(t, index, next);
      } else {
        ShiftingPasses(t, index, next);
      }
    }
  }

  /** Stopping before the wrap-around, or at a free bucket 0: everything stays reachable. */
  lemma EndsBeforeWrap<E>(t0: seq<Bucket<E>>, t: seq<Bucket<E>>, at: nat, free: nat, index: nat, next: nat)
    requires Task(t0, at, free) && BeforeWrap(t0, t, at, free, index, next)
    requires t[if next == |t| then 0 else next].Free?
    ensures Harmless(t0, at) && Reachable(t[index := Free])
  {
    ShiftingEnds(t, index, if next == |t| then 0 else next);
    if next == |t| {
      assert t[0] == t0[0];
    } else {
      assert t[next] == t0[next];
    }
  }

  /** Stopping behind the wrap-around: everything is reachable exactly if the removal was harmless. */
  lemma EndsAfterWrap<E>(t0: seq<Bucket<E>>, t: seq<Bucket<E>>, at: nat, free: nat, index: nat, next: nat,
                         g: nat, bad: bool)
    requires Task(t0, at, free) && AfterWrap(t0, t, at, free, index, next, g, bad) && t[next].Free?
    ensures Reachable(t[index := Free]) <==> Harmless(t0, at)
  {
    if bad {
      LostElement(t[index := Free], g, index);
    } else {
      ShiftingEnds(t, index, next);
    }
  }

  /** How far a removal is: the hole, the bucket to look at, and the misplaced element if any. */
  datatype Progress = Progress(index: nat, next: nat, wrapped: bool, g: nat, bad: bool)

  ghost predicate Removing<E>(t0: seq<Bucket<E>>, t: seq<Bucket<E>>, at: nat, free: nat, p: Progress)
    requires Task(t0, at, free)
  {
    && |t| == |t0| && p.index < |t| && p.next < |t| && p.index != p.next
    && multiset(t[p.index := Free]) == multiset(t0[at := Free])
    && (if p.wrapped
        then p.next > 0 && AfterWrap(t0, t, at, free, p.index, p.next, p.g, p.bad)
        else BeforeWrap(t0, t, at, free, p.index, if p.next == 0 then |t| else p.next))
  }

  function Remaining(n: nat, p: Progress): int {
    if p.wrapped then n - p.next else if p.next == 0 then n + 1 else 2 * n + 1 - p.next
  }

  /** One turn of the loop from `t` at `p`, with the decision that the source takes, leads to `u` at `q`. */
  ghost predicate Turn<E>(t: seq<Bucket<E>>, u: seq<Bucket<E>>, p: Progress, q: Progress)
    requires p.index < |t| && p.next < |t| && t[p.next].Used?
  {
    var moved := MoveTest(HomeOf(t, p.next), p.index, p.next);
    && u == (if moved then t[p.index := t[p.next]] else t)
    && q.index == (if moved then p.next else p.index)
    && q.next == Succ(|t|, p.next)
  }

  lemma TurnKeepsItems<E>(t: seq<Bucket<E>>, u: seq<Bucket<E>>, p: Progress, q: Progress)
    requires p.index < |t| && p.next < |t| && p.index != p.next && t[p.next].Used? && Turn(t, u, p, q)
    ensures multiset(u[q.index := Free]) == multiset(t[p.index := Free])
  {
    MoveKeepsItems(t, p.index, p.next);
  }

  lemma TurnBefore<E>(t0: seq<Bucket<E>>, t: seq<Bucket<E>>, u: seq<Bucket<E>>, at: nat, free: nat,
                      p: Progress, q: Progress)
    requires Task(t0, at, free) && Removing(t0, t, at, free, p) && t[p.next].Used? && Turn(t, u, p, q)
    requires !p.wrapped && p.next > 0 && q.wrapped == p.wrapped
    ensures Removing(t0, u, at, free, q)
  {
    TurnKeepsItems(t, u, p, q);
    StepBeforeWrap(t0, t, at, free, p.index, p.next);
    var next := if q.next == 0 then |t| else q.next;
    assert next == p.next + 1;
    assert BeforeWrap(t0, u, at, free, q.index, next);
  }

  lemma TurnAtWrap<E>(t0: seq<Bucket<E>>, t: seq<Bucket<E>>, u: seq<Bucket<E>>, at: nat, free: nat,
                      p: Progress, q: Progress)
    requires Task(t0, at, free) && Removing(t0, t, at, free, p) && t[p.next].Used? && Turn(t, u, p, q)
    requires !p.wrapped && p.next == 0 && q.wrapped && q.g == p.index && t0[0].Used?
    requires q.bad == !(0 < HomeOf(t0, 0) <= p.index)
    ensures Removing(t0, u, at, free, q)
  {
    TurnKeepsItems(t, u, p, q);
    StepAtWrap(t0, t, at, free, p.index);
  }

  lemma TurnAfter<E>(t0: seq<Bucket<E>>, t: seq<Bucket<E>>, u: seq<Bucket<E>>, at: nat, free: nat,
                     p: Progress, q: Progress)
    requires Task(t0, at, free) && Removing(t0, t, at, free, p) && t[p.next].Used? && Turn(t, u, p, q)
    requires p.wrapped && q.wrapped && q.g == p.g && q.bad == p.bad
    ensures Removing(t0, u, at, free, q)
  {
    TurnKeepsItems(t, u, p, q);
    StepAfterWrap(t0, t, at, free, p.index, p.next, p.g, p.bad);
    assert AfterWrap(t0, u, at, free, q.index, q.next, q.g, q.bad);
  }

  lemma RemovingStep<E>(t0: seq<Bucket<E>>, t: seq<Bucket<E>>, u: seq<Bucket<E>>, at: nat, free: nat, p: Progress,
                        i: nat)
    returns (q: Progress)
    requires Task(t0, at, free) && Removing(t0, t, at, free, p) && t[p.next].Used?
    requires Turn(t, u, p, p.(index := i, next := Succ(|t|, p.next)))
    ensures Removing(t0, u, at, free, q) && q.index == i && q.next == Succ(|t|, p.next)
    ensures 0 <= Remaining(|t|, q) < Remaining(|t|, p)
  {
    q := p.(index := i, next := Succ(|t|, p.next));
    if p.wrapped {
      TurnAfter(t0, t, u, at, free, p, q);
    } else if p.next == 0 {
      assert t[0] == t0[0];
      q := Progress(i, q.next, true, p.index, !(0 < HomeOf(t0, 0) <= p.index));
      TurnAtWrap(t0, t, u, at, free, p, q);
    } else {
      TurnBefore(t0, t, u, at, free, p, q);
    }
  }

  lemma RemovingEnds<E>(t0: seq<Bucket<E>>, t: seq<Bucket<E>>, at: nat, free: nat, p: Progress)
    requires Task(t0, at, free) && Removing(t0, t, at, free, p) && t[p.next].Free?
    ensures Reachable(t[p.index := Free]) <==> Harmless(t0, at)
  {
    if p.wrapped {
      EndsAfterWrap(t0, t, at, free, p.index, p.next, p.g, p.bad);
    } else {
      EndsBeforeWrap(t0, t, at, free, p.index, if p.next == 0 then |t| else p.next);
    }
  }

  /** The table that the loop leaves, from bucket `next` on, in at most `turns` turns. */
  function Closed<E>(t: seq<Bucket<E>>, index: nat, next: nat, turns: nat): seq<Bucket<E>>
    requires index < |t| && next < |t|
    decreases turns
  {
    if turns == 0 || t[next].Free? then t[index := Free]
    else if MoveTest(HomeOf(t, next), index, next)
    then Closed(t[index := t[next]], next, Succ(|t|, next), turns - 1)
    else Closed(t, index, Succ(|t|, next), turns - 1)
  }

  ghost predicate Unlinking<E>(t0: seq<Bucket<E>>, t: seq<Bucket<E>>, at: nat, free: nat, p: Progress, turns: nat)
    requires Task(t0, at, free)
  {
    && Removing(t0, t, at, free, p) && Remaining(|t|, p) <= turns
    && Closed(t, p.index, p.next, turns) == Closed(t0, at, Succ(|t0|, at), 2 * |t0| + 1)
  }

  lemma UnlinkingStep<E>(t0: seq<Bucket<E>>, t: seq<Bucket<E>>, u: seq<Bucket<E>>, at: nat, free: nat, p: Progress,
                         turns: nat, i: nat)
    returns (q: Progress)
    requires Task(t0, at, free) && Unlinking(t0, t, at, free, p, turns) && t[p.next].Used?
    requires Turn(t, u, p, p.(index := i, next := Succ(|t|, p.next)))
    ensures turns > 0 && Unlinking(t0, u, at, free, q, turns - 1) && q.index == i && q.next == Succ(|t|, p.next)
    ensures 0 <= Remaining(|t|, q) < Remaining(|t|, p)
  {
    q := RemovingStep(t0, t, u, at, free, p, i);
  }

  lemma UnlinkingEnds<E>(t0: seq<Bucket<E>>, t: seq<Bucket<E>>, at: nat, free: nat, p: Progress, turns: nat)
    requires Task(t0, at, free) && Unlinking(t0, t, at, free, p, turns) && t[p.next].Free?
    ensures var u := t[p.index := Free];
            && multiset(u) == multiset(t0[at := Free]) && (Reachable(u) <==> Harmless(t0, at))
            && u == Closed(t0, at, Succ(|t0|, at), 2 * |t0| + 1)
  {
    RemovingEnds(t0, t, at, free, p);
  }

  /** The loop of `removeFromHashTable`, up to and including the write that frees the last hole. */
  method Unlink<E>(buckets: array<Bucket<E>>, at: nat, ghost free: nat)
    requires Task(buckets[..], at, free)
    modifies buckets
    ensures multiset(buckets[..]) == multiset(old(buckets[..])[at := Free])
    ensures Reachable(buckets[..]) <==> Harmless(old(buckets[..]), at)
    ensures buckets[..] == Closed(old(buckets[..]), at, Succ(buckets.Length, at), 2 * buckets.Length + 1)
  {
    hide Harmless, Reachable, BeforeWrap, AfterWrap, Closed;
    ghost var t0 := buckets[..];
    var n := buckets.Length;
    var index: nat, next: nat := at, Succ(n, at);
    RemovalStarts(t0, at, free);
    ghost var p := Progress(at, next, false, 0, false);
    ghost var turns: nat := 2 * n + 1;
    while buckets[next].Used?
      invariant next < n && p.index == index && p.next == next && Unlinking(t0, buckets[..], at, free, p, turns)
      decreases Remaining(n, p)
    {
      ghost var t := buckets[..];
      var desired := Home(buckets[next].code, n);
      ghost var i := index;
      if desired <= index || desired > next {
        buckets[index] := buckets[next];
        index := next;
      }
      assert buckets[..] == if MoveTest(desired, i, next) then t[i := t[next]] else t;
      p := UnlinkingStep(t0, t, buckets[..], at, free, p, turns, index);
      turns := turns - 1;
      next := Succ(n, next);
    }
    UnlinkingEnds(t0, buckets[..], at, free, p, turns);
    ghost var t := buckets[..];
    buckets[index] := Free;
    assert buckets[..] == t[index := Free];
  }

  /**
   A table of capacity 7 in which the buckets 5, 6 and 0 are used, and the element in bucket 0 is at home there.
   Removing the one in bucket 6 moves it to bucket 6, and a search for it stops at the free bucket 0.
   */
  lemma WrapAroundWitness()
    ensures var a, b, c := Used(Mark(5), 'a'), Used(Mark(3), 'b'), Used(Mark(4), 'c');
            var after := [Free, Free, Free, Free, Free, b, a];
            && Reachable([a, Free, Free, Free, Free, b, c])
            && Closed([a, Free, Free, Free, Free, b, c], 6, 0, 15) == after
            && !PathUsed(after, 6) && StopsAt(after, Mark(5), 'a', (x: char, y: char) => x == y, 0)
  {
    var a, b, c := Used(Mark(5), 'a'), Used(Mark(3), 'b'), Used(Mark(4), 'c');
    var t := [a, Free, Free, Free, Free, b, c];
    assert Home(Mark(5), 7) == 0 && Home(Mark(3), 7) == 5 && Home(Mark(4), 7) == 6;
    assert HomeOf(t, 0) == 0 && HomeOf(t, 5) == 5 && HomeOf(t, 6) == 6;
    forall s | 0 <= s < |t| && t[s].Used?
      ensures PathUsed(t, s)
    {
      assert s == 0 || s == 5 || s == 6;
    }
    var moved := [a, Free, Free, Free, Free, b, a];
    assert t[6 := t[0]] == moved;
    assert Closed(t, 6, 0, 15) == Closed(moved, 0, 1, 14) == moved[0 := Free];
    var after := [Free, Free, Free, Free, Free, b, a];
    assert moved[0 := Free] == after;
    assert HomeOf(after, 6) == 0 && Dist(7, 0, 0) <= Dist(7, 0, 6);
  }
}
