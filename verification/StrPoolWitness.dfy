/** A rehash after which the string pool answers with another pointer for a string that it has returned before. */
module StrPoolWitness {
  import opened LinearProbing
  import opened Primes
  import opened ProbeLayout
  import opened HashTables
  import opened Ring
  import opened StrPools

  /** A hash under which "ab" and "abc" collide in the last bucket of a table of seven. */
  const COLLIDING: string -> nat :=
    (s: string) => if s == "d" then 0 else if s == "e" then 1 else if s == "f" then 2 else 4

  function At(text: string, pointer: nat): Bucket<nat> {
    Used(Mark(COLLIDING(text)), pointer)
  }

  const AB := At("ab", 0)
  const ABC := At("abc", 1)
  const D := At("d", 2)
  const E := At("e", 3)
  const F := At("f", 4)

  lemma Homes()
    ensures Home(AB.code, 7) == 6 && Home(D.code, 7) == 2 && Home(E.code, 7) == 3 && Home(F.code, 7) == 4
    ensures Home(AB.code, 17) == 13 && Home(D.code, 17) == 9 && Home(E.code, 17) == 10 && Home(F.code, 17) == 11
    ensures ABC.code == AB.code
  {
  }

  /** The slot of an element: its home, or the next bucket if that is used. */
  predicate Slot(t: seq<Bucket<nat>>, b: Bucket<nat>, i: nat) {
    b.Used? && i < |t| && t[i].Free?
    && var h := Home(b.code, |t|);
       i == h || (t[h].Used? && i == Succ(|t|, h))
  }

  lemma SlotIsFree(t: seq<Bucket<nat>>, b: Bucket<nat>, i: nat)
    requires Slot(t, b, i)
    ensures multiset(t)[Free] > 0 && Place(t, b) == t[i := b]
  {
    PlaceAt(t, b, i);
  }

  /** One of the first four elements. */
  lemma Stored(t: seq<Bucket<nat>>, size: nat, b: Bucket<nat>, u: seq<Bucket<nat>>, i: nat)
    requires |t| == 7 && size <= 4 && Slot(t, b, i) && multiset(t)[Free] > 0 && Inserted(t, size, b, u)
    ensures u == t[i := b]
  {
    SlotIsFree(t, b, i);
  }

  const T1: seq<Bucket<nat>> := [Free, Free, Free, Free, Free, Free, AB]
  const T2: seq<Bucket<nat>> := [ABC, Free, Free, Free, Free, Free, AB]
  const T3: seq<Bucket<nat>> := [ABC, Free, D, Free, Free, Free, AB]
  const T4: seq<Bucket<nat>> := [ABC, Free, D, E, Free, Free, AB]
  const FULL: seq<Bucket<nat>> := [ABC, Free, D, E, F, Free, AB]

  lemma Steps()
    ensures Slot(Blank<nat>(7), AB, 6) && Blank<nat>(7)[6 := AB] == T1 && Slot(T1, ABC, 0) && T1[0 := ABC] == T2
    ensures Slot(T2, D, 2) && T2[2 := D] == T3 && Slot(T3, E, 3) && T3[3 := E] == T4
    ensures Slot(T4, F, 4) && T4[4 := F] == FULL
  {
    Homes();
  }

  lemma PlaceNext(t: seq<Bucket<nat>>, n: nat, list: seq<Bucket<nat>>, k: nat, i: nat)
    requires n > |list| && k < |list| && t == PlaceAll(Blank<nat>(n), list[..k]) && Slot(t, list[k], i)
    ensures PlaceAll(Blank<nat>(n), list[..k + 1]) == t[i := list[k]]
  {
    PlaceMore(Blank<nat>(n), list, k);
    SlotIsFree(t, list[k], i);
  }

  lemma PlaceNothing(n: nat, list: seq<Bucket<nat>>, k: nat)
    requires n > |list| && k < |list| && list[k].Free?
    ensures PlaceAll(Blank<nat>(n), list[..k + 1]) == PlaceAll(Blank<nat>(n), list[..k])
  {
    PlaceMore(Blank<nat>(n), list, k);
  }

  lemma FirstMoved()
    ensures PlaceAll(Blank<nat>(17), FULL[..2]) == Blank<nat>(17)[13 := ABC]
  {
    Homes();
    PlaceNext(Blank<nat>(17), 17, FULL, 0, 13);
    PlaceNothing(17, FULL, 1);
  }

  lemma NextMoved()
    ensures PlaceAll(Blank<nat>(17), FULL[..4]) == Blank<nat>(17)[13 := ABC][9 := D][10 := E]
  {
    hide PlaceAll, COLLIDING;
    Homes();
    FirstMoved();
    var t1 := Blank<nat>(17)[13 := ABC];
    PlaceNext(t1, 17, FULL, 2, 9);
    PlaceNext(t1[9 := D], 17, FULL, 3, 10);
  }

  /** In the larger table, "abc" comes before "ab". */
  lemma Moved()
    ensures var t := PlaceAll(Blank<nat>(17), FULL); t[13] == ABC && t[14] == AB
  {
    hide PlaceAll, COLLIDING;
    Homes();
    NextMoved();
    var t3 := Blank<nat>(17)[13 := ABC][9 := D][10 := E];
    PlaceNext(t3, 17, FULL, 4, 11);
    var t4 := t3[11 := F];
    PlaceNothing(17, FULL, 5);
    PlaceNext(t4, 17, FULL, 6, 14);
    assert FULL[..7] == FULL;
  }

  /** The fifth element makes the table grow. */
  lemma Rehashed(u: seq<Bucket<nat>>)
    requires multiset(T4)[Free] > 0 && Inserted(T4, 5, F, u)
    ensures |u| == 17 && u[13] == ABC && u[14] == AB
  {
    Steps();
    SlotIsFree(T4, F, 4);
    FirstTwo(7);
    Moved();
  }

  lemma FirstIsLonger(texts: seq<string>, t: seq<Bucket<nat>>, p: nat)
    requires |t| == 17 && t[13] == ABC && |texts| > 1 && texts[1] == "abc"
    requires IsFirst(t, AB.code, "ab", PrefixCompare(texts), p)
    ensures p == 1
  {
    Homes();
    SameUpToIsPrefix("abc", "ab");
    assert StopsAt(t, AB.code, "ab", PrefixCompare(texts), 13);
    var i: nat :| StopsAt(t, AB.code, "ab", PrefixCompare(texts), i) && t[i] == Used(AB.code, p);
    StopsAtOne(t, AB.code, "ab", PrefixCompare(texts), 13, i);
  }

  lemma NotPrefix(s: string, t: string)
    requires s != [] && t != [] && s[0] != t[0]
    ensures !(s <= t)
  {
  }

  /** No text begins with `s`. */
  predicate NewTo(s: string, texts: seq<string>) {
    forall k :: 0 <= k < |texts| ==> !(s <= texts[k])
  }

  lemma NewTexts()
    ensures NewTo("ab", []) && NewTo("abc", ["ab"]) && NewTo("d", ["ab", "abc"])
    ensures NewTo("e", ["ab", "abc", "d"]) && NewTo("f", ["ab", "abc", "d", "e"])
  {
    NotPrefix("d", "ab");
    NotPrefix("d", "abc");
    NotPrefix("e", "ab");
    NotPrefix("e", "abc");
    NotPrefix("e", "d");
    NotPrefix("f", "ab");
    NotPrefix("f", "abc");
    NotPrefix("f", "d");
    NotPrefix("f", "e");
  }

  /** A string that no stored one begins with is stored. */
  lemma NewText(before: seq<string>, after: seq<string>, s: string, p: nat)
    requires Interned(COLLIDING, before, after, s, p) && NewTo(s, before)
    ensures after == before + [s] && p == |before|
  {
  }

  /** One more string, whose bucket is `i`. */
  method MakeNew(pool: StrPool, s: string, ghost t: seq<Bucket<nat>>, ghost i: nat) returns (p: nat)
    requires pool.Valid() && pool.hash == COLLIDING && NulFree(s)
    requires pool.table.buckets[..] == t && |t| == 7 && pool.table.size == |pool.texts| <= 3
    requires Slot(t, At(s, |pool.texts|), i) && NewTo(s, pool.texts)
    modifies pool, pool.table, pool.table.buckets
    ensures pool.Valid() && (pool.table.buckets == old(pool.table.buckets) || fresh(pool.table.buckets))
    ensures pool.texts == old(pool.texts) + [s] && p == |old(pool.texts)| && pool.table.size == |pool.texts|
    ensures pool.table.buckets[..] == t[i := At(s, p)]
  {
    hide StrPool.Valid, Place, PlaceAll, Blank, IsFirst, Inserted, COLLIDING, Slot, Interned;
    p := pool.MakeString(s);
    NewText(old(pool.texts), pool.texts, s, p);
    Stored(t, |pool.texts|, At(s, p), pool.table.buckets[..], i);
  }

  /** A pool with four strings, of which the first one is "ab". */
  method FourStrings() returns (pool: StrPool, p: nat)
    ensures pool.Valid() && pool.hash == COLLIDING && fresh(pool) && fresh(pool.table) && fresh(pool.table.buckets)
    ensures p == 0 && pool.texts == ["ab", "abc", "d", "e"] && pool.table.size == 4 && pool.table.buckets[..] == T4
  {
    hide StrPool.Valid, Blank, COLLIDING, Slot, NewTo;
    Steps();
    NewTexts();
    pool := new StrPool(COLLIDING);
    p := MakeNew(pool, "ab", Blank<nat>(7), 6);
    assert pool.texts == ["ab"];
    var q := MakeNew(pool, "abc", T1, 0);
    assert pool.texts == ["ab", "abc"];
    q := MakeNew(pool, "d", T2, 2);
    assert pool.texts == ["ab", "abc", "d"];
    q := MakeNew(pool, "e", T3, 3);
  }

  /** The fifth string makes the table grow, and then the pool answers "ab" with the pointer of "abc". */
  method AnswerChanges() returns (pool: StrPool, first: nat, again: nat)
    ensures pool.Valid() && first == 0 && again == 1
    ensures pool.texts == ["ab", "abc", "d", "e", "f"]
  {
    hide StrPool.Valid, Place, PlaceAll, Blank, IsFirst, Inserted, COLLIDING, Interned, NewTo;
    pool, first := FourStrings();
    NewTexts();
    var p := pool.MakeString("f");
    NewText(["ab", "abc", "d", "e"], pool.texts, "f", p);
    Rehashed(pool.table.buckets[..]);
    ghost var texts := pool.texts;
    again := pool.MakeString("ab");
    StoredAlready(texts, pool.texts, 0, again);
    FirstIsLonger(pool.texts, pool.table.buckets[..], again);
  }

  lemma StoredAlready(before: seq<string>, after: seq<string>, k: nat, p: nat)
    requires k < |before| && Interned(COLLIDING, before, after, before[k], p)
    ensures after == before
  {
    assert before[k] in before;
  }
}
