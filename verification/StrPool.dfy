/** String interning on top of the linear-probing table. */
module StrPools {
  import opened LinearProbing
  import opened Primes
  import opened ProbeLayout
  import opened HashTables
  import opened Ring

  /** `!strncmp(stored, s, |s|)`: the stored text is read up to its terminating NUL. */
  predicate SameUpTo(stored: string, s: string)
    decreases |s|
  {
    || s == []
    || (var c := if stored == [] then '\0' else stored[0];
        c == s[0] && (c == '\0' || SameUpTo(stored[1..], s[1..])))
  }

  predicate NulFree(s: string) {
    '\0' !in s
  }

  /** The comparison accepts every string that starts with the one asked for. */
  lemma {:induction false} SameUpToIsPrefix(stored: string, s: string)
    requires NulFree(s)
    ensures SameUpTo(stored, s) <==> s <= stored
    decreases |s|
  {
    if s != [] && stored != [] {
      assert s[0] in s;
      SameUpToIsPrefix(stored[1..], s[1..]);
      assert s <= stored <==> s[0] == stored[0] && s[1..] <= stored[1..];
    } else if s != [] {
      assert s[0] in s;
    }
  }

  /** A longer stored string with the same stored hash, which the comparison takes for `s`. */
  predicate Shadows(hash: string -> nat, longer: string, s: string) {
    s < longer && Mark(hash(longer)) == Mark(hash(s))
  }

  ghost predicate Hidden(hash: string -> nat, texts: seq<string>, s: string) {
    exists q :: 0 <= q < |texts| && Shadows(hash, texts[q], s)
  }

  /** No string of `texts` shares its stored hash with a proper extension of itself. */
  ghost predicate Clear(hash: string -> nat, texts: set<string>) {
    forall s, t :: s in texts && t in texts ==> !Shadows(hash, t, s)
  }

  ghost predicate AllDifferent(texts: seq<string>) {
    forall p, q :: 0 <= p < q < |texts| ==> texts[p] != texts[q]
  }

  /** The table holds the pointer of every text with the stored hash of the text, and nothing else. */
  ghost predicate Coherent(hash: string -> nat, texts: seq<string>, items: multiset<Bucket<nat>>) {
    && (forall b :: b in items ==> b.Used? && b.elem < |texts| && b.code == Mark(hash(texts[b.elem])))
    && (forall p :: 0 <= p < |texts| ==> Used(Mark(hash(texts[p])), p) in items)
  }

  class StrPool {
    const hash: string -> nat          // hashRawBytes(hashInit(), ...)
    const table: HashTable<nat>
    var texts: seq<string>             // memory: the text at each pointer handed out so far

    ghost predicate Valid()
      reads this, table, table.buckets
    {
      && table.Valid()
      && Coherent(hash, texts, Items(table.buckets[..]))
      && (forall p :: 0 <= p < |texts| ==> NulFree(texts[p]))
    }

    constructor (hash: string -> nat)
      ensures Valid() && texts == [] && this.hash == hash && fresh(table) && fresh(table.buckets)
      ensures table.buckets[..] == Blank<nat>(7) && table.size == 0
    {
      this.hash := hash;
      texts := [];
      FirstTwo(4);
      table := new HashTable(4);
    }

    /** `makeStringSized` */
    method MakeString(s: string) returns (p: nat)
      requires Valid() && NulFree(s)
      modifies this, table, table.buckets
      ensures Valid() && (table.buckets == old(table.buckets) || fresh(table.buckets))
      ensures Interned(hash, old(texts), texts, s, p)
      ensures texts == old(texts) ==> table.buckets[..] == old(table.buckets[..]) && table.size == old(table.size)
                                      && IsFirst(table.buckets[..], Mark(hash(s)), s, PrefixCompare(texts), p)
      ensures texts != old(texts) ==> multiset(old(table.buckets[..]))[Free] > 0 && table.size == old(table.size) + 1
                                      && Inserted(old(table.buckets[..]), table.size, Used(Mark(hash(s)), p),
                                                  table.buckets[..])
    {
      ghost var items := Items(table.buckets[..]);
      ghost var before := texts;
      var compare := PrefixCompare(texts);
      FoundMeansPrefix(hash, texts, items, s);
      var found := table.Find(s, hash(s), compare);
      if found.Some? {
        return found.value;
      }
      p := |texts|;
      texts := texts + [s];
      NewTextCoherent(hash, before, items, s);
      var added := table.Insert(p, s, hash(s), PrefixCompare(texts));
      assert added;
    }
  }

  /** `compareStrFind` and `compareStrInsert`: the text behind a stored pointer against a string. */
  function PrefixCompare(texts: seq<string>): (nat, string) -> bool {
    (left: nat, right: string) => left < |texts| && SameUpTo(texts[left], right)
  }

  /**
   What interning `s` does: pointers handed out earlier keep their text, and for a string
   not stored yet the pointer is right exactly when no stored string shadows it.
   */
  ghost predicate Interned(hash: string -> nat, before: seq<string>, after: seq<string>, s: string, p: nat) {
    && p < |after| && s <= after[p] && Mark(hash(after[p])) == Mark(hash(s))
    && (after == before || (after == before + [s] && p == |before| && s !in before))
    && (s !in before ==> (after[p] == s <==> !Hidden(hash, before, s)))
  }

  lemma NewTextCoherent(hash: string -> nat, texts: seq<string>, items: multiset<Bucket<nat>>, s: string)
    requires Coherent(hash, texts, items)
    ensures Coherent(hash, texts + [s], items + multiset{Used(Mark(hash(s)), |texts|)})
    ensures forall b :: b in items ==> PrefixCompare(texts + [s])(b.elem, s) == PrefixCompare(texts)(b.elem, s)
  {
  }

  /** A stored string matches exactly if it is the string itself or shadows it. */
  lemma FoundMeansPrefix(hash: string -> nat, texts: seq<string>, items: multiset<Bucket<nat>>, s: string)
    requires Coherent(hash, texts, items) && NulFree(s)
    ensures Matched(items, Mark(hash(s)), s, PrefixCompare(texts)) <==> s in texts || Hidden(hash, texts, s)
    ensures forall p: nat :: PrefixCompare(texts)(p, s) ==> p < |texts| && s <= texts[p]
  {
    forall p | 0 <= p < |texts| ensures SameUpTo(texts[p], s) <==> s <= texts[p] {
      SameUpToIsPrefix(texts[p], s);
    }
    if s in texts || Hidden(hash, texts, s) {
      var p :| 0 <= p < |texts| && s <= texts[p] && Mark(hash(texts[p])) == Mark(hash(s));
      assert Used(Mark(hash(texts[p])), p) in items;
    }
    if Matched(items, Mark(hash(s)), s, PrefixCompare(texts)) {
      var b :| b in items && b.Used? && b.code == Mark(hash(s)) && PrefixCompare(texts)(b.elem, s);
      assert texts[b.elem] == s || Shadows(hash, texts[b.elem], s);
    }
  }

  // Which pointer is the answer

  /** Bucket `j` holds a longer string that a probe for the string at `q` meets before any bucket of `q`. */
  ghost predicate Overtakes(hash: string -> nat, texts: seq<string>, t: seq<Bucket<nat>>, q: nat, j: nat)
    requires q < |texts| && j < |t|
  {
    var code := Mark(hash(texts[q]));
    var h := Home(code, |t|);
    t[j].Used? && t[j].elem < |texts| && Shadows(hash, texts[t[j].elem], texts[q])
    && forall i :: 0 <= i < |t| && t[i] == Used(code, q) ==> Dist(|t|, h, j) < Dist(|t|, h, i)
  }

  ghost predicate Overtaken(hash: string -> nat, texts: seq<string>, t: seq<Bucket<nat>>, q: nat)
    requires q < |texts|
  {
    exists j: nat :: j < |t| && Overtakes(hash, texts, t, q, j)
  }

  /** For a stored string the answer is its own pointer exactly if no longer string is met before it. */
  lemma OwnUnlessOvertaken(hash: string -> nat, texts: seq<string>, t: seq<Bucket<nat>>, q: nat, p: nat)
    requires Coherent(hash, texts, Items(t)) && AllDifferent(texts) && q < |texts| && NulFree(texts[q])
    requires IsFirst(t, Mark(hash(texts[q])), texts[q], PrefixCompare(texts), p)
    ensures p == q <==> !Overtaken(hash, texts, t, q)
  {
    var s, code := texts[q], Mark(hash(texts[q]));
    var h := Home(code, |t|);
    var stop: nat :| StopsAt(t, code, s, PrefixCompare(texts), stop) && t[stop] == Used(code, p);
    assert t[stop] in multiset(t) && t[stop] in Items(t);
    SameUpToIsPrefix(s, s);
    SameUpToIsPrefix(texts[p], s);
    if p == q {
      forall j: nat | j < |t| && Overtakes(hash, texts, t, q, j)
        ensures false
      {
        SameUpToIsPrefix(texts[t[j].elem], s);
      }
    } else {
      assert Shadows(hash, texts[p], s);
      assert Overtakes(hash, texts, t, q, stop);
    }
  }

  // Runs

  /** What a run of calls from an empty pool may return, and the texts at its end. */
  ghost predicate Interning(hash: string -> nat, strings: seq<string>, ps: seq<nat>, texts: seq<string>)
    decreases |strings|
  {
    |ps| == |strings|
    && if strings == [] then texts == []
       else
         var last := |strings| - 1;
         exists before :: Interning(hash, strings[..last], ps[..last], before)
                          && Interned(hash, before, texts, strings[last], ps[last])
  }

  /** Two calls return the same pointer exactly if the strings are equal, and a pointer leads to its string. */
  ghost predicate Exact(strings: seq<string>, ps: seq<nat>, texts: seq<string>)
    requires |ps| == |strings|
  {
    (forall i :: 0 <= i < |ps| ==> ps[i] < |texts| && texts[ps[i]] == strings[i])
    && forall i, j :: 0 <= i < |ps| && 0 <= j < |ps| ==> (ps[i] == ps[j] <==> strings[i] == strings[j])
  }

  ghost predicate AllIn(strings: seq<string>, all: set<string>) {
    forall i :: 0 <= i < |strings| ==> strings[i] in all
  }

  /** Among strings that do not shadow each other, interning is exact and keeps texts different. */
  lemma InternedIsExact(hash: string -> nat, all: set<string>, before: seq<string>, after: seq<string>, s: string,
                        p: nat)
    requires Clear(hash, all) && s in all && AllIn(before, all)
    requires AllDifferent(before) && Interned(hash, before, after, s, p)
    ensures before <= after && after[p] == s && AllDifferent(after) && AllIn(after, all)
  {
    assert after[p] in all;
    assert !Shadows(hash, after[p], s);
  }

  lemma {:induction false} ClearIsExact(hash: string -> nat, all: set<string>, strings: seq<string>, ps: seq<nat>,
                                        texts: seq<string>)
    requires Clear(hash, all) && AllIn(strings, all) && Interning(hash, strings, ps, texts)
    ensures AllIn(texts, all) && AllDifferent(texts) && Exact(strings, ps, texts)
    decreases |strings|
  {
    if strings != [] {
      var last := |strings| - 1;
      var before :| Interning(hash, strings[..last], ps[..last], before)
                    && Interned(hash, before, texts, strings[last], ps[last]);
      ClearIsExact(hash, all, strings[..last], ps[..last], before);
      InternedIsExact(hash, all, before, texts, strings[last], ps[last]);
      assert ps[last] < |texts|;
      hide Interning, Interned, Clear, AllIn, Exact;
      OneMoreIsExact(strings, ps, before, texts);
    }
  }

  lemma OneMoreIsExact(strings: seq<string>, ps: seq<nat>, before: seq<string>, texts: seq<string>)
    requires |ps| == |strings| > 0 && before <= texts && AllDifferent(texts)
    requires Exact(strings[..|strings| - 1], ps[..|ps| - 1], before)
    requires ps[|ps| - 1] < |texts| && texts[ps[|ps| - 1]] == strings[|strings| - 1]
    ensures Exact(strings, ps, texts)
  {
    var last := |ps| - 1;
    forall i | 0 <= i < |ps|
      ensures ps[i] < |texts| && texts[ps[i]] == strings[i]
    {
      if i < last {
        assert ps[..last][i] == ps[i] && strings[..last][i] == strings[i];
      }
    }
    forall i, j | 0 <= i < |ps| && 0 <= j < |ps|
      ensures ps[i] == ps[j] <==> strings[i] == strings[j]
    {
      assert ps[i] != ps[j] ==> texts[ps[i]] != texts[ps[j]];
    }
  }

  /** The longer string first, and the pool answers with it for both. */
  lemma LongerFirst(hash: string -> nat, longer: string, s: string, ps: seq<nat>, texts: seq<string>)
    requires Shadows(hash, longer, s)
    ensures Interning(hash, [longer, s], ps, texts) <==> ps == [0, 0] && texts == [longer]
  {
    var strings := [longer, s];
    assert strings[..1] == [longer] && strings[..1][..0] == [];
    assert Shadows(hash, [longer][0], s);
    assert Hidden(hash, [longer], s);
    assert Interned(hash, [], [longer], longer, 0) && Interned(hash, [longer], [longer], s, 0);
    assert Interning(hash, strings[..1][..0], [0][..0], []);
    assert Interning(hash, strings[..1], [0], [longer]);
    assert [0, 0][..1] == [0];
    if Interning(hash, strings, ps, texts) {
      var before :| Interning(hash, strings[..1], ps[..1], before) && Interned(hash, before, texts, s, ps[1]);
      var first :| Interning(hash, strings[..1][..0], ps[..1][..0], first)
                   && Interned(hash, first, before, longer, ps[..1][0]);
      assert first == [] && before == [longer];
      assert ps == [ps[0], ps[1]];
    }
  }

  /**
   For any set of strings: in every run over them, in any order, two calls return the same pointer exactly if the
   strings are equal, if and only if none of them shadows another.
   */
  lemma ExactlyIfClear(hash: string -> nat, all: set<string>)
    ensures Clear(hash, all) <==>
            forall strings, ps, texts :: AllIn(strings, all) && Interning(hash, strings, ps, texts)
                                         ==> Exact(strings, ps, texts)
  {
    if Clear(hash, all) {
      forall strings, ps, texts | AllIn(strings, all) && Interning(hash, strings, ps, texts)
        ensures Exact(strings, ps, texts)
      {
        ClearIsExact(hash, all, strings, ps, texts);
      }
    } else {
      var s, longer :| s in all && longer in all && Shadows(hash, longer, s);
      LongerFirst(hash, longer, s, [0, 0], [longer]);
      assert AllIn([longer, s], all) && !Exact([longer, s], [0, 0], [longer]);
    }
  }

  /** Any run of the pool; it is exact if no string of it shadows another. */
  method InternAll(hash: string -> nat, strings: seq<string>) returns (pool: StrPool, ps: seq<nat>)
    requires forall i :: 0 <= i < |strings| ==> NulFree(strings[i])
    ensures pool.Valid() && Interning(hash, strings, ps, pool.texts)
    ensures Clear(hash, set i | 0 <= i < |strings| :: strings[i]) ==> Exact(strings, ps, pool.texts)
  {
    hide Interned, Inserted, IsFirst, Coherent, HashTable.Valid, Clear, Exact;
    pool := new StrPool(hash);
    ps := [];
    while |ps| < |strings|
      invariant pool.Valid() && pool.hash == hash && |ps| <= |strings|
      invariant fresh(pool) && fresh(pool.table) && fresh(pool.table.buckets)
      invariant Interning(hash, strings[..|ps|], ps, pool.texts)
    {
      ghost var n, before := |ps|, pool.texts;
      var p := pool.MakeString(strings[|ps|]);
      assert strings[..n + 1][..n] == strings[..n] && (ps + [p])[..n] == ps;
      ps := ps + [p];
    }
    assert strings[..|ps|] == strings;
    ghost var all := set i | 0 <= i < |strings| :: strings[i];
    if Clear(hash, all) {
      ClearIsExact(hash, all, strings, ps, pool.texts);
    }
  }

  /** A pointer that was returned stays the answer in every later call if no string shadows another. */
  lemma AnswerStays(hash: string -> nat, all: set<string>, strings: seq<string>, ps: seq<nat>, texts: seq<string>,
                    i: nat, after: seq<string>, p: nat)
    requires Clear(hash, all) && AllIn(strings, all) && Interning(hash, strings, ps, texts) && i < |strings|
    requires Interned(hash, texts, after, strings[i], p)
    ensures p == ps[i] && after == texts
  {
    ClearIsExact(hash, all, strings, ps, texts);
    InternedIsExact(hash, all, texts, after, strings[i], p);
  }
}
