/** What a run of pool calls does to the ranges of memory in use and in the caches, and when two in use overlap. */
module PoolModel {
  import opened MemBlocks
  import opened Sums

  /** `memCOUNT` */
  const CACHES: nat := 3

  /** Bytes of the block at a position in the list. */
  datatype Range = Range(block: nat, start: nat, length: nat)

  /** The blocks, the current one, what callers use since the last reset, and what waits in the caches. */
  datatype Pool = Pool(capacities: seq<nat>, sizes: seq<nat>, at: nat, live: seq<Range>, queues: seq<seq<Range>>)

  datatype Call =
    | New(size: nat)
    | Cached(cache: nat, size: nat)
    | Return(cache: nat, index: nat)

  const EMPTY: Pool := Pool([], [], 0, [], [[], [], []])

  predicate Callable(p: Pool) {
    |p.sizes| == |p.capacities| && |p.queues| == CACHES
  }

  /** `allocFromMemPool` */
  function Alloc(p: Pool, size: nat): (r: Pool)
    requires Callable(p)
    ensures Callable(r)
  {
    if size == 0 then p
    else
      var length := AlignTo(size);
      var at := Fit(p.capacities, p.sizes, p.at, length);
      var sizes := Grown(p.sizes, at, 0);
      Pool(Grown(p.capacities, at, Capacity(length)), sizes[at := sizes[at] + length], at,
           p.live + [Range(at, sizes[at], length)], p.queues)
  }

  function Apply(p: Pool, call: Call): (r: Pool)
    requires Callable(p)
    ensures Callable(r)
  {
    match call
    case New(size) => Alloc(p, size)
    case Cached(cache, size) =>
      if cache >= CACHES then p
      else if p.queues[cache] == [] then Alloc(p, size)
      else
        var queue := p.queues[cache];
        p.(live := p.live + [queue[0]], queues := p.queues[cache := queue[1..]])
    case Return(cache, i) =>
      if cache >= CACHES || i >= |p.live| then p
      else p.(live := p.live[..i] + p.live[i + 1..], queues := p.queues[cache := p.queues[cache] + [p.live[i]]])
  }

  function Run(p: Pool, calls: seq<Call>): (r: Pool)
    requires Callable(p)
    ensures Callable(r)
    decreases |calls|
  {
    if calls == [] then p else Run(Apply(p, calls[0]), calls[1..])
  }

  /** `resetMemPool`: the blocks are empty, and the caches keep what waits in them. */
  function Reset(p: Pool): Pool {
    p.(sizes := Zeros(|p.sizes|), at := 0, live := [])
  }

  // Ranges

  predicate Apart(r: Range, s: Range) {
    r.block != s.block || r.start + r.length <= s.start || s.start + s.length <= r.start
  }

  predicate Placed(r: Range, limits: seq<nat>) {
    r.block < |limits| && r.start % ALIGNMENT == 0 && r.length % ALIGNMENT == 0 && 0 < r.length
    && r.start + r.length <= limits[r.block]
  }

  ghost predicate AllPlaced(m: multiset<Range>, limits: seq<nat>) {
    forall r :: r in m ==> Placed(r, limits)
  }

  /** No byte is in two of the ranges. */
  ghost predicate AllApart(m: multiset<Range>) {
    forall r, s :: r in m && s in m ==> if r == s then m[r] == 1 else Apart(r, s)
  }

  /** All the memory that was handed out and not lost in a reset. */
  function All(p: Pool): multiset<Range>
    requires Callable(p)
  {
    multiset(p.live) + Waiting(p.queues)
  }

  function Waiting(queues: seq<seq<Range>>): multiset<Range>
    requires |queues| == CACHES
  {
    multiset(queues[0]) + multiset(queues[1]) + multiset(queues[2])
  }

  // What every call keeps

  /** Also across resets: blocks behind the current one are empty, and all memory is aligned inside one block. */
  ghost predicate Valid(p: Pool) {
    Callable(p) && Bounded(p.sizes, p.capacities, p.at) && AllPlaced(All(p), p.capacities)
  }

  /** All memory is in the used part of its block, and no byte of it is in two ranges. */
  ghost predicate Disjoint(p: Pool)
    requires Callable(p)
  {
    AllPlaced(All(p), p.sizes) && AllApart(All(p))
  }

  lemma {:induction false} FitBounded(capacities: seq<nat>, sizes: seq<nat>, at: nat, size: nat)
    requires |sizes| == |capacities| && Bounded(sizes, capacities, at)
    ensures var r := Fit(capacities, sizes, at, size);
            Bounded(sizes, capacities, r) && (r < |sizes| ==> sizes[r] + size <= capacities[r])
    decreases |sizes| - at
  {
    if at < |sizes| {
      assert BoundedAt(sizes, capacities, at, at);
      if capacities[at] - sizes[at] < size {
        BoundedNext(sizes, capacities, at);
        FitBounded(capacities, sizes, at + 1, size);
      }
    } else {
      forall i | 0 <= i < |sizes|
        ensures BoundedAt(sizes, capacities, |sizes|, i)
      {
        assert BoundedAt(sizes, capacities, at, i);
      }
    }
  }

  /** The block that a new range is in, with room for it. */
  lemma RoomIsBounded(p: Pool, length: nat)
    requires Valid(p) && length % ALIGNMENT == 0
    ensures var at := Fit(p.capacities, p.sizes, p.at, length);
            var sizes, capacities := Grown(p.sizes, at, 0), Grown(p.capacities, at, Capacity(length));
            |sizes| == |capacities| && Bounded(sizes, capacities, at) && sizes[at] + length <= capacities[at]
  {
    FitBounded(p.capacities, p.sizes, p.at, length);
    var at := Fit(p.capacities, p.sizes, p.at, length);
    if at == |p.sizes| {
      forall i | 0 <= i < at + 1
        ensures BoundedAt(p.sizes + [0], p.capacities + [Capacity(length)], at, i)
      {
        if i < at {
          assert BoundedAt(p.sizes, p.capacities, at, i);
        }
      }
    }
  }

  lemma UsedIsBounded(sizes: seq<nat>, capacities: seq<nat>, at: nat, length: nat)
    requires |sizes| == |capacities| && Bounded(sizes, capacities, at) && at < |sizes|
    requires length % ALIGNMENT == 0 && sizes[at] + length <= capacities[at]
    ensures Bounded(sizes[at := sizes[at] + length], capacities, at)
  {
    var after := sizes[at := sizes[at] + length];
    forall i | 0 <= i < |after|
      ensures BoundedAt(after, capacities, at, i)
    {
      assert BoundedAt(sizes, capacities, at, i);
    }
  }

  lemma PlacedLater(m: multiset<Range>, limits: seq<nat>, later: seq<nat>)
    requires AllPlaced(m, limits) && |limits| <= |later|
    requires forall i :: 0 <= i < |limits| ==> limits[i] <= later[i]
    ensures AllPlaced(m, later)
  {
  }

  /** New memory is behind all other ranges of its block. */
  lemma NewIsApart(m: multiset<Range>, limits: seq<nat>, r: Range)
    requires AllPlaced(m, limits) && AllApart(m) && 0 < r.length
    requires r.block < |limits| ==> r.start == limits[r.block]
    ensures AllApart(m + multiset{r})
  {
    var all := m + multiset{r};
    assert r !in m;
    forall s, t | s in all && t in all
      ensures if s == t then all[s] == 1 else Apart(s, t)
    {
      if s != r && t != r {
        assert s in m && t in m;
      }
    }
  }

  lemma AllocKeepsValid(p: Pool, size: nat)
    requires Valid(p)
    ensures Valid(Alloc(p, size))
  {
    hide Waiting;
    if size > 0 {
      var length := AlignTo(size);
      var at := Fit(p.capacities, p.sizes, p.at, length);
      var sizes, capacities := Grown(p.sizes, at, 0), Grown(p.capacities, at, Capacity(length));
      RoomIsBounded(p, length);
      UsedIsBounded(sizes, capacities, at, length);
      AllocAdds(p, size);
      assert BoundedAt(sizes, capacities, at, at);
      PlacedLater(All(p), p.capacities, capacities);
    }
  }

  lemma AllocKeepsDisjoint(p: Pool, size: nat)
    requires Valid(p) && Disjoint(p)
    ensures Disjoint(Alloc(p, size))
  {
    hide Waiting, Bounded;
    if size > 0 {
      var after := Alloc(p, size);
      AllocAdds(p, size);
      AllocKeepsValid(p, size);
      PlacedLater(All(p), p.sizes, after.sizes);
      NewIsApart(All(p), p.sizes, after.live[|p.live|]);
    }
  }

  lemma AllocAdds(p: Pool, size: nat)
    requires Callable(p) && size > 0
    ensures var after := Alloc(p, size);
            && |after.live| == |p.live| + 1 && after.live[..|p.live|] == p.live
            && All(after) == All(p) + multiset{after.live[|p.live|]}
  {
    var after := Alloc(p, size);
    assert after.live == p.live + [after.live[|p.live|]];
  }

  lemma TakeFirst(queues: seq<seq<Range>>, k: nat)
    requires |queues| == CACHES && k < CACHES && queues[k] != []
    ensures Waiting(queues) == Waiting(queues[k := queues[k][1..]]) + multiset{queues[k][0]}
  {
    assert queues[k] == [queues[k][0]] + queues[k][1..];
  }

  lemma PutLast(queues: seq<seq<Range>>, k: nat, r: Range)
    requires |queues| == CACHES && k < CACHES
    ensures Waiting(queues[k := queues[k] + [r]]) == Waiting(queues) + multiset{r}
  {
  }

  lemma Without(s: seq<Range>, i: nat)
    requires i < |s|
    ensures multiset(s) == multiset(s[..i] + s[i + 1..]) + multiset{s[i]}
  {
    assert s == s[..i] + [s[i]] + s[i + 1..];
  }

  /** A queue hands out its first range, or takes one in at its end: nothing is lost and nothing is new. */
  lemma MovesKeep(p: Pool, call: Call)
    requires Callable(p)
    requires call.Return? || (call.Cached? && (call.cache >= CACHES || p.queues[call.cache] != []))
    ensures All(Apply(p, call)) == All(p)
  {
    hide Waiting;
    match call
    case Cached(cache, _) =>
      if cache < CACHES {
        TakeFirst(p.queues, cache);
      }
    case Return(cache, i) =>
      if cache < CACHES && i < |p.live| {
        PutLast(p.queues, cache, p.live[i]);
        Without(p.live, i);
      }
  }

  lemma AllocKeeps(p: Pool, size: nat)
    requires Valid(p)
    ensures Valid(Alloc(p, size)) && (Disjoint(p) ==> Disjoint(Alloc(p, size)))
  {
    AllocKeepsValid(p, size);
    if Disjoint(p) {
      AllocKeepsDisjoint(p, size);
    }
  }

  lemma ApplyKeeps(p: Pool, call: Call)
    requires Valid(p)
    ensures Valid(Apply(p, call)) && (Disjoint(p) ==> Disjoint(Apply(p, call)))
  {
    match call
    case New(size) => AllocKeeps(p, size);
    case Cached(cache, size) =>
      if cache < CACHES && p.queues[cache] == [] {
        AllocKeeps(p, size);
      } else {
        MovesKeep(p, call);
      }
    case Return(_, _) => MovesKeep(p, call);
  }

  lemma {:induction false} RunKeeps(p: Pool, calls: seq<Call>)
    requires Valid(p)
    ensures Valid(Run(p, calls)) && (Disjoint(p) ==> Disjoint(Run(p, calls)))
    decreases |calls|
  {
    if calls != [] {
      ApplyKeeps(p, calls[0]);
      RunKeeps(Apply(p, calls[0]), calls[1..]);
    }
  }

  // What blocks have used

  predicate HasByte(r: Range, block: nat, x: nat) {
    r.block == block && r.start <= x < r.start + r.length
  }

  ghost predicate ByteIsIn(m: multiset<Range>, block: nat, x: nat) {
    exists r :: r in m && HasByte(r, block, x)
  }

  /** Every byte that a block has used was handed out. */
  ghost predicate Covered(p: Pool)
    requires Callable(p)
  {
    forall block: nat, x: nat :: block < |p.sizes| && x < p.sizes[block] ==> ByteIsIn(All(p), block, x)
  }

  lemma AllocKeepsCovered(p: Pool, size: nat)
    requires Valid(p) && Covered(p)
    ensures Covered(Alloc(p, size))
  {
    hide Waiting;
    if size > 0 {
      var after := Alloc(p, size);
      AllocAdds(p, size);
      var more := after.live[|p.live|];
      forall block: nat, x: nat | block < |after.sizes| && x < after.sizes[block]
        ensures ByteIsIn(All(after), block, x)
      {
        if HasByte(more, block, x) {
          assert more in All(after);
        } else {
          assert block < |p.sizes| && x < p.sizes[block];
          assert ByteIsIn(All(p), block, x);
          var r :| r in All(p) && HasByte(r, block, x);
          assert r in All(after);
        }
      }
    }
  }

  lemma ApplyKeepsCovered(p: Pool, call: Call)
    requires Valid(p) && Covered(p)
    ensures Covered(Apply(p, call))
  {
    hide All;
    match call
    case New(size) => AllocKeepsCovered(p, size);
    case Cached(cache, size) =>
      if cache < CACHES && p.queues[cache] == [] {
        AllocKeepsCovered(p, size);
      } else {
        MovesKeep(p, call);
      }
    case Return(_, _) => MovesKeep(p, call);
  }

  lemma {:induction false} RunKeepsCovered(p: Pool, calls: seq<Call>)
    requires Valid(p) && Covered(p)
    ensures Covered(Run(p, calls))
    decreases |calls|
  {
    if calls != [] {
      ApplyKeeps(p, calls[0]);
      ApplyKeepsCovered(p, calls[0]);
      RunKeepsCovered(Apply(p, calls[0]), calls[1..]);
    }
  }

  /**
   Over every run without a reset, the bytes that the blocks have used are exactly those of the ranges in use and in
   the caches, and each of them is in one range only.
   */
  lemma UsedIsHandedOut(calls: seq<Call>)
    ensures var p := Run(EMPTY, calls);
            && AllApart(All(p))
            && forall block: nat, x: nat ::
                 (block < |p.sizes| && x < p.sizes[block]) <==> ByteIsIn(All(p), block, x)
  {
    RunKeeps(EMPTY, calls);
    RunKeepsCovered(EMPTY, calls);
    var p := Run(EMPTY, calls);
    hide Run, All;
    forall block: nat, x: nat | ByteIsIn(All(p), block, x)
      ensures block < |p.sizes| && x < p.sizes[block]
    {
      var r :| r in All(p) && HasByte(r, block, x);
      assert Placed(r, p.sizes);
    }
  }

  lemma DisjointIsApart(p: Pool)
    requires Callable(p) && Disjoint(p)
    ensures AllApart(multiset(p.live))
  {
    var live := multiset(p.live);
    forall r, s | r in live && s in live
      ensures if r == s then live[r] == 1 else Apart(r, s)
    {
      assert r in All(p) && s in All(p) && All(p)[r] >= live[r];
    }
  }

  /** Over every run without a reset, what callers use is in no two ranges. */
  lemma LiveStaysApart(calls: seq<Call>)
    ensures AllApart(multiset(Run(EMPTY, calls).live))
  {
    RunKeeps(EMPTY, calls);
    DisjointIsApart(Run(EMPTY, calls));
  }

  // Resets

  predicate CachesEmpty(p: Pool)
    requires Callable(p)
  {
    p.queues[0] == [] && p.queues[1] == [] && p.queues[2] == []
  }

  lemma ResetKeeps(p: Pool)
    requires Valid(p)
    ensures Valid(Reset(p)) && (CachesEmpty(p) ==> Disjoint(Reset(p)))
  {
    BoundedReset(p.sizes, p.capacities, p.at);
    var after := Reset(p);
    assert forall r :: r in All(after) ==> r in All(p);
  }

  /** Calls that take the whole of the first `n` blocks. */
  function WholeBlocks(capacities: seq<nat>, n: nat): seq<Call>
    requires n <= |capacities|
  {
    if n == 0 then [] else WholeBlocks(capacities, n - 1) + [New(capacities[n - 1])]
  }

  lemma {:induction false} RunMore(p: Pool, calls: seq<Call>, call: Call)
    requires Callable(p)
    ensures Run(p, calls + [call]) == Apply(Run(p, calls), call)
    decreases |calls|
  {
    if calls == [] {
      assert ([] + [call])[1..] == [];
    } else {
      assert (calls + [call])[0] == calls[0] && (calls + [call])[1..] == calls[1..] + [call];
      RunMore(Apply(p, calls[0]), calls[1..], call);
    }
  }

  /** After them the first `n` blocks are full, and each is one range in use. */
  predicate Taken(p: Pool, start: Pool, n: nat)
    requires |start.sizes| == |start.capacities|
  {
    Callable(p) && n <= |p.sizes| && p.capacities == start.capacities && p.queues == start.queues
    && p.at == (if n == 0 then 0 else n - 1) && |p.live| == n
    && forall i :: 0 <= i < |p.sizes| ==> p.sizes[i] == (if i < n then p.capacities[i] else 0)
  }

  lemma {:induction false} WholeBlocksTaken(p: Pool, n: nat)
    requires Valid(p) && n <= |p.sizes|
    ensures Taken(Run(Reset(p), WholeBlocks(p.capacities, n)), Reset(p), n)
    ensures n > 0 ==> Run(Reset(p), WholeBlocks(p.capacities, n)).live[n - 1] == Range(n - 1, 0, p.capacities[n - 1])
    decreases n
  {
    if n > 0 {
      BlocksAreAligned(p, n - 1);
      if n > 1 {
        BlocksAreAligned(p, n - 2);
      }
      hide Run, Valid, Bounded, AllPlaced, All, Waiting, Apply;
      WholeBlocksTaken(p, n - 1);
      var before := Run(Reset(p), WholeBlocks(p.capacities, n - 1));
      RunMore(Reset(p), WholeBlocks(p.capacities, n - 1), New(p.capacities[n - 1]));
      OneMoreTaken(before, Reset(p), n);
    }
  }

  lemma BlocksAreAligned(p: Pool, i: nat)
    requires Valid(p) && i < |p.capacities|
    ensures p.capacities[i] > 0 && p.capacities[i] % ALIGNMENT == 0
  {
    assert BoundedAt(p.sizes, p.capacities, p.at, i);
  }

  /** The next block is the one that fits, as the one before it is full. */
  lemma OneMoreTaken(before: Pool, start: Pool, n: nat)
    requires |start.sizes| == |start.capacities| && 0 < n <= |start.capacities| && Taken(before, start, n - 1)
    requires var c := start.capacities[n - 1]; 0 < c && c % ALIGNMENT == 0
    requires n > 1 ==> start.capacities[n - 2] > 0
    ensures Taken(Apply(before, New(start.capacities[n - 1])), start, n)
    ensures Apply(before, New(start.capacities[n - 1])).live[n - 1] == Range(n - 1, 0, start.capacities[n - 1])
  {
    var c := start.capacities[n - 1];
    assert AlignTo(c) == c;
    assert Fit(before.capacities, before.sizes, before.at, c) == n - 1;
  }

  /** Memory that waits while the pool is reset is handed out twice by some later calls. */
  lemma ResetOverlaps(p: Pool, cache: nat) returns (calls: seq<Call>)
    requires Valid(p) && cache < CACHES && p.queues[cache] != []
    ensures !AllApart(multiset(Run(Reset(p), calls).live))
  {
    var c := p.queues[cache][0];
    assert c in All(p);
    var n := c.block + 1;
    var whole := WholeBlocks(p.capacities, n);
    WholeBlocksTaken(p, n);
    calls := whole + [Cached(cache, 0)];
    RunMore(Reset(p), whole, Cached(cache, 0));
    var before, after := Run(Reset(p), whole), Run(Reset(p), calls);
    var r := Range(c.block, 0, p.capacities[c.block]);
    assert before.live[n - 1] == r && after.live == before.live + [c];
    NotApart(before.live, n - 1, c);
  }

  lemma NotApart(live: seq<Range>, i: nat, c: Range)
    requires i < |live| && live[i].block == c.block && 0 < c.length
    requires live[i].start <= c.start && c.start + c.length <= live[i].start + live[i].length
    ensures !AllApart(multiset(live + [c]))
  {
    var m := multiset(live + [c]);
    assert live[i] in multiset(live) && m == multiset(live) + multiset{c};
    assert live[i] in m && c in m;
  }

  /** After a reset, what callers use stays apart in all later calls exactly if every cache was empty. */
  lemma ApartExactlyIfEmpty(p: Pool)
    requires Valid(p)
    ensures CachesEmpty(p) <==> forall calls: seq<Call> :: AllApart(multiset(Run(Reset(p), calls).live))
  {
    if CachesEmpty(p) {
      forall calls: seq<Call>
        ensures AllApart(multiset(Run(Reset(p), calls).live))
      {
        ResetKeeps(p);
        RunKeeps(Reset(p), calls);
        DisjointIsApart(Run(Reset(p), calls));
      }
    } else {
      var cache := if p.queues[0] != [] then 0 else if p.queues[1] != [] then 1 else 2;
      var calls := ResetOverlaps(p, cache);
    }
  }

  lemma TwoCalls(p: Pool, a: Call, b: Call)
    requires Callable(p)
    ensures Run(p, [a, b]) == Apply(Apply(p, a), b)
  {
    assert [a, b][1..] == [b] && [b][1..] == [];
    assert Run(Apply(p, a), [b]) == Run(Apply(Apply(p, a), b), []);
  }

  /** One returned chunk and a reset: the same bytes are handed out to two callers. */
  lemma OverlapWitness()
    ensures var p := Reset(Run(EMPTY, [New(16), Return(0, 0)]));
            Run(p, [New(16), Cached(0, 16)]).live == [Range(0, 0, 16), Range(0, 0, 16)]
  {
    OverlapCalls();
    var p := Reset(Run(EMPTY, [New(16), Return(0, 0)]));
    TwoCalls(EMPTY, New(16), Return(0, 0));
    TwoCalls(p, New(16), Cached(0, 16));
  }

  lemma OverlapCalls()
    ensures var r := Range(0, 0, 16);
            && Apply(Apply(EMPTY, New(16)), Return(0, 0)) == Pool([1024], [16], 0, [], [[r], [], []])
            && Reset(Pool([1024], [16], 0, [], [[r], [], []])) == Pool([1024], [0], 0, [], [[r], [], []])
            && Apply(Apply(Pool([1024], [0], 0, [], [[r], [], []]), New(16)), Cached(0, 16))
               == Pool([1024], [16], 0, [r, r], [[], [], []])
  {
    var r := Range(0, 0, 16);
    assert Apply(EMPTY, New(16)) == Pool([1024], [16], 0, [r], [[], [], []]);
    assert Apply(Pool([1024], [0], 0, [], [[r], [], []]), New(16)) == Pool([1024], [16], 0, [r], [[r], [], []]);
  }
}
