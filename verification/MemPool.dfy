/** The memory pool: chunks of the blocks handed out to callers or waiting in queues of returned memory. */
module MemPool {
  import opened MemBlocks
  import opened PoolModel
  import opened Sums

  /** The size of a pointer: how much of returned memory has to be cleared for the link in it. */
  const LINK_SIZE: nat := 8

  /** Memory that the pool handed out. While it is in a queue, its first bytes hold the link and the size. */
  class Chunk {
    const block: MemBlock
    const start: nat
    const length: nat
    var next: Chunk?
    var size: nat

    constructor (block: MemBlock, start: nat, length: nat)
      ensures this.block == block && this.start == start && this.length == length
    {
      this.block, this.start, this.length := block, start, length;
      next, size := null, 0;
    }
  }

  /** The bytes of a chunk, as a range of the block list. */
  ghost function RangeOf(c: Chunk): Range {
    Range(c.block.index, c.start, c.length)
  }

  ghost function Ranges(s: seq<Chunk>): (r: seq<Range>)
    ensures |r| == |s|
  {
    seq(|s|, i requires 0 <= i < |s| => RangeOf(s[i]))
  }

  lemma RangesAppend(s: seq<Chunk>, c: Chunk)
    ensures Ranges(s + [c]) == Ranges(s) + [RangeOf(c)]
  {
  }

  lemma RangesRest(s: seq<Chunk>)
    requires s != []
    ensures Ranges(s)[0] == RangeOf(s[0]) && Ranges(s[1..]) == Ranges(s)[1..]
  {
  }

  lemma RangesWithout(s: seq<Chunk>, i: nat)
    requires i < |s|
    ensures Ranges(s)[i] == RangeOf(s[i])
    ensures Ranges(s[..i] + s[i + 1..]) == Ranges(s)[..i] + Ranges(s)[i + 1..]
  {
  }

  // The queue of returned memory

  function ChunkAt(queue: seq<Chunk>, i: int): Chunk? {
    if 0 <= i < |queue| then queue[i] else null
  }

  ghost predicate LinkAt(queue: seq<Chunk>, i: nat)
    requires i < |queue|
    reads queue
  {
    queue[i].next == ChunkAt(queue, i + 1)
  }

  ghost predicate Linked(queue: seq<Chunk>)
    reads queue
  {
    forall i :: 0 <= i < |queue| ==> LinkAt(queue, i)
  }

  ghost predicate NoRepeats(queue: seq<Chunk>) {
    forall i, j :: 0 <= i < j < |queue| ==> queue[i] != queue[j]
  }

  lemma RestOfQueue(queue: seq<Chunk>)
    requires NoRepeats(queue) && queue != []
    ensures forall d :: d in queue[1..] <==> d in queue && d != queue[0]
  {
    assert queue == [queue[0]] + queue[1..];
  }

  lemma WithoutOne(s: seq<Chunk>, i: nat)
    requires NoRepeats(s) && i < |s|
    ensures NoRepeats(s[..i] + s[i + 1..])
    ensures forall d :: d in s[..i] + s[i + 1..] <==> d in s && d != s[i]
  {
    assert s == s[..i] + [s[i]] + s[i + 1..];
  }

  class Cache {
    var first: Chunk?
    var last: Chunk?
    var count: nat
    var allocs: nat
    var returned: nat

    ghost var queue: seq<Chunk>

    ghost predicate Valid()
      reads this, queue
    {
      first == ChunkAt(queue, 0) && (queue != [] ==> last == queue[|queue| - 1])
      && count == |queue| && NoRepeats(queue) && Linked(queue)
    }

    constructor ()
      ensures Valid() && queue == [] && allocs == 0 && returned == 0
    {
      first, last, count, allocs, returned := null, null, 0, 0, 0;
      queue := [];
    }

    /** The memory that was returned first. */
    method Dequeue() returns (c: Chunk)
      requires Valid() && queue != []
      modifies this
      ensures Valid() && c == old(queue)[0] && queue == old(queue)[1..]
      ensures allocs == old(allocs) && returned == old(returned)
    {
      assert LinkAt(queue, 0);
      c := first;
      first := first.next;
      count := count - 1;
      ghost var rest := queue[1..];
      forall i | 0 <= i < |rest|
        ensures LinkAt(rest, i)
      {
        assert LinkAt(queue, i + 1);
      }
      assert Linked(rest);
      queue := rest;
    }

    /** `freeMemToPoolCache`: clears the memory and puts it at the end of the queue. */
    method Enqueue(c: Chunk, size: nat)
      requires Valid() && c !in queue && LINK_SIZE <= size <= c.length
      modifies this, c, queue
      ensures Valid() && queue == old(queue) + [c] && c.size == size
      ensures allocs == old(allocs) && returned == old(returned) + 1
    {
      ghost var was := queue;
      queue := was + [c];
      returned := returned + 1;
      count := count + 1;
      if was != [] {
        assert old(LinkAt(queue, |queue| - 1));
      }
      var end := last;
      last := c;
      if first == null {
        first := c;
        c.next, c.size := null, size;
      } else {
        c.next, c.size := null, size;
        end.next := c;
      }
      forall i | 0 <= i < |queue|
        ensures LinkAt(queue, i)
      {
        if i < |was| {
          assert old(LinkAt(queue, i));
        }
      }
    }
  }

  class MemPool {
    const blocks: BlockList
    const caches: seq<Cache>

    /** The memory that callers use since the last reset, in the order in which they got it. */
    ghost var live: seq<Chunk>

    /** The memory that waits in a queue, and in which one. */
    ghost var waiting: map<Chunk, nat>

    /** What the pool is apart from its links. */
    ghost function Model(): (p: Pool)
      requires |caches| == CACHES
      reads this, blocks, caches
    {
      Pool(blocks.capacities, blocks.sizes, blocks.at, Ranges(live),
           [Ranges(caches[0].queue), Ranges(caches[1].queue), Ranges(caches[2].queue)])
    }

    /** A chunk lies in a block of the list. */
    ghost predicate OfList(c: Chunk)
      reads blocks`blocks
    {
      c.block.index < |blocks.blocks| && c.block == blocks.blocks[c.block.index]
    }

    /** No chunk is in use twice, or in use and waiting. */
    ghost predicate LiveValid()
      reads `live, `waiting, blocks`blocks
    {
      NoRepeats(live) && (forall c :: c in live ==> OfList(c) && c !in waiting)
      && forall c :: c in waiting ==> OfList(c)
    }

    ghost predicate QueueValid(i: nat)
      requires i < |caches|
      reads `waiting, caches
    {
      forall c :: c in caches[i].queue ==> c in waiting && waiting[c] == i
    }

    ghost predicate InQueue(c: Chunk)
      requires c in waiting
      reads `waiting, caches
    {
      waiting[c] < |caches| && c in caches[waiting[c]].queue
    }

    /** Exactly what waits is in the queues, each chunk in one of them. */
    ghost predicate QueuesValid()
      reads `waiting, caches
    {
      |caches| == CACHES && (forall i, j :: 0 <= i < j < CACHES ==> caches[i] != caches[j])
      && (forall i :: 0 <= i < CACHES ==> QueueValid(i))
      && forall c :: c in waiting ==> InQueue(c)
    }

    ghost predicate CacheValid(i: nat)
      requires i < |caches| && QueueValid(i)
      reads `waiting, caches, waiting.Keys
    {
      caches[i].Valid()
    }

    ghost predicate CachesValid()
      reads `waiting, caches, waiting.Keys
    {
      QueuesValid() && forall i :: 0 <= i < CACHES ==> CacheValid(i)
    }

    ghost predicate Valid()
      reads this, blocks, blocks.blocks, caches, waiting.Keys
    {
      |caches| == CACHES && blocks.Valid() && CachesValid() && LiveValid()
    }

    constructor ()
      ensures Valid() && Model() == EMPTY && live == [] && blocks.blocks == []
      ensures fresh(blocks) && fresh(caches[0]) && fresh(caches[1]) && fresh(caches[2])
    {
      var a := new Cache();
      var b := new Cache();
      var c := new Cache();
      var list := new BlockList();
      blocks, caches, live, waiting := list, [a, b, c], [], map[];
      new;
      hide *;
      EmptyIsValid(a, b, c);
    }

    lemma EmptyQueues()
      requires Valid() && Model() == EMPTY
      ensures forall i :: 0 <= i < CACHES ==> caches[i].queue == []
    {
    }

    lemma LiveRanges()
      requires Valid()
      ensures |Model().live| == |live| && forall i :: 0 <= i < |live| ==> Model().live[i] == RangeOf(live[i])
      ensures forall i, j :: 0 <= i < j < |live| ==> live[i] != live[j]
    {
    }

    lemma EmptyIsValid(a: Cache, b: Cache, c: Cache)
      requires caches == [a, b, c] && a != b && b != c && a != c
      requires a.queue == [] && b.queue == [] && c.queue == [] && a.Valid() && b.Valid() && c.Valid()
      requires live == [] && waiting == map[] && blocks.Valid() && blocks.blocks == []
      ensures Valid() && Model() == EMPTY
    {
      hide Sum, Chain, Bounded;
      assert QueueValid(0) && QueueValid(1) && QueueValid(2);
      assert CacheValid(0) && CacheValid(1) && CacheValid(2);
    }

    /** A new chunk of the block list. */
    method Carve(length: nat) returns (p: Chunk)
      requires blocks.Valid() && LiveValid() && length % ALIGNMENT == 0
      modifies blocks, blocks.blocks
      ensures blocks.Valid() && LiveValid() && fresh(p) && OfList(p) && p.length == length
      ensures blocks.at == Fit(old(blocks.capacities), old(blocks.sizes), old(blocks.at), length)
      ensures blocks.capacities == Grown(old(blocks.capacities), blocks.at, Capacity(length))
      ensures p.block.index == blocks.at && p.start == Grown(old(blocks.sizes), blocks.at, 0)[blocks.at]
      ensures blocks.sizes == Grown(old(blocks.sizes), blocks.at, 0)[blocks.at := p.start + length]
      ensures forall i :: 0 <= i < |blocks.blocks| ==> blocks.blocks[i] in old(blocks.blocks) || fresh(blocks.blocks[i])
    {
      hide BlockList.Valid, Fit, NoRepeats, Capacity;
      var block, start := blocks.Take(length);
      p := new Chunk(block, start, length);
    }

    /** `allocFromMemPool` */
    method Alloc(size: nat) returns (p: Chunk?)
      requires Valid()
      modifies this`live, blocks, blocks.blocks
      ensures Valid() && Model() == Apply(old(Model()), New(size))
      ensures if p == null then size == 0 && live == old(live)
              else fresh(p) && live == old(live) + [p] && p.length == AlignTo(size)
      ensures forall i :: 0 <= i < |blocks.blocks| ==> blocks.blocks[i] in old(blocks.blocks) || fresh(blocks.blocks[i])
    {
      hide CachesValid, BlockList.Valid, Fit, AlignTo, Grown, Capacity;
      if size == 0 {
        return null;
      }
      AlignedIsAligned(size);
      p := Carve(AlignTo(size));
      RangesAppend(live, p);
      live := live + [p];
    }

    /** The first chunk of a queue goes back to a caller. */
    method TakeWaiting(cache: nat) returns (p: Chunk)
      requires CachesValid() && cache < CACHES && caches[cache].queue != []
      modifies caches[cache], `waiting
      ensures CachesValid() && p in old(waiting) && waiting == old(waiting) - {p}
      ensures p == old(caches[cache].queue)[0] && caches[cache].queue == old(caches[cache].queue)[1..]
      ensures caches[cache].allocs == old(caches[cache].allocs)
    {
      assert QueueValid(cache) && CacheValid(cache);
      ghost var queue := caches[cache].queue;
      assert queue[0] in queue;
      p := caches[cache].Dequeue();
      RestOfQueue(queue);
      waiting := waiting - {p};
      forall i | 0 <= i < CACHES
        ensures QueueValid(i)
      {
        assert old(QueueValid(i));
      }
      forall c | c in waiting
        ensures InQueue(c)
      {
        assert old(InQueue(c));
      }
      forall i | 0 <= i < CACHES
        ensures CacheValid(i)
      {
        assert old(CacheValid(i));
      }
    }

    /** It is in use from now on. */
    method TakeLive(cache: nat) returns (p: Chunk)
      requires cache < CACHES == |caches| && CachesValid() && LiveValid() && caches[cache].queue != []
      modifies caches[cache], `waiting, `live
      ensures CachesValid() && LiveValid() && live == old(live) + [p]
      ensures p == old(caches[cache].queue)[0] && caches[cache].queue == old(caches[cache].queue)[1..]
      ensures caches[cache].allocs == old(caches[cache].allocs)
    {
      hide CachesValid;
      p := TakeWaiting(cache);
      live := live + [p];
    }

    /** `allocFromCacheOrPool`: the memory returned first, whatever its size, or else new memory. */
    method AllocCached(cache: nat, size: nat) returns (p: Chunk?)
      requires Valid() && cache < CACHES
      modifies `live, `waiting, blocks, blocks.blocks, caches[cache]
      ensures Valid() && caches[cache].allocs == old(caches[cache].allocs) + 1
      ensures Model() == Apply(old(Model()), Cached(cache, size))
      ensures if p == null then live == old(live) else live == old(live) + [p]
    {
      hide Sum, Chain, Bounded, PoolModel.Alloc;
      CountAlloc(cache);
      if caches[cache].first == null {
        p := Alloc(size);
      } else {
        RangesRest(caches[cache].queue);
        p := TakeLive(cache);
        RangesAppend(old(live), p);
      }
    }

    method CountAlloc(cache: nat)
      requires CachesValid() && cache < CACHES
      modifies caches[cache]
      ensures CachesValid() && caches[cache].allocs == old(caches[cache].allocs) + 1
      ensures caches[cache].queue == old(caches[cache].queue)
      ensures caches[cache].first == ChunkAt(caches[cache].queue, 0)
    {
      caches[cache].allocs := caches[cache].allocs + 1;
      forall i | 0 <= i < CACHES
        ensures QueueValid(i)
      {
        assert old(QueueValid(i));
      }
      forall c | c in waiting
        ensures InQueue(c)
      {
        assert old(InQueue(c));
      }
      forall i | 0 <= i < CACHES
        ensures CacheValid(i)
      {
        assert old(CacheValid(i));
      }
      assert CacheValid(cache);
    }

    /** `freeMemToPoolCache`, for the chunk that is at `i` among those in use. */
    method Free(cache: nat, ghost i: nat, p: Chunk, size: nat)
      requires Valid() && cache < CACHES && i < |live| && p == live[i] && LINK_SIZE <= size <= p.length
      modifies caches[cache], p, caches[cache].queue, `live, `waiting
      ensures Valid() && Model() == Apply(old(Model()), PoolModel.Return(cache, i))
      ensures live == old(live[..i] + live[i + 1..]) && caches[cache].queue == old(caches[cache].queue) + [p]
    {
      hide Sum, Chain, Bounded, Linked;
      RangesWithout(live, i);
      RangesAppend(caches[cache].queue, p);
      WithoutOne(live, i);
      live := live[..i] + live[i + 1..];
      Return(cache, p, size);
    }

    method Return(cache: nat, p: Chunk, size: nat)
      requires CachesValid() && LiveValid() && cache < CACHES && p !in live && p !in waiting && OfList(p)
      requires LINK_SIZE <= size <= p.length
      modifies caches[cache], p, caches[cache].queue, `waiting
      ensures CachesValid() && LiveValid() && caches[cache].queue == old(caches[cache].queue) + [p]
    {
      assert QueueValid(cache) && CacheValid(cache);
      waiting := waiting[p := cache];
      caches[cache].Enqueue(p, size);
      forall i | 0 <= i < CACHES
        ensures QueueValid(i)
      {
        assert old(QueueValid(i));
      }
      forall c | c in waiting
        ensures InQueue(c)
      {
        assert c != p ==> old(InQueue(c));
      }
      forall i | 0 <= i < CACHES
        ensures CacheValid(i)
      {
        if i != cache {
          assert old(CacheValid(i)) && old(QueueValid(i)) && old(QueueValid(cache));
          ghost var queue := caches[i].queue;
          assert queue == old(caches[i].queue);
          forall k | 0 <= k < |queue|
            ensures LinkAt(queue, k)
          {
            assert queue[k] in queue;
            assert old(LinkAt(queue, k));
          }
        }
      }
    }

    /** `resetMemPool`: no caller may use its memory any more, but the caches keep their queues. */
    method Reset()
      requires Valid()
      modifies this`live, blocks, blocks.blocks
      ensures Valid() && Model() == PoolModel.Reset(old(Model())) && live == [] && blocks.blocks == old(blocks.blocks)
    {
      hide CachesValid, BlockList.Valid;
      blocks.Reset();
      live := [];
    }
  }

  lemma AlignedIsAligned(size: nat)
    ensures AlignTo(size) % ALIGNMENT == 0 && (size > 0 ==> AlignTo(size) > 0)
  {
  }

  /** A new pool in which one chunk of 16 bytes was returned. */
  method OneReturned() returns (pool: MemPool)
    ensures pool.Valid() && pool.Model() == Apply(Apply(EMPTY, New(16)), PoolModel.Return(0, 0)) && pool.live == []
    ensures fresh(pool) && fresh(pool.blocks) && fresh(pool.caches[0])
    ensures forall i :: 0 <= i < |pool.blocks.blocks| ==> fresh(pool.blocks.blocks[i])
  {
    hide MemPool.CachesValid, MemPool.LiveValid, MemPool.Model, BlockList.Valid, Ranges, NoRepeats, Apply;
    pool := new MemPool();
    pool.EmptyQueues();
    var first := pool.Alloc(16);
    pool.Free(0, 0, first, 16);
  }

  /** Memory that was returned before a reset is handed out while it is in use: two chunks of the same bytes. */
  method ReturnedThenReset() returns (pool: MemPool, p: Chunk?, q: Chunk?)
    ensures p != null && q != null && p != q
    ensures pool.Valid() && pool.live == [p, q] && RangeOf(p) == RangeOf(q)
  {
    hide MemPool.CachesValid, MemPool.LiveValid, MemPool.Model, BlockList.Valid, Ranges, NoRepeats, Apply, RangeOf;
    pool := OneReturned();
    OverlapCalls();
    pool.Reset();
    p := pool.Alloc(16);
    q := pool.AllocCached(0, 16);
    pool.LiveRanges();
    assert pool.live[0] == p && pool.live[1] == q;
  }
}
