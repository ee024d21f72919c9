/** The block list of the memory pool: a bump pointer in one block, empty blocks behind it. */
module MemBlocks {
  import opened Sums

  const MIN_MEM_BLOCK_CAPACITY: nat := 1024

  /** `sizeof(max_align_t)` */
  const ALIGNMENT: nat := 16

  /** `alignTo` the alignment: the next multiple of it. */
  function AlignTo(size: nat): (r: nat)
    ensures size <= r < size + ALIGNMENT && r % ALIGNMENT == 0
  {
    var offset := size % ALIGNMENT;
    if offset != 0 then size + ALIGNMENT - offset else size
  }

  /** The capacity of a new block. */
  function Capacity(size: nat): nat {
    if size < MIN_MEM_BLOCK_CAPACITY then MIN_MEM_BLOCK_CAPACITY else size
  }

  /** The first block from `at` on with enough room, or the position of a new one. */
  function Fit(capacities: seq<nat>, sizes: seq<nat>, at: nat, size: nat): (r: nat)
    requires |sizes| == |capacities|
    ensures r <= |sizes| && (at <= |sizes| ==> at <= r)
    decreases |sizes| - at
  {
    if at >= |sizes| then |sizes|
    else if capacities[at] - sizes[at] < size then Fit(capacities, sizes, at + 1, size)
    else at
  }

  /** It is the first one: no block before it has room, and it has. */
  lemma {:induction false} FitIsFirst(capacities: seq<nat>, sizes: seq<nat>, at: nat, size: nat)
    requires |sizes| == |capacities| && at <= |sizes|
    ensures var r := Fit(capacities, sizes, at, size);
            && (forall i :: at <= i < r ==> sizes[i] + size > capacities[i])
            && (r < |sizes| ==> sizes[r] + size <= capacities[r])
    decreases |sizes| - at
  {
    if at < |sizes| && capacities[at] - sizes[at] < size {
      FitIsFirst(capacities, sizes, at + 1, size);
    }
  }

  /** The list with a new entry if `at` is the position behind it. */
  function Grown(list: seq<nat>, at: nat, more: nat): (r: seq<nat>)
    requires at <= |list|
    ensures at < |r|
  {
    if at < |list| then list else list + [more]
  }

  class MemBlock {
    var size: nat
    var capacity: nat
    var next: MemBlock?

    /** The position in the list. */
    ghost const index: nat

    constructor (capacity: nat, ghost index: nat)
      ensures this.capacity == capacity && size == 0 && next == null && this.index == index
    {
      this.capacity, size, next := capacity, 0, null;
      this.index := index;
    }
  }

  function BlockAt(blocks: seq<MemBlock>, i: int): MemBlock? {
    if 0 <= i < |blocks| then blocks[i] else null
  }

  /** The block at `i` is linked to `next` and contains what is recorded for it. */
  ghost predicate Contains(blocks: seq<MemBlock>, i: nat, size: nat, capacity: nat, next: MemBlock?)
    requires i < |blocks|
    reads blocks
  {
    blocks[i].index == i && blocks[i].next == next && blocks[i].size == size && blocks[i].capacity == capacity
  }

  ghost predicate ChainAt(blocks: seq<MemBlock>, sizes: seq<nat>, capacities: seq<nat>, i: nat)
    requires i < |blocks| && |sizes| == |capacities| == |blocks|
    reads blocks
  {
    Contains(blocks, i, sizes[i], capacities[i], BlockAt(blocks, i + 1))
  }

  ghost predicate Chain(blocks: seq<MemBlock>, sizes: seq<nat>, capacities: seq<nat>)
    requires |sizes| == |capacities| == |blocks|
    reads blocks
  {
    forall i :: 0 <= i < |blocks| ==> ChainAt(blocks, sizes, capacities, i)
  }

  /** The same, except that the last block is linked to a new one. */
  ghost predicate Extended(blocks: seq<MemBlock>, sizes: seq<nat>, capacities: seq<nat>, i: nat, block: MemBlock)
    requires i < |blocks| && |sizes| == |capacities| == |blocks|
    reads blocks
  {
    Contains(blocks, i, sizes[i], capacities[i], if i == |blocks| - 1 then block else BlockAt(blocks, i + 1))
  }

  lemma ExtendedChain(blocks: seq<MemBlock>, sizes: seq<nat>, capacities: seq<nat>, block: MemBlock)
    requires |sizes| == |capacities| == |blocks|
    requires forall i :: 0 <= i < |blocks| ==> Extended(blocks, sizes, capacities, i, block)
    requires block.index == |blocks| && block.next == null
    ensures Chain(blocks + [block], sizes + [block.size], capacities + [block.capacity])
  {
    var b, s, c := blocks + [block], sizes + [block.size], capacities + [block.capacity];
    forall i | 0 <= i < |b|
      ensures ChainAt(b, s, c, i)
    {
      if i < |blocks| {
        assert Extended(blocks, sizes, capacities, i, block);
      }
    }
  }

  /** The block at `i` is within its capacity, aligned, and empty if it comes after the current one. */
  predicate BoundedAt(sizes: seq<nat>, capacities: seq<nat>, at: nat, i: nat)
    requires i < |sizes| == |capacities|
  {
    sizes[i] <= capacities[i] && capacities[i] >= MIN_MEM_BLOCK_CAPACITY && capacities[i] % ALIGNMENT == 0
    && sizes[i] % ALIGNMENT == 0 && (i > at ==> sizes[i] == 0)
  }

  predicate Bounded(sizes: seq<nat>, capacities: seq<nat>, at: nat)
    requires |sizes| == |capacities|
  {
    forall i :: 0 <= i < |sizes| ==> BoundedAt(sizes, capacities, at, i)
  }

  lemma BoundedAppend(sizes: seq<nat>, capacities: seq<nat>, at: nat, capacity: nat)
    requires |sizes| == |capacities| && Bounded(sizes, capacities, at)
    requires (at == |sizes| - 1 || sizes == []) && capacity >= MIN_MEM_BLOCK_CAPACITY && capacity % ALIGNMENT == 0
    ensures Bounded(sizes + [0], capacities + [capacity], |sizes|)
  {
    forall i | 0 <= i < |sizes| + 1
      ensures BoundedAt(sizes + [0], capacities + [capacity], |sizes|, i)
    {
      if i < |sizes| {
        assert BoundedAt(sizes, capacities, at, i);
      }
    }
  }

  /** The blocks behind the current one stay empty when the next one becomes current. */
  lemma BoundedNext(sizes: seq<nat>, capacities: seq<nat>, at: nat)
    requires |sizes| == |capacities| && Bounded(sizes, capacities, at)
    ensures Bounded(sizes, capacities, at + 1)
  {
    var next := at + 1;
    forall i | 0 <= i < |sizes|
      ensures BoundedAt(sizes, capacities, next, i)
    {
      assert BoundedAt(sizes, capacities, at, i);
    }
  }

  lemma BoundedReset(sizes: seq<nat>, capacities: seq<nat>, at: nat)
    requires |sizes| == |capacities| && Bounded(sizes, capacities, at)
    ensures Bounded(Zeros(|sizes|), capacities, 0)
  {
    var zeros := Zeros(|sizes|);
    forall i | 0 <= i < |sizes|
      ensures BoundedAt(zeros, capacities, 0, i)
    {
      assert BoundedAt(sizes, capacities, at, i);
    }
  }

  lemma OneMoreZero(sizes: seq<nat>, k: nat)
    requires k < |sizes|
    ensures var zeros := Zeros(|sizes|); (zeros[..k] + sizes[k..])[k := 0] == zeros[..k + 1] + sizes[k + 1..]
  {
  }

  class BlockList {
    var first: MemBlock?
    var cur: MemBlock?
    var totalAllocated: nat
    var totalUsed: nat
    var numberOfBlocks: nat

    /** The blocks in order, the current one, and what is in them. */
    ghost var blocks: seq<MemBlock>
    ghost var at: nat
    ghost var sizes: seq<nat>
    ghost var capacities: seq<nat>

    /** Bytes handed out before the resets, which the running total never gives back. */
    ghost var forgotten: nat

    ghost predicate Linked()
      reads this, blocks
    {
      |sizes| == |capacities| == |blocks|
      && first == BlockAt(blocks, 0) && cur == BlockAt(blocks, at) && (at < |blocks| || at == 0)
      && Chain(blocks, sizes, capacities)
    }

    /** The running totals are the sums over the block list. */
    ghost predicate Counted()
      reads this
    {
      numberOfBlocks == |blocks| && totalAllocated == Sum(capacities) && totalUsed == Sum(sizes) + forgotten
    }

    ghost predicate Valid()
      reads this, blocks
    {
      Linked() && Bounded(sizes, capacities, at) && Counted()
    }

    constructor ()
      ensures Valid() && blocks == [] && forgotten == 0
    {
      first, cur := null, null;
      totalAllocated, totalUsed, numberOfBlocks := 0, 0, 0;
      blocks, at, sizes, capacities, forgotten := [], 0, [], [], 0;
    }

    /** Links a new block behind the last one. */
    method Link(block: MemBlock)
      requires Linked() && (at == |blocks| - 1 || blocks == [])
      requires block !in blocks && block.index == |blocks| && block.next == null
      modifies `first, blocks
      ensures first == BlockAt(blocks + [block], 0)
      ensures Chain(blocks + [block], sizes + [block.size], capacities + [block.capacity])
    {
      if cur != null {
        assert ChainAt(blocks, sizes, capacities, at);
        cur.next := block;
      } else {
        first := block;
      }
      forall i | 0 <= i < |blocks|
        ensures Extended(blocks, sizes, capacities, i, block)
      {
        assert old(ChainAt(blocks, sizes, capacities, i));
      }
      ExtendedChain(blocks, sizes, capacities, block);
    }

    /** `allocMemBlock` behind the last block, which becomes the current one. */
    method AddBlock(size: nat)
      requires Valid() && (at == |blocks| - 1 || blocks == []) && size % ALIGNMENT == 0
      modifies this, blocks
      ensures Valid() && cur != null && fresh(cur) && blocks == old(blocks) + [cur]
      ensures at == |blocks| - 1 && forgotten == old(forgotten)
      ensures sizes == old(sizes) + [0] && capacities == old(capacities) + [Capacity(size)]
    {
      hide Sum, Chain, Bounded;
      var capacity := Capacity(size);
      var block := new MemBlock(capacity, |blocks|);
      Link(block);
      Register(block, capacity);
    }

    /** Makes a linked block the current one and counts it. */
    method Register(block: MemBlock, capacity: nat)
      requires |sizes| == |capacities| == |blocks| && (at == |blocks| - 1 || blocks == [])
      requires first == BlockAt(blocks + [block], 0) && Chain(blocks + [block], sizes + [0], capacities + [capacity])
      requires Bounded(sizes, capacities, at) && Counted()
      requires capacity >= MIN_MEM_BLOCK_CAPACITY && capacity % ALIGNMENT == 0
      modifies `cur, `totalAllocated, `numberOfBlocks, `blocks, `at, `sizes, `capacities
      ensures Valid() && cur == block && blocks == old(blocks) + [block]
      ensures at == |blocks| - 1 && sizes == old(sizes) + [0] && capacities == old(capacities) + [capacity]
    {
      hide Sum;
      BoundedAppend(sizes, capacities, at, capacity);
      SumAppend(sizes, 0);
      SumAppend(capacities, capacity);
      totalAllocated := totalAllocated + capacity;
      numberOfBlocks := numberOfBlocks + 1;
      cur, at := block, |blocks|;
      blocks, sizes, capacities := blocks + [block], sizes + [0], capacities + [capacity];
    }

    /** Where the next bytes come from: the first block from the current one on with enough room, or a new one. */
    method Advance(size: nat)
      requires Valid() && size % ALIGNMENT == 0
      modifies this, blocks
      ensures Valid() && cur != null && forgotten == old(forgotten)
      ensures at == Fit(old(capacities), old(sizes), old(at), size) && sizes[at] + size <= capacities[at]
      ensures sizes == Grown(old(sizes), at, 0) && capacities == Grown(old(capacities), at, Capacity(size))
      ensures if at < |old(blocks)| then blocks == old(blocks) else fresh(cur) && blocks == old(blocks) + [cur]
    {
      hide Sum;
      if cur == null {
        AddBlock(size);
        return;
      }
      assert ChainAt(blocks, sizes, capacities, at);
      while cur.capacity - cur.size < size
        invariant Valid() && cur != null && forgotten == old(forgotten)
        invariant blocks == old(blocks) && sizes == old(sizes) && capacities == old(capacities)
        invariant Fit(capacities, sizes, at, size) == Fit(capacities, sizes, old(at), size)
        decreases |blocks| - at
      {
        assert ChainAt(blocks, sizes, capacities, at);
        if cur.next == null {
          AddBlock(size);
          return;
        }
        BoundedNext(sizes, capacities, at);
        cur, at := cur.next, at + 1;
        assert ChainAt(blocks, sizes, capacities, at) && BoundedAt(sizes, capacities, at - 1, at);
        // the next block must have been reset
        assert cur.size == 0;
      }
      assert ChainAt(blocks, sizes, capacities, at);
    }

    /** `allocFromMemPool` of an aligned size: the bytes behind those used in the current block. */
    method Take(size: nat) returns (block: MemBlock, start: nat)
      requires Valid() && size % ALIGNMENT == 0
      modifies this, blocks
      ensures Valid() && forgotten == old(forgotten)
      ensures at == Fit(old(capacities), old(sizes), old(at), size) && at < |blocks|
      ensures if at < |old(blocks)| then blocks == old(blocks) else fresh(block) && blocks == old(blocks) + [block]
      ensures capacities == Grown(old(capacities), at, Capacity(size))
      ensures block == blocks[at] && block.index == at && start == Grown(old(sizes), at, 0)[at]
      ensures sizes == Grown(old(sizes), at, 0)[at := start + size]
    {
      Advance(size);
      hide Sum;
      assert ChainAt(blocks, sizes, capacities, at) && BoundedAt(sizes, capacities, at, at);
      block, start := cur, cur.size;
      Use(size);
    }

    /** Counts `size` more bytes in the current block. */
    method Use(size: nat)
      requires Valid() && cur != null && size % ALIGNMENT == 0 && sizes[at] + size <= capacities[at]
      modifies cur`size, `totalUsed, `sizes
      ensures Valid() && sizes == old(sizes)[at := old(sizes)[at] + size]
    {
      hide Sum;
      assert ChainAt(blocks, sizes, capacities, at);
      assert BoundedAt(sizes, capacities, at, at);
      cur.size := cur.size + size;
      totalUsed := totalUsed + size;
      SumUpdate(sizes, at, sizes[at] + size);
      sizes := sizes[at := sizes[at] + size];
      forall i | 0 <= i < |blocks|
        ensures ChainAt(blocks, sizes, capacities, i) && BoundedAt(sizes, capacities, at, i)
      {
        assert old(ChainAt(blocks, sizes, capacities, i) && BoundedAt(sizes, capacities, at, i));
      }
    }

    /** Empties one block. */
    method Clear(block: MemBlock, ghost k: nat, ghost list: seq<MemBlock>, ghost s: seq<nat>, ghost c: seq<nat>)
      requires |s| == |c| == |list| && Chain(list, s, c) && k < |list| && block == list[k]
      modifies block`size
      ensures Chain(list, s[k := 0], c)
    {
      block.size := 0;
      ghost var after := s[k := 0];
      forall i | 0 <= i < |list|
        ensures ChainAt(list, after, c, i)
      {
        assert old(ChainAt(list, s, c, i) && ChainAt(list, s, c, k));
      }
    }

    /** `resetMemPool`: every block is empty again and the first one is current. */
    method Reset()
      requires Valid()
      modifies this, blocks
      ensures Valid() && blocks == old(blocks) && capacities == old(capacities) && at == 0
      ensures sizes == Zeros(|old(sizes)|) && |sizes| == |blocks|
      ensures totalUsed == old(totalUsed) && forgotten == old(totalUsed)
    {
      hide Sum;
      ClearAll();
      cur := first;
      BoundedReset(sizes, capacities, at);
      SumZeros(|blocks|);
      sizes, at, forgotten := Zeros(|blocks|), 0, totalUsed;
    }

    /** Empties all the blocks, one after the other. */
    method ClearAll()
      requires Linked()
      modifies blocks
      ensures Chain(blocks, Zeros(|blocks|), capacities)
    {
      var block := first;
      ghost var k := 0;
      ghost var n := |blocks|;
      ghost var zeros := Zeros(n);
      assert zeros[..0] + sizes[0..] == sizes;
      while block != null
        invariant k <= n && block == BlockAt(blocks, k)
        invariant Chain(blocks, zeros[..k] + sizes[k..], capacities)
        modifies blocks
        decreases n - k
      {
        assert ChainAt(blocks, zeros[..k] + sizes[k..], capacities, k);
        Clear(block, k, blocks, zeros[..k] + sizes[k..], capacities);
        OneMoreZero(sizes, k);
        block := block.next;
        k := k + 1;
      }
      assert zeros[..n] + sizes[n..] == zeros;
    }

    /** `freeMemPool`: no blocks are left, but the running totals stay what they were. */
    method Free()
      requires Valid()
      modifies this
      ensures Linked() && Bounded(sizes, capacities, at) && blocks == []
      ensures totalAllocated == old(totalAllocated) && numberOfBlocks == old(numberOfBlocks)
      ensures Counted() <==> old(blocks) == []
    {
      first, cur := null, null;
      blocks, sizes, capacities, at, forgotten := [], [], [], 0, totalUsed;
    }
  }
}
