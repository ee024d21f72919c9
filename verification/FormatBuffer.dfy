/** Formatted output collected in a list of chunks and joined into one C string. */
module FormatBuffer {
  import opened CStrings

  const DEFAULT_BUF_CAPACITY: nat := 1024

  class Chunk {
    const data: array<char>
    var size: nat
    var next: Chunk?

    constructor (capacity: nat)
      ensures fresh(data) && data.Length == capacity && size == 0 && next == null
    {
      data := new char[capacity];
      size, next := 0, null;
    }
  }

  function Concat(parts: seq<string>): string {
    if parts == [] then "" else Concat(parts[..|parts| - 1]) + parts[|parts| - 1]
  }

  lemma ConcatLast(parts: seq<string>, s: string)
    requires parts != []
    ensures Concat(parts[|parts| - 1 := parts[|parts| - 1] + s]) == Concat(parts) + s
  {
    var last := |parts| - 1;
    assert parts[last := parts[last] + s][..last] == parts[..last];
    assert Concat(parts[..last]) + (parts[last] + s) == Concat(parts[..last]) + parts[last] + s;
  }

  lemma ConcatNext(parts: seq<string>, k: nat)
    requires k < |parts|
    ensures Concat(parts[..k + 1]) == Concat(parts[..k]) + parts[k]
  {
    assert parts[..k + 1][..k] == parts[..k];
  }

  lemma LastPartEmpty(parts: seq<string>)
    ensures Concat(parts + [""]) == Concat(parts)
  {
    assert (parts + [""])[..|parts|] == parts;
    assert Concat(parts) + "" == Concat(parts);
  }

  function ChunkAt(chunks: seq<Chunk>, i: int): Chunk? {
    if 0 <= i < |chunks| then chunks[i] else null
  }

  /** The data of all chunks. */
  ghost function Memory(chunks: seq<Chunk>): set<array<char>> {
    set c | c in chunks :: c.data
  }

  /** The chunk at `i` holds the text of its part and leads to the next chunk. */
  ghost predicate Filled(chunks: seq<Chunk>, parts: seq<string>, i: nat)
    requires i < |chunks| == |parts|
    reads chunks, Memory(chunks)
  {
    chunks[i].data in Memory(chunks)
    && chunks[i].next == ChunkAt(chunks, i + 1)
    && chunks[i].size == |parts[i]| && Starts(chunks[i].data, parts[i])
  }

  ghost predicate Apart(chunks: seq<Chunk>) {
    forall i, j :: 0 <= i < j < |chunks| ==> chunks[i] != chunks[j] && chunks[i].data != chunks[j].data
  }

  class FormatState {
    var currentBuf: Chunk?
    var firstBuf: Chunk?
    ghost var chunks: seq<Chunk>
    ghost var parts: seq<string>

    /** All that was written. */
    ghost function Contents(): string
      reads `parts
    {
      Concat(parts)
    }

    ghost predicate Valid()
      reads this, chunks, Memory(chunks)
    {
      |chunks| == |parts| && firstBuf == ChunkAt(chunks, 0) && currentBuf == ChunkAt(chunks, |chunks| - 1)
      && Apart(chunks)
      && forall i :: 0 <= i < |chunks| ==> Filled(chunks, parts, i)
    }

    constructor ()
      ensures Valid() && Contents() == "" && chunks == []
    {
      currentBuf, firstBuf := null, null;
      chunks, parts := [], [];
    }

    /** `reserveBuf`: room for `size` characters in the current chunk, or in a new one. */
    method Reserve(size: nat)
      requires Valid()
      modifies this, currentBuf
      ensures Valid() && Contents() == old(Contents())
      ensures currentBuf != null && currentBuf.size + size <= currentBuf.data.Length
      ensures chunks == old(chunks)
              || (fresh(currentBuf) && fresh(currentBuf.data) && chunks == old(chunks) + [currentBuf])
    {
      hide Concat;
      var capacity := DEFAULT_BUF_CAPACITY;
      if currentBuf != null {
        assert Filled(chunks, parts, |chunks| - 1);
        if currentBuf.size + size <= currentBuf.data.Length {
          return;
        }
        capacity := currentBuf.size;
      }
      if capacity < size {
        capacity := size;
      }
      AddChunk(capacity);
    }

    /** A new chunk behind the last one. */
    method AddChunk(capacity: nat)
      requires Valid()
      modifies this, currentBuf
      ensures Valid() && Contents() == old(Contents())
      ensures currentBuf != null && fresh(currentBuf) && fresh(currentBuf.data)
      ensures currentBuf.size == 0 && currentBuf.data.Length == capacity && chunks == old(chunks) + [currentBuf]
    {
      LastPartEmpty(parts);
      hide Concat;
      var buf := new Chunk(capacity);
      ghost var n := |chunks|;
      ghost var was, texts := chunks, parts + [""];
      if currentBuf != null {
        currentBuf.next := buf;
      } else {
        firstBuf := buf;
      }
      currentBuf := buf;
      chunks := was + [buf];
      parts := texts;
      forall i | 0 <= i < |chunks|
        ensures Filled(chunks, parts, i)
      {
        assert chunks[i] in chunks;
        if i < n {
          assert old(Filled(chunks, parts, i));
        }
      }
    }

    /** `write`: the characters behind everything that was written before. */
    method Write(s: string)
      requires Valid()
      modifies this, currentBuf, Memory(chunks)
      ensures Valid() && Contents() == old(Contents()) + s
    {
      Reserve(|s|);
      Put(s);
    }

    /** Copies into the room that was reserved, and advances the chunk. */
    method Put(s: string)
      requires Valid() && currentBuf != null && currentBuf.size + |s| <= currentBuf.data.Length
      modifies this`parts, currentBuf, currentBuf.data
      ensures Valid() && Contents() == old(Contents()) + s
    {
      ghost var last := |chunks| - 1;
      assert Filled(chunks, parts, last);
      Copy(currentBuf.data, currentBuf.size, s, parts[last]);
      currentBuf.size := currentBuf.size + |s|;
      ConcatLast(parts, s);
      ghost var texts := parts[last := parts[last] + s];
      forall i | 0 <= i < |chunks|
        ensures Filled(chunks, texts, i)
      {
        assert old(Filled(chunks, parts, i));
      }
      parts := texts;
    }

    /** `formatStateToString` */
    method ToString() returns (str: array<char>)
      requires Valid()
      ensures fresh(str) && Holds(str, Contents())
    {
      var size := 0;
      var buf := firstBuf;
      ghost var k := 0;
      while buf != null
        invariant k <= |chunks| && buf == ChunkAt(chunks, k) && size == |Concat(parts[..k])|
        decreases |chunks| - k
      {
        assert Filled(chunks, parts, k);
        ConcatNext(parts, k);
        size := size + buf.size;
        buf := buf.next;
        k := k + 1;
      }
      assert parts[..k] == parts;
      str := new char[size + 1];
      var copied := Join(str);
      Terminate(str, copied, Contents());
    }

    /** The second loop: every chunk behind the one before. */
    method Join(str: array<char>) returns (copied: nat)
      requires Valid() && str !in Memory(chunks) && |Contents()| <= str.Length
      modifies str
      ensures copied == |Contents()| && Starts(str, Contents())
    {
      copied := 0;
      var buf := firstBuf;
      ghost var k := 0;
      assert Starts(str, "");
      while buf != null
        invariant k <= |chunks| && buf == ChunkAt(chunks, k)
        invariant copied == |Concat(parts[..k])| && Starts(str, Concat(parts[..k]))
        modifies str
        decreases |chunks| - k
      {
        assert old(Filled(chunks, parts, k));
        ConcatNext(parts, k);
        Fits(parts, k + 1);
        Copy(str, copied, buf.data[..buf.size], Concat(parts[..k]));
        copied := copied + buf.size;
        buf := buf.next;
        k := k + 1;
      }
      assert parts[..k] == parts;
    }
  }

  lemma {:induction false} Fits(parts: seq<string>, k: nat)
    requires k <= |parts|
    ensures |Concat(parts[..k])| <= |Concat(parts)|
    decreases |parts| - k
  {
    if k == |parts| {
      assert parts[..k] == parts;
    } else {
      ConcatNext(parts, k);
      Fits(parts, k + 1);
    }
  }
}
