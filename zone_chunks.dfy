/** The chunk list of a msgpack zone: a bump allocator over a singly linked
    list of memory chunks, newest chunk first.

    Raw memory is abstracted away: a chunk is its data capacity in bytes, the
    list is the sequence of capacities seen by walking `next` from the head,
    and the cursor `ptr` is an offset into the head chunk's data.  A chunk
    that is freed leaves the sequence and is appended to the ghost log
    `released`, so "every chunk is freed exactly once" can be stated. */
module ZoneChunks {

  import opened ZoneMath

  /** An address handed out by the zone: a byte offset inside a chunk.
      Chunks are numbered from the oldest one (0), so an address keeps its
      meaning while newer chunks are put in front of the head. */
  datatype Addr = Addr(chunk: nat, offset: nat)

  /** `sz` is the capacity the slow allocation path must pick for a request
      of `size` bytes: the smallest `chunkSize * 2^k` holding `size` bytes. */
  ghost predicate SmallestGrowth(chunkSize: nat, size: nat, sz: nat)
  {
    exists k: nat :: sz == chunkSize * Pow2(k) && size <= sz &&
      forall j :: 0 <= j < k ==> chunkSize * Pow2(j) < size
  }

  /** The capacity the slow allocation path gives a new chunk: `chunkSize`
      doubled until it holds `size` bytes.  The loop only ends when
      `chunkSize` is positive or nothing has to be doubled. */
  method GrowthCapacity(chunkSize: nat, size: nat) returns (sz: nat)
    requires chunkSize > 0 || size == 0
    ensures SmallestGrowth(chunkSize, size, sz)
  {
    sz := chunkSize;
    ghost var k: nat := 0;
    while sz < size
      invariant sz == chunkSize * Pow2(k)
      invariant forall j :: 0 <= j < k ==> chunkSize * Pow2(j) < size
      decreases size - sz
    {
      sz, k := sz * 2, k + 1;
    }
  }

  /** Any capacity of the form `chunkSize * 2^j` that holds `size` bytes is
      at least the one the growth loop picks: no smaller chunk of the allowed
      shapes would do. */
  lemma GrowthIsLeast(chunkSize: nat, size: nat, sz: nat, j: nat)
    requires SmallestGrowth(chunkSize, size, sz)
    requires size <= chunkSize * Pow2(j)
    ensures sz <= chunkSize * Pow2(j)
  {
    var k: nat :| sz == chunkSize * Pow2(k) && size <= sz &&
      forall i :: 0 <= i < k ==> chunkSize * Pow2(i) < size;
    if j < k {
      assert false;
    }
    Pow2Monotone(k, j);
    ScaleMonotone(chunkSize, Pow2(k), Pow2(j));
  }

  /** A grown chunk is less than twice the request: at most half of it is
      left over once the request is carved. */
  lemma GrowthUnderDouble(chunkSize: nat, size: nat, sz: nat)
    requires SmallestGrowth(chunkSize, size, sz)
    ensures sz == chunkSize || sz < 2 * size
  {
    var k: nat :| sz == chunkSize * Pow2(k) && size <= sz &&
      forall i :: 0 <= i < k ==> chunkSize * Pow2(i) < size;
    if k > 0 {
      var half := chunkSize * Pow2(k - 1);
      assert half < size;
      DoubleScale(chunkSize, Pow2(k - 1));
    }
  }

  /** The capacity the slow path picks is determined by the chunk size and
      the request alone. */
  lemma SmallestGrowthUnique(chunkSize: nat, size: nat, a: nat, b: nat)
    requires SmallestGrowth(chunkSize, size, a) && SmallestGrowth(chunkSize, size, b)
    ensures a == b
  {
    var ka: nat :| a == chunkSize * Pow2(ka) && size <= a &&
      forall j :: 0 <= j < ka ==> chunkSize * Pow2(j) < size;
    var kb: nat :| b == chunkSize * Pow2(kb) && size <= b &&
      forall j :: 0 <= j < kb ==> chunkSize * Pow2(j) < size;
    GrowthIsLeast(chunkSize, size, a, kb);
    GrowthIsLeast(chunkSize, size, b, ka);
  }

  class ChunkList {
    /** Capacities of the chunks, `chunks[0]` being `head`, `chunks[i + 1]`
        the chunk that `chunks[i].next` points to. */
    var chunks: seq<nat>
    /** Bytes still unused in the head chunk (`cl->free`). */
    var free: nat
    /** Offset of `cl->ptr` from the start of the head chunk's data. */
    var offset: nat
    /** Capacities of the chunks freed so far, in the order they were freed. */
    ghost var released: seq<nat>

    /** The cursor lies inside the head chunk and `free` is the distance from
        it to the end of that chunk. */
    ghost predicate Valid()
      reads this
    {
      |chunks| >= 1 && offset + free == chunks[0]
    }

    /** The capacity of the chunk built first, the one clear keeps. */
    function Oldest(): (c: nat)
      reads this
      requires |chunks| >= 1
    {
      chunks[|chunks| - 1]
    }

    /** A chunk list struct that has not been initialised yet. */
    constructor ()
      ensures chunks == [] && released == []
    {
      chunks, free, offset := [], 0, 0;
      released := [];
    }

    /** `init_chunk_list`: one chunk of `chunkSize` bytes, empty, with no
        `next`.  `mallocOk` is the outcome of the chunk's `malloc`; when it
        fails nothing is changed and 0 (false) is returned. */
    method Init(chunkSize: nat, mallocOk: bool) returns (ok: bool)
      modifies this
      ensures ok == mallocOk
      ensures ok ==> Valid() && chunks == [chunkSize] && free == chunkSize && offset == 0
      ensures !ok ==> unchanged(this)
      ensures released == old(released)
    {
      if !mallocOk {
        return false;
      }
      chunks := [chunkSize];
      free := chunkSize;
      offset := 0;
      return true;
    }

    /** `destroy_chunk_list`: walks the list from the head and frees every
        chunk, the oldest included. */
    method Destroy()
      requires Valid()
      modifies this
      ensures chunks == [] && released == old(released) + old(chunks)
    {
      while true
        invariant |chunks| >= 1
        invariant released + chunks == old(released) + old(chunks)
        decreases |chunks|
      {
        var hasNext := |chunks| > 1;
        released := released + [chunks[0]];
        chunks := chunks[1..];
        if !hasNext {
          break;
        }
      }
    }

    /** `clear_chunk_list`, as evidently intended: frees every chunk but the
        oldest, which becomes the head again, empty.  The loop frees the
        chunk it stands on and moves to `next`; here the head moves with it,
        which the source omits (see `ClearAsWritten`). */
    method Clear(chunkSize: nat)
      requires Valid() && Oldest() == chunkSize
      modifies this
      ensures Valid() && chunks == [chunkSize] && free == chunkSize && offset == 0
      ensures released == old(released) + old(chunks)[..|old(chunks)| - 1]
    {
      while |chunks| > 1
        invariant |chunks| >= 1 && Oldest() == chunkSize
        invariant released + chunks == old(released) + old(chunks)
        decreases |chunks|
      {
        released := released + [chunks[0]];
        chunks := chunks[1..];
      }
      free := chunkSize;
      offset := 0;
      assert chunks == [chunkSize];
      ghost var kept := old(chunks)[..|old(chunks)| - 1];
      assert old(chunks) == kept + [chunkSize];
      assert released + [chunkSize] == (old(released) + kept) + [chunkSize];
      assert released == (released + [chunkSize])[..|released|];
    }
  }

  /** `clear_chunk_list` as written, over the chunks' positions counted from
      the head (0 is `cl->head`, `n - 1` the oldest chunk).  Returns the
      positions it frees, the chunk `c` the loop stops on, and the chunk
      `cl->head` still designates when lines 69-71 write its `next` and set
      the cursor into it. */
  method ClearAsWritten(n: nat) returns (freed: seq<nat>, survivor: nat, head: nat)
    requires n >= 1
    ensures head == 0 && survivor == n - 1
    ensures |freed| == n - 1 && forall i :: 0 <= i < n - 1 ==> freed[i] == i
    ensures survivor !in freed
    ensures n >= 2 ==> head in freed
  {
    head := 0;
    var c := head;
    freed := [];
    while true
      invariant 0 <= c < n && |freed| == c
      invariant forall i :: 0 <= i < c ==> freed[i] == i
      decreases n - c
    {
      if c + 1 < n {
        freed := freed + [c];
        c := c + 1;
      } else {
        break;
      }
    }
    survivor := c;
    if n >= 2 {
      assert freed[0] == head;
    }
  }
}
