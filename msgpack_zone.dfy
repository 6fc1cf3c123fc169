/** The msgpack zone: one chunk list and one finalizer array, with the
    default chunk size both the first chunk and every grown chunk start from. */
module MsgpackZone {

  import opened ZoneMath
  import opened ZoneChunks
  import opened ZoneFinalizers

  /** A zone of 64-byte chunks asked for 100 bytes grows a 128-byte chunk in
      front of the first one and has 28 bytes left in it. */
  method GrowthExample() returns (chunks: seq<nat>, free: nat)
    ensures chunks == [128, 64] && free == 28
  {
    var zone := Zone.New(64, true, true);
    var p := zone.MallocExpand(100);
    assert SmallestGrowth(64, 100, 128) by {
      assert 128 == 64 * Pow2(1) && 64 * Pow2(0) < 100;
    }
    SmallestGrowthUnique(64, 100, zone.chunkList.chunks[0], 128);
    chunks, free := zone.chunkList.chunks, zone.chunkList.free;
    assert chunks == [128] + [64];
  }

  class Zone {
    var chunkSize: nat
    const chunkList: ChunkList
    const finalizerArray: FinalizerArray

    /** Both parts are consistent and the oldest chunk, the one clear keeps,
        has the default chunk size. */
    ghost predicate Valid()
      reads this, chunkList, finalizerArray
    {
      chunkList.Valid() && finalizerArray.Valid() && chunkList.Oldest() == chunkSize
    }

    /** The storage of a zone whose fields are not yet initialised. */
    constructor ()
      ensures fresh(chunkList) && fresh(finalizerArray)
      ensures chunkList.chunks == [] && chunkList.released == []
      ensures finalizerArray.arr == null && finalizerArray.calls == []
    {
      chunkSize := 0;
      chunkList := new ChunkList();
      finalizerArray := new FinalizerArray();
    }

    /** `msgpack_zone_is_empty`: nothing has been carved from the only chunk
        and no finalizer is pending, i.e. the zone is as `Init` left it. */
    function IsEmpty(): (r: bool)
      reads this, chunkList, finalizerArray
      requires Valid()
      ensures r <==> |chunkList.chunks| == 1 && chunkList.offset == 0 && finalizerArray.count == 0
    {
      chunkList.free == chunkSize && |chunkList.chunks| == 1 && finalizerArray.count == 0
    }

    /** `msgpack_zone_init`: records the chunk size, then sets up one empty
        chunk and an empty finalizer array.  When the chunk's `malloc` fails
        (`mallocOk` false) it returns 0 (false) with both parts untouched. */
    method Init(chunkSize: nat, mallocOk: bool) returns (ok: bool)
      modifies this, chunkList, finalizerArray
      ensures this.chunkSize == chunkSize && ok == mallocOk
      ensures ok ==> Valid() && IsEmpty()
      ensures ok ==> chunkList.chunks == [chunkSize] && chunkList.free == chunkSize && chunkList.offset == 0
      ensures ok ==> finalizerArray.Capacity() == 0 && finalizerArray.Pending() == []
      ensures !ok ==> unchanged(chunkList) && unchanged(finalizerArray)
      ensures chunkList.released == old(chunkList.released)
      ensures finalizerArray.calls == old(finalizerArray.calls)
    {
      this.chunkSize := chunkSize;
      ok := chunkList.Init(chunkSize, mallocOk);
      if !ok {
        return;
      }
      finalizerArray.Init();
    }

    /** `msgpack_zone_new`: allocates a zone and initialises it.  Returns null
        when the zone's own `malloc` (`zoneMallocOk`) or its first chunk's
        (`chunkMallocOk`) fails; in the second case the zone is freed again. */
    static method New(chunkSize: nat, zoneMallocOk: bool, chunkMallocOk: bool) returns (zone: Zone?)
      ensures (zone != null) == (zoneMallocOk && chunkMallocOk)
      ensures zone != null ==> fresh(zone) && fresh(zone.chunkList) && fresh(zone.finalizerArray)
      ensures zone != null ==> zone.Valid() && zone.IsEmpty() && zone.chunkSize == chunkSize
      ensures zone != null ==> zone.chunkList.chunks == [chunkSize] && zone.finalizerArray.Capacity() == 0
    {
      if !zoneMallocOk {
        return null;
      }
      zone := new Zone();
      var ok := zone.Init(chunkSize, chunkMallocOk);
      if !ok {
        return null;
      }
    }

    /** `msgpack_zone_malloc_expand`: puts a new chunk of the smallest
        capacity `chunkSize * 2^k` that holds `size` bytes in front of the
        head and returns its first byte, with the cursor just past the
        request.  The chunk's `malloc` is assumed to succeed, as the source
        does not check it; the doubling loop needs `chunkSize > 0` to end
        unless `size` is 0. */
    method MallocExpand(size: nat) returns (p: Addr)
      requires Valid() && (chunkSize > 0 || size == 0)
      modifies chunkList
      ensures Valid()
      ensures |chunkList.chunks| == |old(chunkList.chunks)| + 1
      ensures chunkList.chunks[1..] == old(chunkList.chunks)
      ensures SmallestGrowth(chunkSize, size, chunkList.chunks[0])
      ensures p == Addr(|old(chunkList.chunks)|, 0)
      ensures chunkList.offset == size && chunkList.free == chunkList.chunks[0] - size
      ensures chunkList.released == old(chunkList.released)
    {
      var sz := GrowthCapacity(chunkSize, size);
      p := Addr(|chunkList.chunks|, 0);
      chunkList.chunks := [sz] + chunkList.chunks;
      chunkList.free := sz - size;
      chunkList.offset := size;
    }

    /** `msgpack_zone_destroy`: runs the pending finalizers last to first and
        frees their storage, then frees every chunk. */
    method Destroy()
      requires Valid()
      modifies chunkList, finalizerArray
      ensures finalizerArray.calls == old(finalizerArray.calls) + FlushOrder(old(finalizerArray.Pending()))
      ensures finalizerArray.arr == null && finalizerArray.Capacity() == 0
      ensures chunkList.chunks == [] && chunkList.released == old(chunkList.released) + old(chunkList.chunks)
    {
      finalizerArray.Destroy();
      chunkList.Destroy();
    }

    /** `msgpack_zone_clear`: runs the pending finalizers last to first and
        forgets them, keeping their storage, then frees every chunk but the
        oldest, which becomes an empty head: the zone is empty again, in
        the chunk state `Init` leaves. */
    method Clear()
      requires Valid()
      modifies chunkList, finalizerArray
      ensures Valid() && IsEmpty()
      ensures finalizerArray.calls == old(finalizerArray.calls) + FlushOrder(old(finalizerArray.Pending()))
      ensures finalizerArray.arr == old(finalizerArray.arr)
      ensures finalizerArray.Capacity() == old(finalizerArray.Capacity())
      ensures chunkList.chunks == [chunkSize] && chunkList.free == chunkSize && chunkList.offset == 0
      ensures chunkList.released == old(chunkList.released) + old(chunkList.chunks)[..|old(chunkList.chunks)| - 1]
    {
      finalizerArray.Clear();
      chunkList.Clear(chunkSize);
    }

    /** `msgpack_zone_free`: nothing for a null zone; otherwise destroys the
        zone (its own storage is then released, which leaves no state). */
    static method Free(zone: Zone?)
      requires zone != null ==> zone.Valid()
      modifies if zone == null then {} else {zone.chunkList, zone.finalizerArray}
      ensures zone != null ==> zone.chunkList.chunks == []
      ensures zone != null ==> zone.chunkList.released == old(zone.chunkList.released) + old(zone.chunkList.chunks)
      ensures zone != null ==> zone.finalizerArray.Capacity() == 0
      ensures zone != null ==>
        zone.finalizerArray.calls == old(zone.finalizerArray.calls) + FlushOrder(old(zone.finalizerArray.Pending()))
    {
      if zone == null {
        return;
      }
      zone.Destroy();
    }
  }
}
