/** The finalizer array of a msgpack zone: a growable array of (callback,
    data) records registered against objects living in the zone, run last
    to first when the zone is cleared or destroyed.

    Callbacks are foreign function pointers: a record keeps them as opaque
    numbers, and running one is recorded by appending the record to the
    ghost log `calls`. */
module ZoneFinalizers {

  import opened ZoneMath

  /** One `msgpack_zone_finalizer`: a callback and the data it is called with. */
  datatype Finalizer = Finalizer(func: nat, data: nat)

  /** `sizeof(msgpack_zone_finalizer)` on an LP64 target: two pointers. */
  const FinalizerSize: nat := 16

  /** The order in which a flush runs the pending records `s`: last
      registered, first run. */
  function FlushOrder(s: seq<Finalizer>): (r: seq<Finalizer>)
  {
    if s == [] then [] else FlushOrder(s[1..]) + [s[0]]
  }

  /** The k-th callback a flush runs is the k-th record counted from the end. */
  lemma {:induction false} FlushOrderAt(s: seq<Finalizer>, k: nat)
    requires k < |s|
    ensures |FlushOrder(s)| == |s| && FlushOrder(s)[k] == s[|s| - 1 - k]
  {
    FlushOrderLength(s[1..]);
    if k < |s| - 1 {
      FlushOrderAt(s[1..], k);
    }
  }

  lemma {:induction false} FlushOrderLength(s: seq<Finalizer>)
    ensures |FlushOrder(s)| == |s|
  {
    if s != [] {
      FlushOrderLength(s[1..]);
    }
  }

  /** A flush runs every pending record exactly once: the records it runs are
      a permutation of the pending ones. */
  lemma {:induction false} FlushOrderRunsEachOnce(s: seq<Finalizer>)
    ensures multiset(FlushOrder(s)) == multiset(s)
  {
    if s != [] {
      FlushOrderRunsEachOnce(s[1..]);
      assert s == [s[0]] + s[1..];
    }
  }

  /** Of two records registered in order (i before j), the later one runs
      first: it sits at an earlier position of the flush order. */
  lemma FlushOrderIsLifo(s: seq<Finalizer>, i: nat, j: nat)
    requires i < j < |s|
    ensures |FlushOrder(s)| == |s|
    ensures FlushOrder(s)[|s| - 1 - j] == s[j] && FlushOrder(s)[|s| - 1 - i] == s[i]
    ensures |s| - 1 - j < |s| - 1 - i
  {
    FlushOrderAt(s, |s| - 1 - j);
    FlushOrderAt(s, |s| - 1 - i);
  }

  /** The capacity `msgpack_zone_push_finalizer_expand` grows a full array
      of `nused` slots to, for records of `recordSize` bytes: a first array
      takes `72 / recordSize` records when a record is smaller than 36 bytes
      (half of 72), eight otherwise; afterwards the capacity doubles. */
  function GrownCapacity(nused: nat, recordSize: nat): (r: nat)
    requires recordSize > 0
    ensures r > nused && r >= 2
    ensures nused > 0 ==> r == 2 * nused
    ensures nused == 0 && recordSize < 72 / 2 ==> r * recordSize <= 72 < (r + 1) * recordSize
    ensures nused == 0 && recordSize >= 72 / 2 ==> r == 8
  {
    if nused == 0 then
      (if recordSize < 72 / 2 then 72 / recordSize else 8)
    else
      nused * 2
  }

  /** The capacity after `m` growths of an array that started without storage. */
  function CapacityAfter(m: nat, recordSize: nat): nat
    requires recordSize > 0
  {
    if m == 0 then 0 else GrownCapacity(CapacityAfter(m - 1, recordSize), recordSize)
  }

  /** Geometric growth: after `m >= 1` growths the capacity is the first
      capacity times 2^(m-1), so `m` reallocations serve exponentially many
      registrations. */
  lemma {:induction false} CapacityAfterGrowths(m: nat, recordSize: nat)
    requires recordSize > 0 && m >= 1
    ensures CapacityAfter(m, recordSize) == GrownCapacity(0, recordSize) * Pow2(m - 1)
  {
    if m > 1 {
      var prev := CapacityAfter(m - 1, recordSize);
      CapacityAfterGrowths(m - 1, recordSize);
      assert prev == GrownCapacity(0, recordSize) * Pow2(m - 2);
      assert prev > 0;
      assert CapacityAfter(m, recordSize) == 2 * prev;
      DoubleScale(GrownCapacity(0, recordSize), Pow2(m - 2));
    }
  }

  class FinalizerArray {
    /** The storage `fa->array`, null before the first growth; its length is
        the capacity (`fa->end - fa->array`). */
    var arr: array?<Finalizer>
    /** Records pending (`fa->tail - fa->array`). */
    var count: nat
    /** Every callback run so far, in the order it was run. */
    ghost var calls: seq<Finalizer>

    ghost predicate Valid()
      reads this
    {
      count <= Capacity()
    }

    function Capacity(): (c: nat)
      reads this
    {
      if arr == null then 0 else arr.Length
    }

    /** The records registered and not yet run, in registration order. */
    ghost function Pending(): (s: seq<Finalizer>)
      reads this, arr
      requires Valid()
    {
      if arr == null then [] else arr[..count]
    }

    /** A finalizer array struct that has not been initialised yet. */
    constructor ()
      ensures arr == null && count == 0 && calls == []
    {
      arr, count := null, 0;
      calls := [];
    }

    /** `init_finalizer_array`: no storage and nothing pending. */
    method Init()
      modifies this
      ensures Valid() && arr == null && Capacity() == 0 && Pending() == []
      ensures calls == old(calls)
    {
      arr, count := null, 0;
    }

    /** `call_finalizer_array`: runs every pending record, from the last
        registered down to the first; the records stay where they are. */
    method CallAll()
      requires Valid()
      modifies this`calls
      ensures calls == old(calls) + FlushOrder(Pending())
    {
      if arr == null {
        return;
      }
      var fin := count;
      while fin != 0
        invariant 0 <= fin <= count
        invariant calls == old(calls) + FlushOrder(arr[fin..count])
      {
        assert arr[fin - 1..count][1..] == arr[fin..count];
        calls := calls + [arr[fin - 1]];
        fin := fin - 1;
      }
    }

    /** `destroy_finalizer_array`: runs the pending records, then frees the
        storage; afterwards no storage is reachable. */
    method Destroy()
      requires Valid()
      modifies this
      ensures Valid() && arr == null && Capacity() == 0 && Pending() == []
      ensures calls == old(calls) + FlushOrder(old(Pending()))
    {
      CallAll();
      arr, count := null, 0;
    }

    /** `clear_finalizer_array`: runs the pending records, then forgets them
        while keeping the storage for reuse. */
    method Clear()
      requires Valid()
      modifies this
      ensures Valid() && arr == old(arr) && Capacity() == old(Capacity()) && Pending() == []
      ensures calls == old(calls) + FlushOrder(old(Pending()))
    {
      CallAll();
      count := 0;
    }

    /** `msgpack_zone_push_finalizer_expand`, called when the array is full:
        grows the storage by `GrownCapacity` and appends the record at the
        old capacity.  `reallocOk` is the outcome of `realloc`; when it fails
        the array is left as it was and 0 (false) is returned. */
    method PushExpand(func: nat, data: nat, reallocOk: bool) returns (ok: bool)
      requires Valid() && count == Capacity()
      modifies this
      ensures Valid() && ok == reallocOk && calls == old(calls)
      ensures ok ==> Capacity() == GrownCapacity(old(Capacity()), FinalizerSize)
      ensures ok ==> Pending() == old(Pending()) + [Finalizer(func, data)]
      ensures ok ==> arr != null && arr[old(Capacity())] == Finalizer(func, data) && count == old(count) + 1
      ensures !ok ==> arr == old(arr) && count == old(count)
    {
      var nused := Capacity();
      var nnext := GrownCapacity(nused, FinalizerSize);
      if !reallocOk {
        return false;
      }
      var tmp := new Finalizer[nnext];
      if arr != null {
        forall i | 0 <= i < nused {
          tmp[i] := arr[i];
        }
      }
      arr := tmp;
      count := nused;
      arr[count] := Finalizer(func, data);
      count := count + 1;
      return true;
    }
  }
}
