# msgpack-c memory zone, modelled in Dafny

msgpack-c builds unpacked objects inside a memory pool called a *zone*
(`src/zone.c`). A zone has two parts:

- a **chunk list**: a bump allocator. Requests are carved from the newest chunk (the head), and a new chunk is put in front of the head when the head is too small;
- a **finalizer array**: a growable array of (callback, data) records, run last to first when the zone is cleared or destroyed.

The model has one Dafny module per part and one for the facade:

- `ZoneChunks` (`zone_chunks.dfy`): class `ChunkList`. The list of chunks is a `seq<nat>` of capacities, head first, in the order the `next` links are walked. `free` is `cl->free`. `offset` is the cursor `cl->ptr` measured from the start of the head's data. The invariant is `offset + free == chunks[0]`. Freeing a chunk removes it from the sequence and appends it to the ghost log `released`. The doubling loop of the slow allocation path is the method `GrowthCapacity`.
- `ZoneFinalizers` (`zone_finalizers.dfy`): class `FinalizerArray`. It holds a nullable `array<Finalizer>`, with `null` standing for `fa->array == NULL`; its length is the capacity (`fa->end`). `count` stands for `fa->tail`. Running a callback appends its record to the ghost log `calls`. `FlushOrder` is the order a flush runs the pending records in, with lemmas that it is last-in-first-out and runs each record exactly once.
- `MsgpackZone` (`msgpack_zone.dfy`): class `Zone`, holding the default `chunkSize` and one part of each kind. Its invariant adds that the oldest chunk has `chunkSize` bytes.
- `ZoneMath` (`zone_math.dfy`): powers of two, used by both growth policies.

Addresses returned by the zone are `Addr(chunk, offset)`. Chunks are numbered from the oldest (0), so an address stays meaningful while newer chunks are added.

The outcomes of `malloc` and `realloc` are boolean parameters (`mallocOk`, `zoneMallocOk`, `chunkMallocOk`, `reallocOk`). `msgpack_zone_malloc_expand` does not check its `malloc`, so `MallocExpand` has no failure outcome.

## Model

| member | source | states |
|---|---|---|
| `ZoneChunks.GrowthCapacity` | src/zone.c:77-83 | the new chunk's capacity is `chunkSize * 2^k` with `k` the least exponent whose chunk holds `size` bytes; the loop needs `chunkSize > 0` unless `size == 0` |
| `ZoneChunks.GrowthIsLeast` | src/zone.c:81-83 | no chunk of the form `chunkSize * 2^j` that holds the request is smaller than the one picked |
| `ZoneChunks.GrowthUnderDouble` | src/zone.c:81-83 | a grown chunk (one larger than `chunkSize`) is less than twice the request |
| `ZoneChunks.SmallestGrowthUnique` | src/zone.c:81-83 | the capacity picked by the slow path is determined by `chunkSize` and `size` alone |
| `MsgpackZone.GrowthExample` | src/zone.c:81-94 | a zone of 64-byte chunks asked for 100 bytes has chunks `[128, 64]` and 28 bytes free |
| `ZoneChunks.ChunkList.Init` | src/zone.c:27-41 | on success there is one chunk of `chunkSize` bytes with no `next`, `free == chunkSize` and the cursor at offset 0; on a failed `malloc` it returns false and changes nothing |
| `ZoneChunks.ChunkList.Destroy` | src/zone.c:43-55 | every chunk is freed exactly once, head first, the oldest included, and none remains |
| `ZoneChunks.ChunkList.Clear` | src/zone.c:57-72 | every chunk but the oldest is freed exactly once, head first; the oldest becomes the head with `free == chunkSize` and offset 0 (the intended behaviour, see Findings) |
| `ZoneChunks.ClearAsWritten` | src/zone.c:57-72 | as written, the loop frees positions `0 .. n-2` and stops on the oldest, but `cl->head` still designates position 0, so with two or more chunks line 69 writes `next` into a freed chunk and line 71 puts the cursor into it, while the oldest chunk is lost |
| `ZoneFinalizers.FlushOrderAt` | src/zone.c:105-111 | the k-th callback run by a flush is the k-th pending record counted from the last |
| `ZoneFinalizers.FlushOrderIsLifo` | src/zone.c:105-111 | of two records registered one after the other, the later one sits at an earlier position of the flush order, so it runs first |
| `ZoneFinalizers.FlushOrderRunsEachOnce` | src/zone.c:105-111 | the callbacks a flush runs are a permutation of the pending records: each runs exactly once |
| `ZoneFinalizers.GrownCapacity` | src/zone.c:132-139 | the first array holds `72 / recordSize` records when the record is smaller than 36 bytes (half of 72), else 8; later growths double; the capacity always strictly grows |
| `ZoneFinalizers.CapacityAfterGrowths` | src/zone.c:132-139 | after `m >= 1` growths from no storage the capacity is the first capacity times `2^(m-1)` |
| `ZoneFinalizers.FinalizerArray.Init` | src/zone.c:98-103 | no storage, capacity 0, nothing pending |
| `ZoneFinalizers.FinalizerArray.CallAll` | src/zone.c:105-111 | the run log grows by exactly the pending records in flush order (last registered first); the records themselves are not touched |
| `ZoneFinalizers.FinalizerArray.Destroy` | src/zone.c:113-117 | the pending records are run in flush order, then no storage remains |
| `ZoneFinalizers.FinalizerArray.Clear` | src/zone.c:119-123 | the pending records are run in flush order, then none is pending; the storage and capacity are kept |
| `ZoneFinalizers.FinalizerArray.PushExpand` | src/zone.c:125-157 | on a full array: on success the capacity follows the growth policy, the old records keep their order, and the new record sits at the old capacity with the count one higher; on a failed `realloc` it returns false with the array unchanged |
| `MsgpackZone.Zone.IsEmpty` | src/zone.c:160-166 | true exactly when there is one chunk, nothing has been carved from it, and no finalizer is pending |
| `MsgpackZone.Zone.Init` | src/zone.c:181-192 | records the chunk size; on success the zone is empty with one chunk of `chunkSize` bytes and no finalizer storage; on a failed chunk `malloc` it returns false with both parts untouched |
| `MsgpackZone.Zone.New` | src/zone.c:194-212 | returns a fresh, empty, initialised zone exactly when both the zone's and the first chunk's `malloc` succeed, and null otherwise |
| `MsgpackZone.Zone.MallocExpand` | src/zone.c:74-95 | a chunk of the smallest `chunkSize * 2^k` holding `size` bytes goes in front of the head, and the older chunks are unchanged; the result is offset 0 of that chunk; the cursor is at `size` and `free` is the capacity minus `size`, so the invariant holds again |
| `MsgpackZone.Zone.Destroy` | src/zone.c:169-173 | the pending finalizers run in flush order and their storage is freed; then every chunk is freed exactly once |
| `MsgpackZone.Zone.Clear` | src/zone.c:175-179 | the pending finalizers run in flush order and the array's capacity is kept; all chunks but the oldest are freed; the zone is empty, in the same chunk state `Init` leaves |
| `MsgpackZone.Zone.Free` | src/zone.c:214-219 | does nothing for a null zone; otherwise it destroys the zone as `Destroy` does |

## Findings

| source | as written | input that shows it | evidently intended | confidence | as-written member | corrected member |
|---|---|---|---|---|---|---|
| src/zone.c:59-71 | the loop frees the chunk `c` and steps to `next` but never stores the survivor in `cl->head`; line 69 then writes `cl->head->next` and line 71 puts the cursor in `cl->head`, which is freed whenever there were two or more chunks; the surviving oldest chunk is lost | `msgpack_zone_init`, one `msgpack_zone_malloc_expand`, then `msgpack_zone_clear` (two chunks) | the oldest chunk becomes the head, with `free == chunk_size` and the cursor at its start | high (not executed) | `ZoneChunks.ClearAsWritten` | `ZoneChunks.ChunkList.Clear` |

## Left out

- The inline fast paths `msgpack_zone_malloc` and `msgpack_zone_push_finalizer` are defined in `msgpack/zone.h`, which is not part of this model. Only the slow paths in `zone.c` are modelled. `PushExpand` therefore requires a full array (`count == capacity`), as its callers guarantee. Line 149 writes at the old capacity, not at the old count.
- Raw memory is not modelled: `malloc`, `realloc` and `free`, pointer values, and the `sizeof(msgpack_zone_chunk)` header in front of each chunk. Chunks are capacities, cursors are offsets, and "freed" means removed from the chunk sequence.
- Callbacks are foreign function pointers and are not run. A run is recorded in the ghost log `calls`.
- The growth policy is stated for any record size. The array itself uses `FinalizerSize = 16`, the size of two pointers on LP64, which gives a first capacity of 4.
- `ZoneChunks.GrowthCapacity`: `size_t` overflow of `sz *= 2` and of `sizeof(chunk) + sz` is not modelled. Sizes are unbounded `nat`.
- `ZoneFinalizers.GrownCapacity`: `size_t` overflow of `nused * 2` (line 138) and of `sizeof(msgpack_zone_finalizer) * nnext` (line 142) is not modelled either. Capacities are unbounded `nat`.
- `MsgpackZone.Zone.MallocExpand`: it has no out-of-memory outcome, because the source does not check the chunk's `malloc`.
- `MsgpackZone.Zone.Clear`: the finalizer log and the chunk log are separate. So "finalizers run before the chunk list is reset" is shown by the method body, not by a postcondition.
- `MsgpackZone.Zone.Destroy`: for the same reason, "finalizers run before any chunk is freed" is shown by the method body, not by a postcondition.
- `ZoneFinalizers.FinalizerArray.Destroy`: after `free(fa->array)`, the model sets the array to null and the count to 0. The C struct instead keeps its dangling pointers, and the zone is not used again.
- `MsgpackZone.Zone.Free` and `MsgpackZone.Zone.New`: the zone's own storage has no state in the model, so freeing it adds nothing beyond `Destroy`. `msgpack_zone_new` allocates `chunk_size` extra bytes that are never used; the model leaves them out.
- `MsgpackZone.Zone.constructor` stands for a zone struct the caller has declared but not yet initialised. There is no concurrency to model: the zone is single-threaded.
