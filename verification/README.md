# Verified algorithms of a kernel backport layer

This project models seven self-contained algorithms of the backport layer in Dafny and proves what
they are for. Every `.dfy` file is checked together: `dafny verify dfyconfig.toml`. `Common` holds what
they share.

- **Resizable hash table** (`RhashModel`, `RhashInvariant`, `RhashSteps`, `RhashWorker`,
  `RhashTheorems`, `RhashProgress`). Inserters (fast and slow path), removers, one rehash worker and lock-free readers
  interleave. A reader step is one pointer read; the worker's move of an entry is three steps, one per
  pointer store; a writer step is what happens between two points at which another thread can
  interfere. Hash functions, table sizes and lock counts per table, load heuristics, allocation
  failures and the moment at which a new table is attached are arbitrary. Memory is sequentially
  consistent, and a removed object is not inserted again before its grace period ends.
- **Nested bucket tables** (`Nested`). Pages are kept in the order of their allocation. Shifts and
  masks by powers of two are written as quotients and remainders; `(i << shifted) | nhash` is a sum,
  because `nhash` is below `2^shifted` (`WayNumber`).
- **XArray** (`XArrayTree`, `XArraySteps`, `XArrayMarks`, `XArrayGrow`, `XArrayPrune`, `XArrayWalk`,
  `XArrayFind`, `XArrayCanon`, `XArray`, `XArrayHistory`). The class keeps the nodes in a map from places to nodes. A
  place is a level (shift / 6) and the index bits above it; a node keeps its place from allocation to
  being freed, so this only renames pointers, and parent pointers, offsets, slots, counts and mark
  bits are fields that the operations update as the source does. Single-index entries under the lock.
  Indices are unbounded: the wrap the source minds at the top of `unsigned long` does not occur.
  Allocation may fail at any node.
- **LZMA2 decoder** (`LzmaRange`, `LzmaSymbol`, `LzmaBound`, `LzmaDict`, `LzmaMachine`, `LzmaLocal`,
  `LzmaDecoder`, `LzmaChunk`, `LzmaWhole`, `Lzma2`, `Lzma2Spec`, `Lzma2Stream`; `LzmaFormat`, `LzmaTrack`,
  `LzmaRoundTrip`, `LzmaAccepted`, `Lzma2Format`, `Lzma2RoundTrip`), the filter of section
  5.3.1 of the .xz file format. `LzmaMachine` decodes symbols on an unbounded history; `Lzma2Spec` says
  what a stream stands for as a function of its bytes (`StreamOf`), each chunk decoded in one piece;
  the classes do it with the circular dictionary, the shared probability array, the temporary buffer
  and the caller's buffers, over any number of calls, and are proved to agree with both. After an error
  the decoder is not called again. `LzmaFormat` and `Lzma2Format` are the writer's side, which the
  repository does not have and which takes nothing from the decoder: symbols, the binary choices that
  stand for them, a range coder that keeps the whole interval as unbounded integers, blocks and their
  headers. Decoder and writer are each other's inverse (`StreamRoundTrip`, `OnlyWritten`).
- **FQ-CoDel** (`FqCodel`, `FqFairness`), deficit round robin as in sections 4.1 and 4.2 of RFC 8290.
  CoDel itself is any procedure that drops some packets from the head of a flow and returns the next
  one, or nothing only if the flow is empty.
- **kfifo** (`KfifoRing`, `Kfifo`), elements and records.
- **Flow offload life cycle** (`Offload`). Each work handler, each gc step and each lookup with its
  refresh is one step; the handler's last store to the flow therefore comes before any gc step that
  sees HW_DEAD.
- **CRC-32** (`Crc32`), clause 3.2.9 of IEEE 802.3-2018.

## Where the code does not do what one would expect

- Reserving entry 0 of an empty XArray that tracks free entries and treats 0 as busy puts a node full
  of free entries under a root whose free mark is clear; when the tree next grows those entries are
  hidden from allocation. `Hazard` is the exact condition (`Store`, `AddTopOk`), and
  `ReservedZeroHidesFree` shows it happen.
- Erasing entry 0 of such an array makes it free (`XaErase` says exactly when, `ErasedZeroIsFree`).
- The tree is not told by its contents alone. Reserving entry 0 of an empty array puts it in a node of its
  own, where it stays until another index is stored or it is erased (`MakesTall`, `ReservedTwoShapes`). In
  a zero-busy array slot 0 holds a reserved entry when the tree grew from nothing, and nothing when entry 0
  was erased later (`With`, `ZeroBusyTwoShapes`). `SameTreeIff` says that there is no other difference,
  and `HistoryFree` that otherwise the tree does not depend on the history.
- A search that continues from a cursor left on an empty slot above the leaves passes over the rest of
  that slot; with the free mark those are free indices (`PassedOver`).
- A direct bit halves an odd range downwards and can leave the code at the new range; that is so exactly
  for the last value of the range (`DirectPicksHalf`, `DirectDropsLast`).
- The comment on `is_rep0_long` (xz_dec_lzma2.c, lines 181 to 185) says that a one means a single byte; the
  code takes a zero for that, and the model follows the code (`ShortRepReads`).
- The decoder does not look at the first initial byte of a chunk (`FirstIgnored`) and therefore accepts
  data that no writer makes; `OnlyWritten` says exactly when accepted data are a writer's.
- A record longer than its header can say is accepted by `__kfifo_in_r` and then read back wrongly
  (`InR`, `LongRecordIsLost`); `__kfifo_skip_r` on an empty fifo moves `out` past `in` (`SkipR`).
- The dictionary's documented `pos <= limit` holds while LZMA decoding runs; an uncompressed chunk moves
  `pos` and not `limit` (`Uncompressed`). `LimitKept` says exactly when it survives, and after a reset it
  does only for multiples of the dictionary size (`ResetThenCopy`).

## Model

| member | source | states |
|---|---|---|
| `RhashTheorems.LookupNeverMisses` | mlnx-ofed-kernel-5.4/include/linux/rhashtable.h:1479-1510 | under every interleaving of pointer reads and stores, a lookup during which an element with the key stays in the table returns an element with that key |
| `RhashTheorems.LookupReturnsLive` | mlnx-ofed-kernel-5.4/include/linux/rhashtable.h:1479-1510 | every node a lookup dereferences, and the one it returns, was in the table at some moment of that same call |
| `RhashTheorems.QuiescentLookup` | mlnx-ofed-kernel-5.4/include/linux/rhashtable.h:1479-1510 | while the set of elements stays the same, whatever rehashing goes on, a lookup returns an element with the key if and only if there is one |
| `RhashTheorems.PointersGivePlace` | mlnx-ofed-kernel-5.4/compat/rhashtable.c:1473-1583 | in every reachable state without a half-moved entry, following pointers from a bucket reaches exactly the elements placed in that table whose hash selects that bucket; nothing is reached from tables before ht->tbl or from buckets already rehashed |
| `RhashTheorems.TablesFormChain` | mlnx-ofed-kernel-5.4/compat/rhashtable.c:1531-1583 | the tables in use are one chain by future_tbl, and only a table with a successor is being rehashed |
| `RhashTheorems.RemoveFindsPresent` | mlnx-ofed-kernel-5.4/include/linux/rhashtable.h:1867-1966 | a removal that ends without finding its object ends in a state in which the object is not in the table |
| `RhashTheorems.RemoveOutcome` | mlnx-ofed-kernel-5.4/include/linux/rhashtable.h:1938-1966 | a removal call, whatever happens beside it, ends in a step that takes exactly the object out if it reports success, and otherwise in a step that changes nothing while the object is not in the table |
| `RhashTheorems.OnlyRemovedLeaves` | mlnx-ofed-kernel-5.4/include/linux/rhashtable.h:1867-1936 | an element leaves the table only at the step at which a call to remove it reports success |
| `RhashProgress.RehashEnds` | mlnx-ofed-kernel-5.4/compat/rhashtable.c:1554-1583 | from every reachable state without locks held by others the rehash worker alone comes to its end, and then the last table is in use and every element is in it |
| `RhashProgress.WorkerAdvances` | mlnx-ofed-kernel-5.4/compat/rhashtable.c:1473-1583 | every step of the worker lessens what is left to do and keeps the set of elements |
| `RhashProgress.OthersDoNotHinder` | mlnx-ofed-kernel-5.4/compat/rhashtable.c:1473-1583 | no step of another thread but attaching a new table gives the worker more to do |
| `RhashProgress.InsertEnds` | mlnx-ofed-kernel-5.4/compat/rhashtable.c:1838-1890 | an insertion left alone ends: it has put the object in, unless it is keyed and an element has the key, and then it names one; it does not fail |
| `RhashProgress.InsertAdvances` | mlnx-ofed-kernel-5.4/compat/rhashtable.c:1740-1890 | every step of an insertion that does not give up brings it closer to its end, and does not end it in failure |
| `RhashProgress.RemovalEnds` | mlnx-ofed-kernel-5.4/include/linux/rhashtable.h:1938-1966 | a removal left alone ends, and has taken the object out if and only if it was an element |
| `RhashProgress.LookupEnds` | mlnx-ofed-kernel-5.4/include/linux/rhashtable.h:1479-1510 | a lookup left alone ends, with an element of the key if and only if there is one |
| `RhashTheorems.NoEqualKeys` | mlnx-ofed-kernel-5.4/compat/rhashtable.c:1740-1890 | if all inserts are keyed, no run of fast and slow inserters, removers and the rehash worker ever has two elements with equal keys |
| `RhashTheorems.RunInv` | mlnx-ofed-kernel-5.4/compat/rhashtable.c:1473-1890 | the invariant of memory, locks, inserters, removers and readers holds in every state of every run |
| `RhashWorker.StepInv` | mlnx-ofed-kernel-5.4/compat/rhashtable.c:1473-1890 | each of the 25 kinds of step keeps the invariant |
| `RhashInvariant.ChainUnique` | mlnx-ofed-kernel-5.4/compat/rhashtable.c:1484-1492 | a chain of pointers that ends in a nulls marker is determined by its head |
| `RhashInvariant.LockedChain` | mlnx-ofed-kernel-5.4/compat/rhashtable.c:1740-1789 | what a writer sees when it walks a locked bucket is the bucket's contents |
| `RhashInvariant.NextInTable` | mlnx-ofed-kernel-5.4/include/linux/rhashtable.h:1479-1510 | from an element a reader only comes to elements |
| `RhashSteps.SameKeyConflict` | mlnx-ofed-kernel-5.4/compat/rhashtable.c:1838-1890 | two inserters of equal keys cannot both be past taking the lock of the oldest bucket not yet rehashed |
| `RhashSteps.WorkerConflict` | mlnx-ofed-kernel-5.4/compat/rhashtable.c:1473-1529 | the worker does not touch a bucket an inserter has locked |
| `RhashSteps.FastLockInv` | mlnx-ofed-kernel-5.4/include/linux/rhashtable.h:1606-1616 | locking and testing future_tbl on the fast path keeps the invariant |
| `RhashSteps.FastLookupInv` | mlnx-ofed-kernel-5.4/include/linux/rhashtable.h:1624-1688 | the fast path's check for an equal key, and linking, keep the invariant |
| `RhashSteps.SeekLockInv` | mlnx-ofed-kernel-5.4/compat/rhashtable.c:1847-1862 | looking for the oldest table whose bucket is not yet rehashed keeps the invariant |
| `RhashTheorems.SeekFindsTable` | mlnx-ofed-kernel-5.4/compat/rhashtable.c:1847-1862 | in every reachable state that search has such a bucket or a next table to go to: it never runs off the chain |
| `RhashTheorems.InsertOutcome` | mlnx-ofed-kernel-5.4/compat/rhashtable.c:1838-1890 | at the step that decides an insertion: Inserted adds exactly the object, which was not in the table, and no element had its key if keyed; Exists names an element with that key and changes nothing; a failure changes nothing |
| `RhashTheorems.InsertCallOutcome` | mlnx-ofed-kernel-5.4/include/linux/rhashtable.h:1588-1701 | the same over a whole call, from its first step: the step that ends it does what the result says |
| `RhashTheorems.OnlyInsertedEnters` | mlnx-ofed-kernel-5.4/compat/rhashtable.c:1819-1829 | an object gets into the table only at a step whose outcome is Inserted |
| `RhashSteps.LookupInv` | mlnx-ofed-kernel-5.4/compat/rhashtable.c:1740-1789 | the slow path's check for an equal key keeps the invariant: no element of the table has the key when it finds none |
| `RhashSteps.TestFutureInv` | mlnx-ofed-kernel-5.4/compat/rhashtable.c:1806-1808 | reading future_tbl under the bucket lock keeps the invariant |
| `RhashSteps.LinkInv` | mlnx-ofed-kernel-5.4/compat/rhashtable.c:1819-1829 | linking a new element keeps the invariant |
| `RhashSteps.RemoveOneInv` | mlnx-ofed-kernel-5.4/include/linux/rhashtable.h:1878-1926 | unlinking, and the start of the grace period, keep the invariant |
| `RhashSteps.ReadCursorInv` | mlnx-ofed-kernel-5.4/include/linux/rhashtable.h:1494-1500 | following one pointer keeps a reader on elements or on removed nodes whose grace period waits for it |
| `RhashWorker.AttachInv` | mlnx-ofed-kernel-5.4/compat/rhashtable.c:1531-1552 | attaching a new table at any moment keeps the invariant |
| `RhashWorker.WorkerStoreNextInv` | mlnx-ofed-kernel-5.4/compat/rhashtable.c:1484-1505 | storing the next pointer of the last entry of the old chain keeps the invariant |
| `RhashWorker.WorkerStoreHeadInv` | mlnx-ofed-kernel-5.4/compat/rhashtable.c:1507-1508 | publishing the entry in the new bucket moves it there |
| `RhashWorker.WorkerUnlinkInv` | mlnx-ofed-kernel-5.4/compat/rhashtable.c:1510-1510 | cutting the entry off the old chain keeps the invariant |
| `RhashWorker.WorkerEmptyInv` | mlnx-ofed-kernel-5.4/compat/rhashtable.c:1516-1529 | a bucket found empty may be counted as rehashed |
| `RhashWorker.WorkerPublishInv` | mlnx-ofed-kernel-5.4/compat/rhashtable.c:1565-1569 | ht->tbl may move on when every bucket is rehashed |
| `Nested.RoundTrip` | mlnx-ofed-kernel-5.4/compat/rhashtable.c:1260-1325 | for every power-of-two size and hash below it, the indices on the way down and the last slot read back the hash, and the last slot is inside its page |
| `Nested.DistinctSlots` | mlnx-ofed-kernel-5.4/compat/rhashtable.c:1260-1325 | distinct hashes below the size lead to distinct slots |
| `Nested.NestIs` | mlnx-ofed-kernel-5.4/compat/rhashtable.c:240-240 | nest is between 1 and the bits of a page index, and what is left of the hash is a whole number of page indices, at least one |
| `Nested.Table.Lookup` | mlnx-ofed-kernel-5.4/compat/rhashtable.c:1260-1288 | finds the slot of the hash if and only if its page exists; the slot is the one Insert makes and its marker is the hash |
| `Nested.Table.Insert` | mlnx-ofed-kernel-5.4/compat/rhashtable.c:1291-1325 | walks to the same slot, adding pages as needed and moving none |
| `Nested.Table.Alloc` | mlnx-ofed-kernel-5.4/compat/rhashtable.c:192-215 | a page below a slot, new or old; pages on the last level get the marker of each bucket's own number |
| `Nested.Table.constructor` | mlnx-ofed-kernel-5.4/compat/rhashtable.c:217-243 | the root page alone |
| `XArray.XArr.XaStore` | mlnx-ofed-kernel-5.4/compat/xarray.c:1466-1483 | returns the old entry, a reserved one as absent; afterwards index i holds the new entry and every other index its old one; marks of other indices stay; free marks stay exact; the form of the tree and what slot 0 holds are told; out of memory changes nothing |
| `XArray.XArr.XaErase` | mlnx-ofed-kernel-5.4/compat/xarray.c:1420-1424 | returns the old entry, a reserved one as absent; afterwards index i is absent with default marks and nothing else differs; the free marks stay those of the absent entries if and only if it was not entry 0 of a zero-busy array |
| `XArray.XArr.XaInsert` | mlnx-ofed-kernel-5.4/compat/xarray.c:1569-1591 | -EBUSY if and only if an entry, even a reserved one, is present; otherwise like a store |
| `XArray.XArr.XaAlloc` | mlnx-ofed-kernel-5.4/compat/xarray.c:1698-1723 | the least free index within the limits, or -EBUSY if and only if there is none |
| `XArray.XArr.XaLoad` | mlnx-ofed-kernel-5.4/compat/xarray.c:1382-1396 | the entry at the index, reserved entries read as absent |
| `XArray.XArr.XaSetMark` | mlnx-ofed-kernel-5.4/compat/xarray.c:1786-1793 | sets the mark of a present entry and no other; the form of the tree stays |
| `XArray.XArr.XaClearMark` | mlnx-ofed-kernel-5.4/compat/xarray.c:1804-1811 | clears the mark of a present entry and no other; the form of the tree stays |
| `XArray.XArr.Store` | mlnx-ofed-kernel-5.4/compat/xarray.c:853-924 | stores or erases through expansion, creation, cascading deletion and shrinking: only index i changes, counts stay exact, the marks come out right if and only if the case of Hazard is not met, and the tree comes out canonical, or tall, exactly as MakesTall says |
| `XArray.XArr.StoreEntry` | mlnx-ofed-kernel-5.4/compat/xarray.c:853-924 | a store of an entry |
| `XArray.XArr.StoreNull` | mlnx-ofed-kernel-5.4/compat/xarray.c:853-924 | an erase: marks first, then the slot, then nodes |
| `XArray.XArr.Write` | mlnx-ofed-kernel-5.4/compat/xarray.c:897-922 | a slot and the counts of its node |
| `XArray.XArr.Load` | mlnx-ofed-kernel-5.4/compat/xarray.c:245-311 | returns the entry of the index and leaves the cursor as far down as the tree goes |
| `XArray.XArr.Expand` | mlnx-ofed-kernel-5.4/compat/xarray.c:639-704 | adds levels until the index is in reach and no more; contents and marks stay |
| `XArray.XArr.AddLevel` | mlnx-ofed-kernel-5.4/compat/xarray.c:658-700 | one level on top, the aggregated marks with it |
| `XArray.XArr.Create` | mlnx-ofed-kernel-5.4/compat/xarray.c:719-773 | makes the slot of an index without changing contents; marks stay right unless Hazard |
| `XArray.XArr.AllocUnder` | mlnx-ofed-kernel-5.4/compat/xarray.c:439-477 | a new empty node under a slot |
| `XArray.XArr.ShrinkHead` | mlnx-ofed-kernel-5.4/compat/xarray.c:517-552 | takes the head off while its only entry is its first; contents and marks stay |
| `XArray.XArr.DeleteNode` | mlnx-ofed-kernel-5.4/compat/xarray.c:561-592 | empty nodes go, from a leaf up; contents and marks stay |
| `XArray.XArr.SetMark` | mlnx-ofed-kernel-5.4/compat/xarray.c:954-971 | sets one mark of one index, and the bits above stay exact despite the early exit |
| `XArray.XArr.ClearMark` | mlnx-ofed-kernel-5.4/compat/xarray.c:983-1003 | clears one mark of one index, and the bits above stay exact despite the early exits |
| `XArray.XArr.InitMarks` | mlnx-ofed-kernel-5.4/compat/xarray.c:1017-1030 | all marks of one index become those of an absent entry |
| `XArray.XArr.FindMarked` | mlnx-ofed-kernel-5.4/compat/xarray.c:1234-1310 | the least marked index from the start of the search on; past the end of the tree otherwise, or none up to the maximum. A walked cursor starts the search behind its slot, on whatever level that is |
| `XArrayFind.PassedOver` | mlnx-ofed-kernel-5.4/compat/xarray.c:1234-1310 | behind a leaf slot that is the next index; behind an empty slot higher up, indices are passed over, and a marked one is among them if and only if the mark is the free mark and the slot has an index left |
| `XArray.WalkPassesFree` | mlnx-ofed-kernel-5.4/compat/xarray.c:1234-1310 | such a case: index 64 alone is stored, a walk to index 0 stops at the head, and a search for free indices from there passes over 1 to 63 |
| `XArray.XArr.constructor` | mlnx-ofed-kernel-5.4/compat/xarray.c:122-142 | an empty array, which is canonical; entry 0 starts free unless zero-busy |
| `XArrayFind.NextBit` | mlnx-ofed-kernel-5.4/compat/xarray.c:1282-1282 | the next set mark bit of a node, or 64 |
| `XArrayFind.MarksExact` | mlnx-ofed-kernel-5.4/compat/xarray.c:672-685 | a mark bit of a node is set if and only if some index below it has the mark |
| `XArrayFind.ClearBelow` | mlnx-ofed-kernel-5.4/compat/xarray.c:1234-1310 | below a clear bit nothing is marked, so skipping it misses nothing |
| `XArrayFind.SetBelow` | mlnx-ofed-kernel-5.4/compat/xarray.c:1234-1310 | below a set bit something is marked |
| `XArrayFind.MoveOn` | mlnx-ofed-kernel-5.4/compat/xarray.c:219-224 | moving the index to the next set bit skips no marked index |
| `XArrayFind.MoveUp` | mlnx-ofed-kernel-5.4/compat/xarray.c:1265-1272 | past the last slot the search continues at the right slot of the parent |
| `XArrayHistory.SameTreeIff` | mlnx-ofed-kernel-5.4/compat/xarray.c:853-924 | two histories of stores, erases, reservations, set and cleared marks, for every configuration, have the same tree, node by node and count by count, if and only if they leave the same contents and marks, agree on whether slot 0 holds a reserved entry and on whether entry 0 is alone in a node; the last two are functions of the history |
| `XArrayHistory.HistoryFree` | mlnx-ofed-kernel-5.4/compat/xarray.c:853-924 | history independence: if no operation reserves entry 0 of the empty array, the trees are the same if and only if contents and marks are and, in a zero-busy array, what slot 0 holds |
| `XArrayHistory.NeverTall` | mlnx-ofed-kernel-5.4/compat/xarray.c:736-737 | only reserving entry 0 of the empty array leaves it alone in a node |
| `XArrayHistory.ApplyAll` | mlnx-ofed-kernel-5.4/compat/xarray.c:1420-1811 | any history without the case of Hazard, carried out on a new array, leads to the tree of the history, unless memory runs out |
| `XArrayHistory.Apply` | mlnx-ofed-kernel-5.4/compat/xarray.c:1420-1811 | so does each operation, for any history before it |
| `XArrayHistory.PlainNeverHits` | mlnx-ofed-kernel-5.4/compat/xarray.c:719-773 | without zero-busy no history meets the case of Hazard |
| `XArrayHistory.ReservedTwoShapes` | mlnx-ofed-kernel-5.4/compat/xarray.c:719-773 | entry 0 reserved; against reserved, 1 stored and 1 erased: the trees of the two histories hold the same and differ |
| `XArrayHistory.ReserveTwice` | mlnx-ofed-kernel-5.4/compat/xarray.c:1420-1483 | the same two histories carried out on two arrays |
| `XArrayHistory.ZeroBusyTwoShapes` | mlnx-ofed-kernel-5.4/compat/xarray.c:719-773 | in a zero-busy array, entry 0 stored and erased before 5 is stored; against after: the trees hold the same and differ in slot 0 |
| `XArrayHistory.ZeroTwice` | mlnx-ofed-kernel-5.4/compat/xarray.c:1420-1483 | the same two histories carried out on two arrays |
| `XArrayWalk.StaysCanonicalIff` | mlnx-ofed-kernel-5.4/compat/xarray.c:719-773 | a canonical tree stays canonical through a store or an erase if and only if that is not the reservation of entry 0 of the empty array |
| `XArrayCanon.AlikeUnique` | mlnx-ofed-kernel-5.4/compat/xarray.c:517-773 | two trees without empty nodes, with the same head, entries and marks are the same |
| `XArrayCanon.CanonicalUnique` | mlnx-ofed-kernel-5.4/compat/xarray.c:517-773 | two canonical trees with the same entries and marks are the same tree, node by node |
| `XArrayCanon.BareIff` | mlnx-ofed-kernel-5.4/compat/xarray.c:517-552 | a canonical tree is a bare root entry if and only if no index above 0 is present |
| `XArray.ReservedZeroHidesFree` | mlnx-ofed-kernel-5.4/compat/xarray.c:719-773 | the failing case: after entry 0 of an empty zero-busy array is reserved and the tree grows, index 1 is marked free and the bit above it is clear |
| `XArray.ErasedZeroIsFree` | mlnx-ofed-kernel-5.4/compat/xarray.c:1420-1424 | the failing case: entry 0, stored as the only entry of a zero-busy array and erased again, is marked free |
| `XArrayGrow.AddTopOk` | mlnx-ofed-kernel-5.4/compat/xarray.c:756-762 | a node put under an empty head leaves the marks right if and only if the root's marks are the default ones |
| `XArrayGrow.GrowSame` | mlnx-ofed-kernel-5.4/compat/xarray.c:658-700 | a level on top changes no entry and no mark |
| `XArrayGrow.GrowMarked` | mlnx-ofed-kernel-5.4/compat/xarray.c:672-685 | and keeps every bit exact |
| `XArrayGrow.AddChildSame` | mlnx-ofed-kernel-5.4/compat/xarray.c:756-762 | a node under an empty slot changes no entry and no mark |
| `XArrayPrune.DropSame` | mlnx-ofed-kernel-5.4/compat/xarray.c:561-592 | an empty node taken out changes no entry and no mark |
| `XArrayPrune.DropMarked` | mlnx-ofed-kernel-5.4/compat/xarray.c:561-592 | and keeps every bit exact |
| `XArrayPrune.ShrinkSame` | mlnx-ofed-kernel-5.4/compat/xarray.c:517-552 | a head taken off changes no entry and no mark |
| `XArrayPrune.ShrinkMarked` | mlnx-ofed-kernel-5.4/compat/xarray.c:537-539 | and the root's marks come out exact |
| `XArraySteps.BitStep` | mlnx-ofed-kernel-5.4/compat/xarray.c:954-1003 | a corrected bit leaves only the bit of its node, one level up, to be corrected |
| `XArrayTree.Ancestor` | mlnx-ofed-kernel-5.4/compat/xarray.c:267-311 | the nodes on the way to a node are in the tree, each the child of the next |
| `XArrayTree.NothingBelow` | mlnx-ofed-kernel-5.4/compat/xarray.c:297-311 | where the walk down meets an empty slot there is nothing below |
| `XArrayWalk.PutCanon` | mlnx-ofed-kernel-5.4/compat/xarray.c:853-924 | storing an entry leaves no empty node and no head that could be lower |
| `LzmaBound.SymbolTakesAtMost20` | mlnx-ofed-kernel-5.4/compat/xz_dec_lzma2.c:21-28 | for every input and every reachable state of range and probabilities, one symbol takes at most 20 bytes |
| `LzmaRange.BitKeeps` | mlnx-ofed-kernel-5.4/compat/xz_dec_lzma2.c:480-515 | probabilities stay within 31 and 2017 and the range stays valid |
| `LzmaRange.NormalizeRestores` | mlnx-ofed-kernel-5.4/compat/xz_dec_lzma2.c:480-486 | one byte is enough to bring the range back to 2^24 |
| `LzmaRange.BitPicksPart` | mlnx-ofed-kernel-5.4/compat/xz_dec_lzma2.c:499-515 | the code stays below the range through a bit, within the part the bit selects |
| `LzmaRange.DirectPicksHalf` | mlnx-ofed-kernel-5.4/compat/xz_dec_lzma2.c:555-567 | a direct bit, taken from a sign mask in 32-bit arithmetic, says which half of the range the code is in; the code stays below the range if and only if it is not the last value of an odd range |
| `LzmaRange.DirectDropsLast` | mlnx-ofed-kernel-5.4/compat/xz_dec_lzma2.c:555-567 | the failing case: the largest range and the code just below it, as the initial bytes 00 FF FF FF FE leave them |
| `Lzma2Spec.LastOfRange` | mlnx-ofed-kernel-5.4/compat/xz_dec_lzma2.c:451-462 | what those initial bytes leave in the code register |
| `LzmaRange.DistSymbol` | mlnx-ofed-kernel-5.4/compat/xz_dec_lzma2.c:648-684 | a distance of at most 32 bits |
| `LzmaRange.SpecialIndex` | mlnx-ofed-kernel-5.4/compat/xz_dec_lzma2.c:665-667 | the shared probability array is indexed within its bounds |
| `LzmaSymbol.StateTracksLatest` | mlnx-ofed-kernel-5.4/compat/xz_lzma2.h:64-95 | the state stays below 12 and tells whether the last symbol was a literal |
| `LzmaSymbol.LiteralIndex` | mlnx-ofed-kernel-5.4/compat/xz_dec_lzma2.c:574-580 | literal coders are indexed within the probability array |
| `LzmaDict.PutAgrees` | mlnx-ofed-kernel-5.4/compat/xz_dec_lzma2.c:335-341 | a byte put into the circular buffer is a byte added to the history |
| `LzmaDict.WrapAgrees` | mlnx-ofed-kernel-5.4/compat/xz_dec_lzma2.c:302-308 | starting again at the buffer's beginning loses nothing within the dictionary size |
| `LzmaDict.CopyMeans` | mlnx-ofed-kernel-5.4/compat/xz_dec_lzma2.c:348-373 | an overlapping copy is byte by byte the byte at the distance in the growing history |
| `LzmaDict.CopySplits` | mlnx-ofed-kernel-5.4/compat/xz_dec_lzma2.c:348-373 | a copy may be done in pieces |
| `LzmaDict.Dict.Get` | mlnx-ofed-kernel-5.4/compat/xz_dec_lzma2.c:322-330 | the byte at a distance back in the history, or 0 with an empty one |
| `LzmaDict.Dict.Put` | mlnx-ofed-kernel-5.4/compat/xz_dec_lzma2.c:335-341 | appends a byte to the history |
| `LzmaDict.Dict.Repeat` | mlnx-ofed-kernel-5.4/compat/xz_dec_lzma2.c:348-373 | copies from a distance up to the limit, refuses a distance behind the history, and says what is left |
| `LzmaDict.Dict.Uncompressed` | mlnx-ofed-kernel-5.4/compat/xz_dec_lzma2.c:376-412 | appends input bytes to history and output alike, as many as input, output and chunk allow; the limit stays and the position moves on around the end |
| `LzmaDict.LimitKept` | mlnx-ofed-kernel-5.4/compat/xz_dec_lzma2.c:376-412 | the documented pos <= limit survives n bytes, any n, if and only if n modulo the size fits before the limit or goes around the end and not beyond the limit |
| `LzmaDict.ResetThenCopy` | mlnx-ofed-kernel-5.4/compat/xz_dec_lzma2.c:288-299 | the failing case: after a reset and an uncompressed chunk pos <= limit holds if and only if the chunk fills the buffer a whole number of times |
| `LzmaDict.Dict.Flush` | mlnx-ofed-kernel-5.4/compat/xz_dec_lzma2.c:418-433 | emits exactly the pending bytes, in order |
| `LzmaDict.Dict.Reset` | mlnx-ofed-kernel-5.4/compat/xz_dec_lzma2.c:288-299 | an empty history |
| `LzmaDict.Dict.SetLimit` | mlnx-ofed-kernel-5.4/compat/xz_dec_lzma2.c:302-308 | pos <= limit <= end |
| `LzmaDecoder.Decoder.RcNormalize` | mlnx-ofed-kernel-5.4/compat/xz_dec_lzma2.c:480-486 | rc_normalize on the fields |
| `LzmaDecoder.Decoder.RcBit` | mlnx-ofed-kernel-5.4/compat/xz_dec_lzma2.c:499-515 | rc_bit on the fields, within the bounds of the probability array |
| `LzmaDecoder.Decoder.RcBitTree` | mlnx-ofed-kernel-5.4/compat/xz_dec_lzma2.c:521-534 | a bit tree |
| `LzmaDecoder.Decoder.RcBitTreeReverse` | mlnx-ofed-kernel-5.4/compat/xz_dec_lzma2.c:537-552 | a reverse bit tree |
| `LzmaDecoder.Decoder.RcDirect` | mlnx-ofed-kernel-5.4/compat/xz_dec_lzma2.c:555-567 | direct bits |
| `LzmaDecoder.Decoder.LzmaLiteral` | mlnx-ofed-kernel-5.4/compat/xz_dec_lzma2.c:583-618 | a literal; on the match-byte path the byte read is one written since the last dictionary reset |
| `LzmaDecoder.Decoder.LzmaLen` | mlnx-ofed-kernel-5.4/compat/xz_dec_lzma2.c:621-645 | a match length from 2 to 273 |
| `LzmaDecoder.Decoder.LzmaMatch` | mlnx-ofed-kernel-5.4/compat/xz_dec_lzma2.c:648-684 | a match |
| `LzmaDecoder.Decoder.LzmaRepMatch` | mlnx-ofed-kernel-5.4/compat/xz_dec_lzma2.c:690-721 | a repeated match, as RepReads says |
| `LzmaDecoder.Decoder.LzmaMain` | mlnx-ofed-kernel-5.4/compat/xz_dec_lzma2.c:724-763 | decodes as many symbols as limit and input allow: the same as the buffer-free machine, and stops with the range normalised |
| `LzmaDecoder.Decoder.LzmaReset` | mlnx-ofed-kernel-5.4/compat/xz_dec_lzma2.c:769-795 | initial state and probabilities |
| `LzmaMachine.Step` | mlnx-ofed-kernel-5.4/compat/xz_dec_lzma2.c:724-763 | one symbol on an unbounded history, which it only extends |
| `LzmaMachine.StepNormalized` | mlnx-ofed-kernel-5.4/compat/xz_dec_lzma2.c:756-763 | normalising ahead of time changes no symbol |
| `LzmaLocal.SymbolLocal` | mlnx-ofed-kernel-5.4/compat/xz_dec_lzma2.c:724-763 | a symbol depends on the bytes it takes and on nothing else of the buffer |
| `LzmaLocal.StepsLocal` | mlnx-ofed-kernel-5.4/compat/xz_dec_lzma2.c:848-927 | so do any number of symbols, wherever in a buffer they lie |
| `LzmaLocal.StepsCompose` | mlnx-ofed-kernel-5.4/compat/xz_dec_lzma2.c:848-927 | decoding may be interrupted between any two symbols |
| `LzmaChunk.DecodedOn` | mlnx-ofed-kernel-5.4/compat/xz_dec_lzma2.c:848-927 | a call on any buffer with the next bytes of a chunk continues the decoding of the chunk |
| `LzmaChunk.DecodedLonger` | mlnx-ofed-kernel-5.4/compat/xz_dec_lzma2.c:848-927 | more input changes nothing of what was decoded |
| `LzmaWhole.EndOfChunk` | mlnx-ofed-kernel-5.4/compat/xz_dec_lzma2.c:1080-1086 | once the declared bytes are made, however the calls were split, the chunk decoded in one piece is correct if and only if no byte too many was made, no data are left and the code is 0 |
| `LzmaWhole.CallFails` | mlnx-ofed-kernel-5.4/compat/xz_dec_lzma2.c:875-911 | if a call of lzma_main fails or takes more than the rest of the chunk, no chunk that begins with the bytes known is correct |
| `Lzma2.Chunk.Feed` | mlnx-ofed-kernel-5.4/compat/xz_dec_lzma2.c:848-927 | lzma2_lzma: reads only the chunk's bytes, from the caller's buffer or the 63-byte temporary one, in order, keeps temp.size <= min(20, compressed), and continues the decoding of the chunk; it fails only if no chunk that begins with the bytes taken and given is correct |
| `Lzma2.Chunk.FromTemp` | mlnx-ofed-kernel-5.4/compat/xz_dec_lzma2.c:854-893 | the part that decodes from the temporary buffer |
| `Lzma2.Chunk.FromInput` | mlnx-ofed-kernel-5.4/compat/xz_dec_lzma2.c:895-914 | the part that decodes from the caller's buffer |
| `Lzma2.Chunk.SaveRest` | mlnx-ofed-kernel-5.4/compat/xz_dec_lzma2.c:916-924 | the rest is kept for the next call |
| `Lzma2Stream.Stream.Run` | mlnx-ofed-kernel-5.4/compat/xz_dec_lzma2.c:933-1108 | xz_dec_lzma2_run over any number of calls: bytes are taken in order and what is written follows what was written before; the end is reported exactly when the bytes taken are a whole stream, and then the output is the stream's; an error is returned only if no correct stream begins with the bytes taken and given; and with room left in the output all input is taken and nothing is wrong so far |
| `Lzma2Stream.SplitsAgree` | mlnx-ofed-kernel-5.4/compat/xz_dec_lzma2.c:933-1108 | two decoders that took the same bytes, however these were split over calls and whatever room there was: one wrote what the other did or the beginning of it, and between chunks the same |
| `Lzma2Stream.Stream.ShowsNow` | mlnx-ofed-kernel-5.4/compat/xz_dec_lzma2.c:933-1108 | what was written at any time is what the bytes taken say, or the beginning of it |
| `Lzma2Spec.SameBytesSameOutput` | mlnx-ofed-kernel-5.4/compat/xz_dec_lzma2.c:933-1108 | the same for any two places at which a decoder may stand within the same bytes |
| `Lzma2Spec.NoWayDooms` | mlnx-ofed-kernel-5.4/compat/xz_dec_lzma2.c:940-1108 | a chunk that cannot be completed correctly means that no bytes make a correct stream of it |
| `Lzma2Spec.ChunkOver` | mlnx-ofed-kernel-5.4/compat/xz_dec_lzma2.c:1080-1103 | a whole chunk, LZMA or uncompressed, hands its context and output on to the next |
| `Lzma2Spec.ChunkStartIs` | mlnx-ofed-kernel-5.4/compat/xz_dec_lzma2.c:977-1007 | when an LZMA chunk may come, and the history, properties, state, distances, probabilities and registers its decoding starts from, for each range of control bytes |
| `Lzma2Spec.ChunkFromStart` | mlnx-ofed-kernel-5.4/compat/xz_dec_lzma2.c:1042-1095 | a chunk is correct if and only if its data decode from there to the declared size, and the next chunk gets the state in which they end |
| `Lzma2Spec.StateResetForgets` | mlnx-ofed-kernel-5.4/compat/xz_dec_lzma2.c:1002-1006 | for 0xA0 to 0xBF the result does not depend on state, distances and probabilities from before |
| `Lzma2Spec.PropsForget` | mlnx-ofed-kernel-5.4/compat/xz_dec_lzma2.c:989-998 | from 0xC0 on it does not depend on the properties from before either |
| `Lzma2Spec.DictResetForgets` | mlnx-ofed-kernel-5.4/compat/xz_dec_lzma2.c:977-980 | from 0xE0 on it does not depend on anything from before |
| `Lzma2Spec.CopyChunk` | mlnx-ofed-kernel-5.4/compat/xz_dec_lzma2.c:977-1014 | an uncompressed chunk with a dictionary reset starts a new history and makes properties necessary; one without adds to the history |
| `Lzma2Spec.UnknownControl` | mlnx-ofed-kernel-5.4/compat/xz_dec_lzma2.c:1008-1010 | control bytes 3 to 0x7F are an error at once |
| `Lzma2RoundTrip.StreamRoundTrip` | mlnx-ofed-kernel-5.4/compat/xz_dec_lzma2.c:933-1108 | for every list of blocks of symbols or plain bytes, with any resets that may come there, the stream a writer makes of them is correct and stands for their text |
| `Lzma2RoundTrip.BlocksRead` | mlnx-ofed-kernel-5.4/compat/xz_dec_lzma2.c:933-1108 | after every block the decoder has the history, properties, state, distances and probabilities the writer has |
| `Lzma2RoundTrip.PackedRead` | mlnx-ofed-kernel-5.4/compat/xz_dec_lzma2.c:977-1095 | the bytes of a block of symbols are a correct chunk that stands for the text of the symbols |
| `Lzma2RoundTrip.PlainRead` | mlnx-ofed-kernel-5.4/compat/xz_dec_lzma2.c:1097-1103 | so are those of a block of plain bytes |
| `LzmaRoundTrip.DataRoundTrip` | mlnx-ofed-kernel-5.4/compat/xz_dec_lzma2.c:724-763 | for every list of symbols that make sense, what a range coder on unbounded integers writes for them decodes to the text they mean, takes all bytes, leaves a code of 0, and leaves memory and probabilities as the writer has them |
| `LzmaTrack.MakesChoices` | mlnx-ofed-kernel-5.4/compat/xz_dec_lzma2.c:451-567 | for every list of binary choices, with or without probabilities, the decoder makes these choices from the bytes written for them |
| `LzmaTrack.OwnProbability` | mlnx-ofed-kernel-5.4/compat/xz_dec_lzma2.c:160-213 | no two contexts share a probability: the place of a context in the block tells the context |
| `LzmaRoundTrip.TokenStep` | mlnx-ofed-kernel-5.4/compat/xz_dec_lzma2.c:739-754 | a decoder that makes the choices of a symbol does what the symbol means, and reports an error if and only if its distance is out of reach |
| `LzmaRoundTrip.RepReads` | mlnx-ofed-kernel-5.4/compat/xz_dec_lzma2.c:690-721 | of the latest four distances the one with the number coded 0, 10, 110 or 111 is taken, and it moves to the front of the others |
| `LzmaRoundTrip.ShortRepReads` | mlnx-ofed-kernel-5.4/compat/xz_dec_lzma2.c:694-700 | a single byte from the latest distance |
| `LzmaRoundTrip.MatchReads` | mlnx-ofed-kernel-5.4/compat/xz_dec_lzma2.c:648-684 | a new distance goes to the front of the latest three |
| `LzmaRoundTrip.DistReads` | mlnx-ofed-kernel-5.4/compat/xz_dec_lzma2.c:662-683 | a distance of 32 bits is read back from its slot, special, direct and align bits |
| `LzmaRoundTrip.LenReads` | mlnx-ofed-kernel-5.4/compat/xz_dec_lzma2.c:621-645 | a length from 2 to 273 is read back from its choice bits and trees |
| `LzmaRoundTrip.LiteralReads` | mlnx-ofed-kernel-5.4/compat/xz_dec_lzma2.c:583-618 | a byte is read back, also when coded against the byte at the latest distance |
| `LzmaAccepted.OnlyWritten` | mlnx-ofed-kernel-5.4/compat/xz_dec_lzma2.c:724-763 | whatever data the decoder accepts stand for a list of symbols that make sense and decode to what they mean; they are what the writer writes for them if and only if the first byte is 0 and the code was always below the range |
| `LzmaAccepted.TokenFinds` | mlnx-ofed-kernel-5.4/compat/xz_dec_lzma2.c:739-754 | whatever comes, the decoder makes the choices of one symbol of the format |
| `LzmaAccepted.WrittenIff` | mlnx-ofed-kernel-5.4/compat/xz_dec_lzma2.c:440-567 | bytes after which the code is 0 are those written for the choices made, under the same condition |
| `LzmaAccepted.FirstIgnored` | mlnx-ofed-kernel-5.4/compat/xz_dec_lzma2.c:451-462 | the first initial byte does not matter to the decoder |
| `Lzma2Stream.Stream.OnControl` | mlnx-ofed-kernel-5.4/compat/xz_dec_lzma2.c:940-1016 | the end marker ends the stream; an error if and only if the control byte may not come here (no dictionary reset yet, no properties yet, 3 to 0x7F), and then no stream can begin so; otherwise history, state and probabilities are reset as ChunkStartIs says |
| `Lzma2Stream.Stream.OnSize` | mlnx-ofed-kernel-5.4/compat/xz_dec_lzma2.c:1018-1040 | the sizes are those of the header bytes taken so far |
| `Lzma2Stream.Stream.LzmaProps` | mlnx-ofed-kernel-5.4/compat/xz_dec_lzma2.c:801-830 | accepts a properties byte if and only if pb <= 4, lp <= 4 and lc + lp <= 4, and resets state and probabilities |
| `Lzma2Stream.Stream.OnProperties` | mlnx-ofed-kernel-5.4/compat/xz_dec_lzma2.c:1042-1046 | an error if and only if the byte is not accepted, and then no stream can begin so |
| `Lzma2Stream.Stream.ReadInit` | mlnx-ofed-kernel-5.4/compat/xz_dec_lzma2.c:451-462 | the first five bytes of a chunk, over any number of calls |
| `Lzma2Stream.Stream.OnPrepare` | mlnx-ofed-kernel-5.4/compat/xz_dec_lzma2.c:1042-1058 | properties and initial bytes are the caller's bytes in order; an error only if no stream can begin so |
| `Lzma2Stream.Stream.DecodeAndFlush` | mlnx-ofed-kernel-5.4/compat/xz_dec_lzma2.c:1072-1078 | decodes what fits and writes it out; the caller's bytes become the chunk's; an error only if no stream can begin with them |
| `Lzma2Stream.Stream.FinishChunk` | mlnx-ofed-kernel-5.4/compat/xz_dec_lzma2.c:1080-1086 | a finished chunk is a whole chunk of the stream, with what was written as its output |
| `Lzma2Stream.Stream.CheckDone` | mlnx-ofed-kernel-5.4/compat/xz_dec_lzma2.c:1080-1093 | an error if and only if the declared bytes are made and data are left, a match is left or the code is not 0; then no stream can begin with these bytes |
| `Lzma2Stream.Stream.OnCopy` | mlnx-ofed-kernel-5.4/compat/xz_dec_lzma2.c:1097-1103 | an uncompressed chunk: the bytes taken are the bytes written |
| `Lzma2Stream.DictSizeOk` | mlnx-ofed-kernel-5.4/compat/xz_dec_lzma2.c:1140-1141 | the dictionary size is at least 4096 and a multiple of 16 |
| `FqFairness.AlwaysFair` | mlnx-ofed-kernel-5.4/compat/sch_fq_codel.c:240-290 | in every run from fq_codel_init on, between any two moments, two flows that stay backlogged on the old list differ by at most 1 refill and by at most 3 quanta and 2 maximum packets in bytes sent |
| `FqFairness.AlwaysBounded` | mlnx-ofed-kernel-5.4/compat/sch_fq_codel.c:240-290 | in every state of every such run every deficit is within 1 - L and the quantum, every backlogged flow is on exactly one list, and backlogs and qlen are exact |
| `FqFairness.FirstInFirstOut` | mlnx-ofed-kernel-5.4/compat/sch_fq_codel.c:121-141 | in every state of every run the packets in a flow are the last of those that arrived for it, in the order of arrival |
| `FqFairness.ServedInOrder` | mlnx-ofed-kernel-5.4/compat/sch_fq_codel.c:225-290 | a packet served is the next of those that arrived for its flow, after the ones that left before and the ones dropped by this step; at the limit exactly the oldest leaves |
| `FqFairness.NewFlowFirst` | mlnx-ofed-kernel-5.4/compat/sch_fq_codel.c:194-199 | a flow that a packet brings onto the lists gets a full quantum and the last place among the new flows, and no old flow has a turn while there is a new one |
| `FqFairness.Drive` | mlnx-ofed-kernel-5.4/compat/sch_fq_codel.c:173-290 | whatever is enqueued to and dequeued from a new qdisc is such a run |
| `FqFairness.StartOk` | mlnx-ofed-kernel-5.4/compat/sch_fq_codel.c:405-454 | the state a qdisc starts with keeps lists, accounts and bounds |
| `FqFairness.Fair` | mlnx-ofed-kernel-5.4/compat/sch_fq_codel.c:240-290 | over any interval in which two flows stay backlogged on the old list, refills differ by at most 1 and bytes sent by at most 3 quanta and 2 maximum packets |
| `FqFairness.RunKeepsDeficits` | mlnx-ofed-kernel-5.4/compat/sch_fq_codel.c:257-281 | deficits within 1 - L and the quantum stay so over any steps |
| `FqFairness.Ledger` | mlnx-ofed-kernel-5.4/compat/sch_fq_codel.c:257-281 | the deficit of a flow that stays listed is its quanta less its bytes |
| `FqFairness.OrderTells` | mlnx-ofed-kernel-5.4/compat/sch_fq_codel.c:257-261 | the order of two such flows on the list tells how their refills differ |
| `FqCodel.RefillMeasure` | mlnx-ofed-kernel-5.4/compat/sch_fq_codel.c:257-261 | a refill uses up some of the work that is left |
| `FqCodel.RetireMeasure` | mlnx-ofed-kernel-5.4/compat/sch_fq_codel.c:272-279 | so does an empty flow |
| `FqCodel.AddOk` | mlnx-ofed-kernel-5.4/compat/sch_fq_codel.c:173-203 | adding a packet keeps the lists and the accounts |
| `FqCodel.TakeFromOk` | mlnx-ofed-kernel-5.4/compat/sch_fq_codel.c:225-238 | taking packets keeps the lists and the accounts |
| `FqCodel.RoundOk` | mlnx-ofed-kernel-5.4/compat/sch_fq_codel.c:240-290 | so does every round of the dequeue loop |
| `FqCodel.Qdisc.Enqueue` | mlnx-ofed-kernel-5.4/compat/sch_fq_codel.c:173-219 | the packet is added behind those of its flow, and at the limit one packet of a flow with the largest backlog is dropped |
| `FqCodel.Qdisc.Drop` | mlnx-ofed-kernel-5.4/compat/sch_fq_codel.c:143-171 | a packet off the head of the first flow with the largest backlog |
| `FqCodel.Qdisc.TakeHead` | mlnx-ofed-kernel-5.4/compat/sch_fq_codel.c:225-238 | the packet CoDel gets, and the accounts |
| `FqCodel.Qdisc.CodelDequeue` | mlnx-ofed-kernel-5.4/compat/sch_fq_codel.c:266-267 | any prefix dropped and the next packet, or nothing only if the flow is empty |
| `FqCodel.Qdisc.RefillFirst` | mlnx-ofed-kernel-5.4/compat/sch_fq_codel.c:257-261 | a flow with its deficit used up |
| `FqCodel.Qdisc.ServeFirst` | mlnx-ofed-kernel-5.4/compat/sch_fq_codel.c:266-281 | a packet served, or the flow retired |
| `FqCodel.Qdisc.Dequeue` | mlnx-ofed-kernel-5.4/compat/sch_fq_codel.c:240-290 | terminates for every positive quantum; nothing is returned only if every flow is empty; every backlogged flow is on exactly one list and backlogs and qlen are exact |
| `Kfifo.Fifo.Alloc` | mlnx-ofed-kernel-5.4/compat/kfifo.c:38-69 | -EINVAL if and only if the size is below 2, -ENOMEM if and only if it is not and memory is short; otherwise an empty fifo of the largest power of two not above the size |
| `Kfifo.Fifo.constructor` | mlnx-ofed-kernel-5.4/compat/kfifo.c:38-69 | an empty fifo whose size is rounded down to a power of two |
| `Kfifo.Fifo.Unused` | mlnx-ofed-kernel-5.4/compat/kfifo.c:33-36 | in 32-bit arithmetic, across the wrap of in and out: as many elements as fill the buffer up behind its contents |
| `Kfifo.Fifo.CopyIn` | mlnx-ofed-kernel-5.4/compat/kfifo.c:107-128 | bytes written around the end of the buffer, nothing else |
| `Kfifo.Fifo.CopyOut` | mlnx-ofed-kernel-5.4/compat/kfifo.c:147-168 | bytes read around the end of the buffer |
| `Kfifo.Fifo.In` | mlnx-ofed-kernel-5.4/compat/kfifo.c:131-144 | appends as many elements as there is room for, across the wrap of in |
| `Kfifo.Fifo.OutPeek` | mlnx-ofed-kernel-5.4/compat/kfifo.c:171-183 | the oldest elements, unchanged and in order |
| `Kfifo.Fifo.Out` | mlnx-ofed-kernel-5.4/compat/kfifo.c:186-193 | the same, and takes them out, across the wrap of out |
| `Kfifo.Fifo.InR` | mlnx-ofed-kernel-5.4/compat/kfifo.c:463-476 | a whole record or nothing; the fifo then holds the record as the last one if and only if its length fits the header |
| `Kfifo.Fifo.PutRecord` | mlnx-ofed-kernel-5.4/compat/kfifo.c:463-476 | header and record appended |
| `Kfifo.Fifo.Poke` | mlnx-ofed-kernel-5.4/compat/kfifo.c:445-454 | the header bytes |
| `Kfifo.Fifo.PeekN` | mlnx-ofed-kernel-5.4/compat/kfifo.c:422-433 | the next header's length |
| `Kfifo.Fifo.OutPeekR` | mlnx-ofed-kernel-5.4/compat/kfifo.c:490-500 | up to len bytes of the next record |
| `Kfifo.Fifo.OutR` | mlnx-ofed-kernel-5.4/compat/kfifo.c:503-515 | the same, and on to the following record |
| `Kfifo.Fifo.SkipR` | mlnx-ofed-kernel-5.4/compat/kfifo.c:518-525 | on to the following record; on an empty fifo the indices come out of step |
| `Kfifo.AppendedParses` | mlnx-ofed-kernel-5.4/compat/kfifo.c:463-476 | a record appended is read back if and only if its length fits the header |
| `Kfifo.FramedParses` | mlnx-ofed-kernel-5.4/compat/kfifo.c:422-454 | records framed are records read |
| `Kfifo.ParsedFrames` | mlnx-ofed-kernel-5.4/compat/kfifo.c:422-454 | whole records are their own frames |
| `Kfifo.LongRecordIsLost` | mlnx-ofed-kernel-5.4/compat/kfifo.c:445-476 | the failing case: 300 bytes behind a one-byte header |
| `KfifoRing.IndexMoves` | mlnx-ofed-kernel-5.4/compat/kfifo.c:107-114 | an index that moves on modulo 2^32 moves on as much modulo the size |
| `KfifoRing.RingAppend` | mlnx-ofed-kernel-5.4/compat/kfifo.c:107-144 | bytes written behind the contents are added to them |
| `Offload.StepInv` | mlnx-ofed-kernel-5.4/compat/nf_flow_table_offload.c:760-902 | every step keeps the flag, work and rule invariant |
| `Offload.PendingExact` | mlnx-ofed-kernel-5.4/compat/nf_flow_table_offload.c:837-859 | HW_PENDING holds if and only if exactly one work item is outstanding |
| `Offload.NothingQueuedAfterDying` | mlnx-ofed-kernel-5.4/compat/nf_flow_table_offload.c:874-884 | no work is queued once HW_DYING is set |
| `Offload.FreedIsFinal` | mlnx-ofed-kernel-5.4/compat/nf_flow_table_core.c:318-335 | nothing happens to a flow after it is freed |
| `Offload.FreedSafely` | mlnx-ofed-kernel-5.4/compat/nf_flow_table_core.c:405-424 | freed only with no work outstanding, no rule left in hardware, and for a hardware flow only after both directions were destroyed |
| `Offload.DestroyedOnce` | mlnx-ofed-kernel-5.4/compat/nf_flow_table_offload.c:778-784 | both directions are destroyed at most once |
| `Offload.CanBeFreed` | mlnx-ofed-kernel-5.4/compat/nf_flow_table_core.c:405-424 | from anywhere in the table at most four steps get a flow freed |
| `Offload.AddRequests` | mlnx-ofed-kernel-5.4/compat/nf_flow_table_core.c:288-293 | after every insertion into a hardware table with memory one REPLACE is outstanding, and otherwise nothing |
| `Offload.RefreshRequests` | mlnx-ofed-kernel-5.4/compat/nf_flow_table_core.c:299-314 | a lookup that finds the refresh flag on a live flow clears it and, with nothing outstanding and with memory, requests the rule |
| `Offload.TeardownIff` | mlnx-ofed-kernel-5.4/compat/nf_flow_table_core.c:338-343 | in every run a flow is in teardown if and only if a teardown or an expired gc step came before |
| `Offload.GcRequests` | mlnx-ofed-kernel-5.4/compat/nf_flow_table_core.c:405-424 | statistics are requested if and only if a live hardware flow was not refreshed of late, has nothing outstanding and memory is there; a flow in teardown is destroyed, then freed |
| `Offload.WorkDoes` | mlnx-ofed-kernel-5.4/compat/nf_flow_table_offload.c:760-830 | work that is done is not outstanding; a rule no driver took is marked for refresh |
| `Offload.RuleOnItsWay` | mlnx-ofed-kernel-5.4/compat/nf_flow_table_offload.c:760-902 | in every run a hardware flow that is not dying has a rule, a REPLACE outstanding or the refresh flag, or some event before missed a request (no memory, or other work outstanding) |
| `Offload.FlowOffload.FlowAdd` | mlnx-ofed-kernel-5.4/compat/nf_flow_table_core.c:267-296 | inserting a flow; into a hardware table and with memory it leaves HW_PENDING set and one REPLACE outstanding |
| `Offload.FlowOffload.LookupRefresh` | mlnx-ofed-kernel-5.4/compat/nf_flow_table_core.c:299-368 | lookup and refresh |
| `Offload.FlowOffload.FlowTeardown` | mlnx-ofed-kernel-5.4/compat/nf_flow_table_core.c:338-343 | teardown |
| `Offload.FlowOffload.GcStep` | mlnx-ofed-kernel-5.4/compat/nf_flow_table_core.c:405-424 | a garbage collector step |
| `Offload.FlowOffload.WorkAlloc` | mlnx-ofed-kernel-5.4/compat/nf_flow_table_offload.c:837-859 | takes HW_PENDING, gives it back without memory |
| `Offload.FlowOffload.QueueWork` | mlnx-ofed-kernel-5.4/compat/nf_flow_table_offload.c:862-871 | queues a work item unless one is outstanding |
| `Offload.FlowOffload.HandleWork` | mlnx-ofed-kernel-5.4/compat/nf_flow_table_offload.c:809-830 | carries a work item out |
| `Crc32.XzCrc32` | mlnx-ofed-kernel-5.4/compat/xz_crc32.c:54-64 | on every buffer the bit-at-a-time reflected CRC-32 |
| `Crc32.Init` | mlnx-ofed-kernel-5.4/compat/xz_crc32.c:34-51 | the table holds eight steps of the register for every byte |
| `Crc32.TableStep` | mlnx-ofed-kernel-5.4/compat/xz_crc32.c:59-59 | one lookup makes eight steps |
| `Crc32.FeedByte` | mlnx-ofed-kernel-5.4/compat/xz_crc32.c:43-45 | eight bits one by one are one byte at once |
| `Crc32.CrcJoins` | mlnx-ofed-kernel-5.4/compat/xz_crc32.c:54-64 | a concatenation fed in two calls gives the same value as in one |
| `Crc32.BurstDetected` | mlnx-ofed-kernel-5.4/compat/xz_crc32.c:54-64 | any change within four consecutive bytes changes the CRC |
| `Crc32.CheckValue` | mlnx-ofed-kernel-5.4/compat/xz_crc32.c:24-64 | the CRC of "123456789" is 0xCBF43926, which tells polynomial, bit order, start value and final inversion |

## Left out

- Rhashtable: rhlist tables, walkers, replace, `nelems` and the load thresholds themselves (their outcomes are arbitrary choices), freeing of old tables, memory barriers weaker than sequential consistency.
- Nested buckets: freeing of pages, and the retry accounting of tables that are rehashed into a nested one.
- XArray: multi-index entries, retry entries, `xas_create_range`, `xas_find`, `xas_pause`, previous and next, `xa_destroy`, `__xa_cmpxchg`, cyclic allocation, and the retry loop of `__xas_nomem` around an attempt that ran out of memory (an attempt that fails changes no entry and no mark, so the loop repeats it).
- XArray.XArr.XaInsert: the rejection of internal entries (`xa_is_advanced`) is not modelled, here and in the other interface operations; the entry type has none.
- Kfifo.Fifo.Alloc: sizes whose buffer has 2^32 bytes or more are not modelled, because the copy functions compute byte offsets in 32 bits.
- XArrayHistory.Apply: a store that runs out of memory ends a history, because the empty nodes it may leave are not canonical; so does the case of `Hazard`, because the marks are wrong from then on.
- LZMA2: single-call mode, the allocation of the dictionary on reset, the .xz container and the BCJ filters.
- FQ-CoDel: CoDel's control law, packet classification, statistics, 32-bit wrap-around of deficits and backlogs, reconfiguration and reset.
- kfifo: user-space and DMA copies, `__kfifo_init` over a caller's buffer, `__kfifo_max_r`.
- Flow offload: building of rules, NAT, neighbours and devices, timeouts as numbers (whether a flow has expired is an input of each step), table cleanup, and steps finer than a whole handler.
- Smaller files of the repository (DIM, string conversion, bitmaps, cordic, uuid): easier than what is modelled.
