# rusty_alloc in Dafny

A model of the core of rusty_alloc (`crates/rusty_alloc`), a Rust remake of the mimalloc allocator, with
proofs of what its data structures and its cross-thread protocols guarantee. The build modelled is the default
hosted 64-bit one: several threads, lazily committed segments, no `secure` links, no `blockmap`.

`dafny verify dfyconfig.toml` checks everything. The files fall into five groups; `Common` has what several
share.

**The cross-thread free protocol** (`BlockStore`, `FreeProtocol`, `FreeInvariant`, `FreeData`, `FreeRemote`,
`FreeOwner`, `FreeParking`, `FreeTeardown`, `FreeTheorems`, `FreeEffects`, `FreeMoves`, `FreeCustody`,
`FreeProgress`, `FreeStories`). A transition system over all pages, heap boxes, segments and threads at once.
Remote freers, owners, dying threads, adopters and segment releases interleave one shared-memory access at a
time under sequential consistency; a spin is a step that is not enabled. Memory is real: links, list heads,
flags, counts; `BlockStore` keeps beside them which list a block is on, and ties the two together. The safety
theorems are about every run and every point of it, and about links and program counters rather than the
bookkeeping; the progress theorems construct, from every reachable state, the steps by which a flag spin ends
and a parked page comes back. `FreeEffects` reads off memory what each step that moves blocks achieves,
`FreeMoves` what a state allows and that nothing gets stuck half way. `FreeCustody` follows each block from
the allocation that returns it to its free: no block is ever with two clients. `FreeStories` walks through two
runs step by step.

**The span allocator of a segment** (`SegmentLayout`, `SegmentSpans`, `SegmentBacking`, `Segment`). A class
over the `pages` and `page_off` arrays, with the skipped rewrites of `span_mark`, first fit, splitting, the
bump cursor, coalescing, and the commit and purge machine. What the OS answers to each commit and purge is a
parameter, so every refusal is covered; ghost fields say which slices have memory behind them, which were ever
handed out, and what every byte reads as.

**The arena bitmaps** (`ArenaProtocol`, `ArenaTheorems`, `ArenaProgress`) as a second transition system of
atomic bitmap operations, and **the run searches** (`RunSearch`, `ChunkSearch`, `SlicePool`) as the loops
themselves, against the naive search they stand for; the arena's search also runs against other threads that
change any bit this claim does not hold, between any two of its accesses.

**Heap bookkeeping** (`PageLists`, `Page`, `ZeroPages`, `LargeSpans`, `QueueLists`, `HeapQueues`,
`DirectTable`, `HeapStories`): the owner's operations on a page's lists, with zero tracking and lazy
extension; the doubly linked queues, parking, and the table `direct[]` that caches queue fronts. `ZeroPages`
joins pages to the segment they lie in, so that the zero flag is a statement about bytes of memory;
`LargeSpans` has the spans of single blocks and the one that is kept.

**Arithmetic** (`Bits`, `Bins`, `Division`, `Aligned`): size classes, division by reciprocal and by modular
inverse, aligned placement and its undoing at free.

Two places where the code and its own description part, both following the code here:

- The comment on `update_direct` (heap.rs:2277-2282) says the entries of a class are always written together,
  so that the top one answers for all of them, and heap.rs:348 that every entry is a live page of the heap.
  After `adopt_segment`'s rebuild (heap.rs:1829-1833) that is not always so: the loop also refreshes indices
  3, 5 and 7, which `bin` never returns and whose ranges overlap those of classes 4, 6 and 8.
  `DirectTable.AdoptionCoherentWhen` says exactly when the result is right, `HeapStories.StaleEntry` runs a
  heap to where a page stays in the table after it has left its queue, and `DirectTable.RebuildRealCoherent`
  shows that skipping the three indices is enough.
- Parking writes DELAYED after its last collect (heap.rs:897-901). A block freed remotely in between stays on
  the parked page's own chain until something else un-parks the page; `FreeStories.ParkingWindow` is a run
  that gets there. The theorems claim that no such block is lost (`FreeTheorems.Conservation`), not that it is
  reclaimed soon.

## Model

| member | source | states |
|---|---|---|
| FreeTheorems.BoxSafety | crates/rusty_alloc/src/page.rs:789-875 | Over every run: a remote that has claimed FREEING and is about to read or write a heap box uses the box of the heap that owns the page, which is neither released nor past its last drain, and FREEING is still set |
| FreeTheorems.BoxReleaseSafe | crates/rusty_alloc/src/init.rs:892-996 | Over every run: once a dying thread has freed its box, at every later time both its lists are empty, no remote is on its way to it, no segment is owned by it and no live page that is not NEVER names it |
| FreeTheorems.EndsAreFinal | crates/rusty_alloc/src/init.rs:979-994 | Released boxes and released segments stay released for the rest of the run |
| FreeTheorems.ReleaseBarrier | crates/rusty_alloc/src/segment.rs:387-424 | Once a release has passed its wait, no thread is inside `remote_free` on a slot of that segment at any later point of the run |
| FreeTheorems.ScanIsStable | crates/rusty_alloc/src/segment.rs:412-421 | While the wait scans, a slot it has passed has no remote on it, is not live and does not say FREEING: one pass over the slots is enough |
| FreeTheorems.FreeingExclusive | crates/rusty_alloc/src/page.rs:790-862 | FREEING on a page has exactly one holder, and only that holder's own last exchange ends it |
| FreeTheorems.Conservation | crates/rusty_alloc/src/page.rs:615-1111 | In every reachable state, from links, heads and program counters alone: each carved block is on exactly one list and there once, or carried by exactly one thread, or cached, or with a client, and never two of these; the record of clients agrees; nothing that is not carved is anywhere |
| FreeTheorems.PlaceIs | crates/rusty_alloc/src/page.rs:615-1111 | A block is with a client exactly when no list, thread or cache has it |
| FreeCustody.Custody | crates/rusty_alloc/src/page.rs:615-927 | Any step at all: a client has after it what it had, less the block it frees in it, plus the block an allocation returns in it; only a client frees a block, and no allocation returns a block a client has |
| FreeCustody.KeptUntilFreed | crates/rusty_alloc/src/page.rs:615-740 | Over every run: a client keeps a block until the step in which it frees it |
| FreeCustody.NotTwice | crates/rusty_alloc/src/page.rs:615-740 | Over every run: a block returned by two allocations was freed by its client in between |
| FreeCustody.GoneUntilReturned | crates/rusty_alloc/src/page.rs:615-740 | Over every run: a block no client has is with a client again only after an allocation returned it |
| FreeTheorems.UsedCounts | crates/rusty_alloc/src/page.rs:1046-1104 | In every reachable state `used` is the number of the page's blocks that are neither on `free` nor on `local_free` nor cached |
| FreeEffects.CollectDelivers | crates/rusty_alloc/src/page.rs:995-1104 | In every reachable state, read off memory: after a collect the chain is empty, the free list is the old chain followed by the old free list or, if that was dry, by the local list, which is then empty; `used` drops by the chain's length; nothing else moves |
| FreeEffects.AdoptionDelivers | crates/rusty_alloc/src/heap.rs:1796-1814 | The exchange with which an adopter takes a page out of NEVER does the same |
| FreeEffects.TeardownDelivers | crates/rusty_alloc/src/init.rs:919-925 | And the one with which a dying thread puts a page there; a huge page keeps its chain |
| FreeEffects.MallocTakes | crates/rusty_alloc/src/page.rs:615-650 | An allocation takes the first block of the free list as memory spells it, and `used` counts it |
| FreeEffects.ExtendCarves | crates/rusty_alloc/src/page.rs:1272-1292 | A newly carved block heads the free list |
| FreeEffects.LocalFreeDelivers | crates/rusty_alloc/src/heap.rs:2040-2063 | A local free puts the block first on the page's local list, counts it down, and takes a parked page out of the full queue on its way to NORMAL |
| FreeEffects.DrainDelivers | crates/rusty_alloc/src/heap.rs:1506-1531 | Draining does the same with the first block of the batch |
| FreeEffects.LargeFreeDelivers | crates/rusty_alloc/src/heap.rs:2096-2145 | A large block freed is kept with `used` 0, or its span is given up with every block of it |
| FreeEffects.DrainLargeDelivers | crates/rusty_alloc/src/heap.rs:2096-2145 | The same for one in the batch |
| FreeEffects.SwapDelivers | crates/rusty_alloc/src/heap.rs:1506-1511 | A drain's batch is exactly what was delayed, in order, and nothing is delayed any more |
| FreeEffects.PushDelivers | crates/rusty_alloc/src/page.rs:888-914 | A remote free of a NORMAL or NEVER page ends with the block first on the page's chain |
| FreeEffects.DelayDelivers | crates/rusty_alloc/src/page.rs:810-833 | One of a DELAYED page puts it first on the delayed list of the heap that owns the page |
| FreeEffects.ParkedDry | crates/rusty_alloc/src/heap.rs:886-901 | A page is parked only with its free list dry, and parking moves no block |
| FreeEffects.ExchangesExact | crates/rusty_alloc/src/page.rs:789-914 | Each exchange of a remote free succeeds on the very word it loaded, with the link it wrote |
| FreeTheorems.NoFalseAbort | crates/rusty_alloc/src/page.rs:811-815 | If each block is freed at most once, no double-free abort is reachable: not the two remote compares, not the local wrap, not the collect bound, and the page's chain never exceeds `used` |
| FreeTheorems.ParkedIsAwaited | crates/rusty_alloc/src/heap.rs:2045-2063 | A parked page whose flag is NORMAL, outside its own parking step, has a block on its owner's delayed list or in the batch being drained |
| FreeTheorems.FlagMatchesQueue | crates/rusty_alloc/src/page.rs:834-848 | For an idle owner: a page names that owner's box, single-block pages are DELAYED or FREEING, scanned pages are NORMAL, none is NEVER |
| FreeTheorems.OrphansNameNoBox | crates/rusty_alloc/src/init.rs:920-941 | Every live page of an abandoned segment is NEVER and names no box |
| FreeTheorems.NextKeeps | crates/rusty_alloc/src/page.rs:775-927 | The inductive invariant is kept by every step of every actor: remote frees (page.rs:775-927), owners (heap.rs:834-1147, 1506-1531, 2000-2145), teardown (init.rs:892-996), adoption (heap.rs:1733-1814) and release (segment.rs:387-424) |
| FreeTheorems.RunKeeps | crates/rusty_alloc/src/page.rs:775-927 | The invariant holds at every point of every run |
| FreeProgress.HolderFinishes | crates/rusty_alloc/src/page.rs:806-862 | A thread that holds FREEING waits for nobody: from every reachable state its own steps, at most six, end the hold, and the owners find their side unchanged |
| FreeProgress.SpinEnds | crates/rusty_alloc/src/page.rs:940-960 | Every spin on a page's flag can end by the holder's steps alone |
| FreeProgress.UnparkFinishes | crates/rusty_alloc/src/heap.rs:2045-2049 | An owner un-parking a page gets past its flag spin and writes NORMAL with its batch as it was |
| FreeProgress.DrainUnparks | crates/rusty_alloc/src/heap.rs:1506-1531 | A parked page with a block in the batch is un-parked before the drain ends |
| FreeProgress.ParkedComesBack | crates/rusty_alloc/src/heap.rs:2045-2063 | From every reachable state in which a page is parked, NORMAL, and its owner idle, the owner's next drain with holders finishing, and nothing else, brings the page back to its queue |
| FreeMoves.RemoteFinishes | crates/rusty_alloc/src/page.rs:775-927 | A remote free under way ends by its own thread's steps, at most nine, from every reachable state in which no other thread holds FREEING on its page |
| FreeMoves.OwnerMoves | crates/rusty_alloc/src/page.rs:940-960 | An owner in the middle of parking, un-parking, building a page, draining, adopting or dying has a step that moves it on, unless a FREEING holder or the remote free it runs makes it wait |
| FreeMoves.ReleaseMoves | crates/rusty_alloc/src/segment.rs:387-424 | A release passes any slot that does not say FREEING and ends when it has passed all |
| FreeMoves.ClientMayFree | crates/rusty_alloc/src/page.rs:775-927 | A block a client has may be freed from any thread |
| FreeMoves.OwnerMayFree | crates/rusty_alloc/src/heap.rs:2000-2083 | And by the owner of its page, which does not take it for a double free |
| FreeMoves.MallocWhen | crates/rusty_alloc/src/page.rs:615-650 | A page in its queue serves exactly while its free list spells a block |
| FreeMoves.DrainWhen | crates/rusty_alloc/src/heap.rs:1506-1511 | A drain begins exactly when something is delayed |
| FreeMoves.RetireWhen | crates/rusty_alloc/src/page.rs:1396-1400 | A page is retired exactly when no block of it is out and it is not parked |
| FreeMoves.OrphansHaveBlocks | crates/rusty_alloc/src/init.rs:936-941 | Over every run: an abandoned segment has a live page; one with none is released instead |
| FreeStories.ParkingWindow | crates/rusty_alloc/src/heap.rs:897-901 | A reachable state in which a parked page has all its blocks free on its own chain, says DELAYED, and nothing on its way to the owner names it: between the last collect and DELAYED a free can be left there |
| FreeStories.CalledBack | crates/rusty_alloc/src/page.rs:789-875 | A whole run in which a remote free finds a parked page DELAYED, claims it, and leaves it NORMAL with the block on the owner's list |
| FreeStories.ThereAndBack | crates/rusty_alloc/src/heap.rs:2045-2063 | That run continued by the owner's drain, after which the page is out of the full queue |
| BlockStore.WalkIsList | crates/rusty_alloc/src/page.rs:1077-1104 | Following the links from a list's head spells exactly that list, cut at the bound |
| BlockStore.SpliceKeeps | crates/rusty_alloc/src/page.rs:1046-1111 | Splicing the stolen chain in front of `free` leaves every list spelled by its links, one block in one place |
| BlockStore.StealKeeps | crates/rusty_alloc/src/page.rs:998-1004 | Moving a whole list by its head leaves the same |
| SegmentSpans.RecordsAgree | crates/rusty_alloc/src/segment.rs:645-687 | Any carved slice's `slice_offset` and `page_off` name the same span start, whose `area` is its address, and no other start has that `page_off` |
| SegmentSpans.EmptyIsOneSpan | crates/rusty_alloc/src/segment.rs:9-15 | No live span left: the carved region is one free span, alone on the list |
| SegmentSpans.TakeFrontOk | crates/rusty_alloc/src/segment.rs:826-860 | Splitting a free span keeps the tiling, both records, the list and coalescing; exactly the taken slices stop being free |
| SegmentSpans.GrownOk | crates/rusty_alloc/src/segment.rs:862-888 | Carving at the cursor keeps all of them and touches no earlier span |
| SegmentSpans.EdgesMerge | crates/rusty_alloc/src/segment.rs:942-966 | The neighbours found by `slice_count` and `slice_offset` are the adjacent spans, on the list when free |
| SegmentSpans.MergedOk | crates/rusty_alloc/src/segment.rs:941-976 | Merging with them keeps the tiling, both records and the list, and leaves no two free spans adjacent; exactly the freed span's slices become free |
| SegmentBacking.LiveIsBacked | crates/rusty_alloc/src/segment.rs:839-860 | Every slice of a live span has memory behind it |
| SegmentBacking.TakeHandsOut | crates/rusty_alloc/src/segment.rs:826-860 | Handing out the front of an unflagged free span: the slices were free, are backed, and every other live span is as it was |
| Segments.PickNone | crates/rusty_alloc/src/segment.rs:826-838 | First fit finds nothing exactly when every free span is too short |
| Segments.PickFirst | crates/rusty_alloc/src/segment.rs:826-838 | What is picked is the first span of the list with room, whichever others fit |
| Segments.Segment.constructor | crates/rusty_alloc/src/segment.rs:458-525 | A new segment, recycled or fresh, is valid with nothing carved, whatever its stale slots say; frontier, backing, contents and purge fields as it starts with them |
| Segments.Segment.SpanMark | crates/rusty_alloc/src/segment.rs:645-687 | With the rewrites it skips, the two tables are as if every slice had been rewritten |
| Segments.Segment.SpanMarkFree | crates/rusty_alloc/src/segment.rs:712-725 | The span becomes the head of a well-linked free list |
| Segments.Segment.SpanListRemove | crates/rusty_alloc/src/segment.rs:731-745 | The list stays well linked without the span |
| Segments.Segment.SpanRecommit | crates/rusty_alloc/src/segment.rs:1182-1196 | Refused: nothing changed; else the whole span is backed and unflagged |
| Segments.Segment.CommitFrontier | crates/rusty_alloc/src/segment.rs:1207-1228 | Exactly when it succeeds; then the need is met and the prefix doubled, by at most one step, or, when that was refused, exactly the need; refused: nothing changed |
| Segments.Segment.SpanAlloc | crates/rusty_alloc/src/segment.rs:821-890 | The first fitting span, all re-committed, else the cursor, with the exact outcome for each OS answer; a failure changes nothing; the span is backed; zero means a virgin bump span none of whose slices was ever handed out, every byte of it zero |
| Segments.Segment.ChoiceIs | crates/rusty_alloc/src/segment.rs:821-890 | Which span that is: the first with room and it alone, unless it needs memory that is refused; with none, the cursor |
| Segments.Segment.SpanFree | crates/rusty_alloc/src/segment.rs:906-1022 | The span and its free neighbours become one free span; other live spans, the cursor and the frontier stay; which start is flagged, stamped, purged or scheduled; memory leaves, and contents change, only in free spans |
| Segments.Segment.Release | crates/rusty_alloc/src/segment.rs:906-976 | The layout part: exactly the freed slices join the free ones and the merged start is flagged exactly when a part was |
| Segments.Segment.SchedulePurge | crates/rusty_alloc/src/segment.rs:1053-1070 | Stamped; a deadline started, left alone, or the pass run and the next one set |
| Segments.Segment.PurgeCandidates | crates/rusty_alloc/src/segment.rs:1098-1129 | One pass over the whole list: which spans are flagged, and the deadline left, as `PassWaits` and `PassForced` read it |
| Segments.PassWaits | crates/rusty_alloc/src/segment.rs:1106-1126 | In milliseconds that really passed since each span was freed: a pass flags exactly the candidates that stayed free for the whole delay and that the OS takes; the deadline becomes when the first of the others will have |
| Segments.PassForced | crates/rusty_alloc/src/segment.rs:1106-1126 | A forced pass offers every candidate and leaves no deadline |
| Segments.WaitIs | crates/rusty_alloc/src/segment.rs:1110-1112 | The wrapping 32-bit age is the time that passed, below its range |
| Segments.DelayIs | crates/rusty_alloc/src/segment.rs:1037-1039 | The delay is the option, cut to 0 .. 2^31 - 1 |
| Segments.ScheduledStamp | crates/rusty_alloc/src/segment.rs:1053-1070 | The span just freed carries the time of its free, whatever the pass does |
| Segments.Segment.PurgeScheduled | crates/rusty_alloc/src/segment.rs:1078-1087 | Nothing happens before the deadline; forced or due, the whole pass runs and sets the next one |
| Segments.Segment.PurgeFreeSpans | crates/rusty_alloc/src/segment.rs:1152-1174 | Every unflagged free span is offered once, whatever its length, and flagged exactly when the OS took it |
| Segments.Segment.PageOf | crates/rusty_alloc/src/segment.rs:264-306 | One table load takes any address of a carved slice to the span that holds it, and to no other live span |
| Segments.Segment.LiveBacked | crates/rusty_alloc/src/segment.rs:582-589 | In a valid segment every live span is backed, and a segment reported full is backed in full |
| Segments.Segment.LiveAlone | crates/rusty_alloc/src/segment.rs:9-15 | No slice of a live span is in a free one |
| Segments.Segment.EmptySegment | crates/rusty_alloc/src/segment.rs:9-15 | `used_pages` 0 means the carved region is one free span |
| ArenaTheorems.StepKeeps | crates/rusty_alloc/src/arena.rs:454-688 | The arena invariant is kept by every atomic step of every actor |
| ArenaTheorems.OneHolder | crates/rusty_alloc/src/arena.rs:474-519 | In every reachable state a used bit is set exactly when some actor holds the chunk, and never two |
| ArenaTheorems.OthersUntouched | crates/rusty_alloc/src/arena.rs:617-679 | No step, a rollback included, clears a bit another actor holds, or changes the memory, record or history of a chunk its actor does not hold |
| ArenaTheorems.FreeCommittedIsBacked | crates/rusty_alloc/src/arena.rs:732-781 | A free chunk whose committed bit is set is backed in full |
| ArenaTheorems.HandOutSound | crates/rusty_alloc/src/arena.rs:138-165 | What a caller is told is true and all there is to tell: committed exactly when the record of every chunk says so, and then backed, and always if asked; zero exactly when the arena came zero there and no chunk was handed out before |
| ArenaTheorems.ZeroIsFirst | crates/rusty_alloc/src/arena.rs:500-519 | Over every run: chunks handed out as zero had no tenant at any earlier time |
| ArenaTheorems.HugeIsBacked | crates/rusty_alloc/src/segment.rs:537-559 | A huge tenant's memory is whole until its own release purges it |
| ArenaTheorems.HugeReleasedBacked | crates/rusty_alloc/src/segment.rs:537-559 | A huge tenant keeps its chunks to itself until it starts to give them back, and then they are backed in full: after a purge only once restored, and never if that was refused |
| ArenaProgress.ClaimServed | crates/rusty_alloc/src/arena.rs:474-519 | Over any run a claimed chunk is handed out with what its claim asked for, or given back if the OS refused it |
| ArenaProgress.AskedWhenNeeded | crates/rusty_alloc/src/arena.rs:138-165 | The OS is asked only for memory that was asked for and that the record does not have |
| ArenaProgress.ReleaseRecorded | crates/rusty_alloc/src/arena.rs:732-781 | Over any run a segment's chunk is given back only with its report, and the purge it asks for, on record |
| ArenaProgress.WholeRelease | crates/rusty_alloc/src/arena.rs:732-781 | A huge release leaves the record alone and notes the purge it asks for |
| ArenaProgress.PassEnds | crates/rusty_alloc/src/arena.rs:833-864 | Over any run a purge pass gives its chunk back with nothing pending, and record and memory gone together or not at all |
| ArenaProgress.BusyMoves | crates/rusty_alloc/src/arena.rs:454-688 | A claim, rollback, release or pass waits for nobody: it always has a step, and ends in boundedly many of its own |
| ChunkSearch.ChunkMap.Scan | crates/rusty_alloc/src/arena.rs:557-688 | Under any interference the scan ends, by the measure (candidate start, cursor), holds exactly the run it returns or nothing, and passes by no run that is clear and that nobody else ever sets: it then succeeds, there or lower; undisturbed it takes the lowest free run and fails only when there is none |
| ChunkSearch.ChunkMap.ClaimWord | crates/rusty_alloc/src/arena.rs:611-639 | One mask: the whole run is held, or exactly the bits it set are cleared and a bit of the run that somebody had set is reported |
| ChunkSearch.ChunkMap.ClaimBits | crates/rusty_alloc/src/arena.rs:640-679 | Bit by bit over several words: the same |
| ChunkSearch.MaskSets | crates/rusty_alloc/src/arena.rs:617-625 | On a free run the mask meets no set bit and sets exactly that run |
| RunSearch.ScanWord | crates/rusty_alloc/src/arena.rs:596-606 | Skipping a full word passes no run start that could have served |
| SlicePools.SlicePool.AllocRun | crates/rusty_alloc/src/slice_pool.rs:86-118 | The lowest run of free slices, and exactly it is taken; none returned only when none exists |
| SlicePools.SlicePool.FreeRange | crates/rusty_alloc/src/slice_pool.rs:60-81 | Accepted exactly for whole slices inside the map and above the first; then exactly those are free |
| SlicePools.GivenBackServes | crates/rusty_alloc/src/slice_pool.rs:60-118 | A range given back serves a request of its length again, at its own or a lower address |
| PageLists.BoundedWalk | crates/rusty_alloc/src/page.rs:1077-1104 | On any links at all, cycles included, the walk stops within `used` + 1 blocks; it gives up exactly when the chain is longer than `used`, else returns its last block and length |
| PageLists.BatchIsPages | crates/rusty_alloc/src/page.rs:1253-1271 | The shift of `reserved` is 4096 divided by the block size |
| PageLists.TakeIs | crates/rusty_alloc/src/page.rs:1270-1271 | An extension carves the blocks of one OS page, or four, or as many as there are, whichever is most, and no more than are left |
| PageLists.ReservedIsMost | crates/rusty_alloc/src/heap.rs:972-973 | `reserved` is the most whole blocks the span has room for |
| PageLists.BlocksInside | crates/rusty_alloc/src/page.rs:1272-1292 | Blocks lie inside the span and do not overlap |
| PageLists.CarvedGrows | crates/rusty_alloc/src/page.rs:1270-1292 | After k extensions at least min(reserved, 4 * 2^(k-1)) blocks are carved |
| PageLists.CarvedFirst | crates/rusty_alloc/src/page.rs:1270-1271 | The first trip carves one OS page's worth or four blocks |
| PageLists.CarvedBounded | crates/rusty_alloc/src/page.rs:1270-1292 | After k trips no more than max(4096 / block size, 4) * 2^(k-1): what lies unused is bounded by what was used |
| Pages.Page.constructor | crates/rusty_alloc/src/heap.rs:972-1003 | A fresh page has nothing carved, its memory as found and the zero flag of its span |
| Pages.Page.Pop | crates/rusty_alloc/src/page.rs:615-650 | The first free block, counted; with the zero flag every word but the first is zero |
| Pages.Page.PushLocal | crates/rusty_alloc/src/page.rs:655-740 | A client's block goes in front of `local_free`; the count cannot wrap; no other block is written |
| Pages.Page.PushRemote | crates/rusty_alloc/src/page.rs:888-914 | A block pushed on the chain is still counted by `used`, and the zero promise is kept |
| Pages.Page.Splice | crates/rusty_alloc/src/page.rs:1025-1104 | The chain joins the free list in order and is counted off; no client's block is written |
| Pages.Page.Collect | crates/rusty_alloc/src/page.rs:995-1104 | Both lists after it; zero is given up exactly when a recycled block joined; the bound is never hit |
| Pages.Page.Extend | crates/rusty_alloc/src/page.rs:1140-1294 | Exactly blocks capacity+1 .. capacity+take come in front, in address order, take being min(reserved - capacity, max(4096 / block size, 4, capacity)); no carved block is written; the zero promise is kept |
| Pages.Page.Refresh | crates/rusty_alloc/src/heap.rs:843-868 | What the walk does with one page: it is parked exactly when every block it can have is carved and with a client |
| Pages.Page.PurgeFreeSlots | crates/rusty_alloc/src/page.rs:1318-1394 | Words are left in free blocks only, and in none of a free list still known zero |
| Pages.Page.Write | crates/rusty_alloc/src/page.rs:1318-1344 | Whatever a client writes into its block breaks neither the lists nor the zero promise |
| Pages.Append | crates/rusty_alloc/src/page.rs:1077-1104 | The bounded walk of a real chain returns its length and links its last block to the free list |
| Pages.LinkRun | crates/rusty_alloc/src/page.rs:1272-1292 | Linking from the back spells the run in address order in front of the list |
| ZeroPages.FreshPage | crates/rusty_alloc/src/heap.rs:956-1016 | From the span allocator to the page, of one slice up to 8 KiB blocks and of eight above: the page says of its blocks what memory says, and its zero flag, set exactly for a virgin span of a zero segment, is true of every byte |
| ZeroPages.PopZero | crates/rusty_alloc/src/page.rs:615-650 | A block returned with the zero flag is zero in memory, byte by byte, apart from its first word |
| ZeroPages.WriteBlock | crates/rusty_alloc/src/page.rs:1318-1344 | A client's writes to its block show on no other block |
| ZeroPages.PushOn | crates/rusty_alloc/src/page.rs:655-740 | The link a free writes leaves what the page says of memory true |
| ZeroPages.RefreshOn | crates/rusty_alloc/src/page.rs:995-1294 | So do the links written by collecting and extending |
| ZeroPages.FreeOther | crates/rusty_alloc/src/segment.rs:906-1022 | So does freeing any other span, with every purge that brings about |
| ZeroPages.AllocOther | crates/rusty_alloc/src/segment.rs:821-890 | So does handing out any other span |
| LargeSpans.LargeHeap.Alloc | crates/rusty_alloc/src/heap.rs:1091-1147 | The kept span if it has the size, never as zero, else a new one; it is in no client's use; zero is exactly a virgin span of a zero segment, and true of every byte |
| LargeSpans.LargeHeap.AllocSize | crates/rusty_alloc/src/heap.rs:1091-1092 | A request gets as many slices as hold it and no more |
| LargeSpans.LargeHeap.Free | crates/rusty_alloc/src/heap.rs:2096-2145 | Exactly the second free of a block aborts; else the span kept so far is retired and this one kept or retired by the code's rule; every span still in use keeps its extent and contents |
| DirectTable.SlotsOf | crates/rusty_alloc/src/heap.rs:2260-2313 | A real class's slot range is exactly the word counts it serves |
| DirectTable.RefreshServes | crates/rusty_alloc/src/heap.rs:2283-2313 | On a uniform table the one test of the top slot decides for the class: its slots, and no other, get the front |
| DirectTable.RefreshCoherent | crates/rusty_alloc/src/heap.rs:2260-2313 | When only one front changed, one refresh makes every slot the front of the class that serves it |
| DirectTable.RebuildCoherentWhen | crates/rusty_alloc/src/heap.rs:1829-1833 | The adoption's rebuild over all indices leaves the table coherent if and only if `RebuildSafe`, a test of slots 4, 6 and 8 before it |
| DirectTable.AdoptionCoherentWhen | crates/rusty_alloc/src/heap.rs:1829-1833 | The same, over the fronts before and after the adoption: if and only if `FrontsSafe` |
| DirectTable.StaleSlot | crates/rusty_alloc/src/heap.rs:1829-1833 | When class 4 gets its first page while class 6 has one: slot 3 keeps naming the page after it has left its queue |
| HeapStories.StaleEntry | crates/rusty_alloc/src/heap.rs:1829-1833 | A heap built from new gets there: after an adoption and a collect, slot 3 of the table names a page that is not live and in no queue |
| DirectTable.RebuildRealCoherent | crates/rusty_alloc/src/heap.rs:1829-1833 | Restricted to the indices `bin` returns, the rebuild is right for every change of the fronts |
| HeapQueues.Heap.QueuePushFront | crates/rusty_alloc/src/heap.rs:2472-2490 | A page in no queue heads the queue it belongs in, and all queues stay in order |
| HeapQueues.Heap.QueuePushBack | crates/rusty_alloc/src/heap.rs:2495-2510 | Or ends it |
| HeapQueues.Heap.QueueRemove | crates/rusty_alloc/src/heap.rs:2515-2531 | The page leaves its queue and is in none, and all queues stay in order |
| HeapQueues.Heap.LiveOnce | crates/rusty_alloc/src/heap.rs:2045-2083 | Every live page is in exactly one queue: the full one exactly when flagged, else that of its class |
| HeapQueues.WithOk | crates/rusty_alloc/src/heap.rs:2472-2531 | Changing one queue consistently keeps all of them: each spelled by its words, each page where it belongs, no page in two |
| HeapQueues.RemovedOk | crates/rusty_alloc/src/heap.rs:2515-2531 | After a removal that holds and the page is in no queue |
| HeapQueues.FrontPushedOk | crates/rusty_alloc/src/heap.rs:2472-2490 | After a push of a page in no queue to the front that holds |
| HeapQueues.BackPushedOk | crates/rusty_alloc/src/heap.rs:2495-2510 | And to the back |
| HeapQueues.Heap.UpdateDirect | crates/rusty_alloc/src/heap.rs:2260-2313 | The loop over the slot range, skipped when the top slot has the page already |
| HeapQueues.Heap.Walk | crates/rusty_alloc/src/heap.rs:834-920 | Pages that cannot serve are parked from the front in order; the first that serves, or a fresh one, now live, is the front; the table is coherent again at the end |
| HeapQueues.Heap.Unpark | crates/rusty_alloc/src/heap.rs:2045-2063 | The page leaves the full queue for the back of its own; the table stays coherent although it is refreshed only when that queue was empty |
| HeapQueues.Heap.RetireEmptied | crates/rusty_alloc/src/heap.rs:2070-2083 | An empty page leaves its queue and the live pages unless it is the only one of its class; the table stays coherent |
| HeapQueues.Heap.CollectEmpty | crates/rusty_alloc/src/heap.rs:1663-1672 | An empty page found by a collect leaves in any case; the table stays coherent |
| HeapQueues.Heap.AdoptPage | crates/rusty_alloc/src/heap.rs:1777-1805 | Each adopted page, its flag cleared, heads the queue of its class and is live |
| HeapQueues.Heap.RebuildDirect | crates/rusty_alloc/src/heap.rs:1829-1833 | The rebuild loop computes `Rebuilt`; the heap is coherent after it if and only if `RebuildSafe`, equally `FrontsSafe` |
| Bins.LeastClass | crates/rusty_alloc/src/bins.rs:21-47 | For every word count, with no cutoff, the class chosen exists, holds the request and is the least that does |
| Bins.BinMonotone | crates/rusty_alloc/src/bins.rs:21-47 | More words never land in a smaller class |
| Bins.BinInverts | crates/rusty_alloc/src/bins.rs:85-105 | `bin` undoes `bin_size` on every class |
| Bins.ClassShape | crates/rusty_alloc/src/bins.rs:182-190 | Every class size is 1, 3, 5 or 7 times a power of two of at least 8 |
| Bins.ClassesStep | crates/rusty_alloc/src/bins.rs:85-105 | From 64 bytes up consecutive classes grow, and by at most a quarter |
| Bins.BinSizeExact | crates/rusty_alloc/src/bins.rs:85-105 | The 64-bit `bin_size`, with its truncations, is exact up to index 236 |
| Bins.GoodSize | crates/rusty_alloc/src/bins.rs:110-116 | For every binned request the class size is the least that holds it and no more than the medium limit |
| Bins.BinAbove | crates/rusty_alloc/src/bins.rs:30-31 | Past the medium limit, and only there, no binned page serves |
| Bins.FillSmallBin | crates/rusty_alloc/src/bins.rs:51-61 | The compile-time table agrees with `bin` |
| Bins.BinByWSize | crates/rusty_alloc/src/bins.rs:73-80 | The table, indexed by words, answers for the size itself |
| Division.RecipExact | crates/rusty_alloc/src/bins.rs:176-180 | The reciprocal product equals the floor quotient if and only if the accumulated error stays under the remainder's slack |
| Division.DivisionExact | crates/rusty_alloc/src/bins.rs:210-226 | For every class size and every n whose shifted value is below 2^30 the product and shift are floor division |
| Division.DivisionBound | crates/rusty_alloc/src/bins.rs:203-208 | At 2^30 it is off by one for class size 80: the bound is tight |
| Division.OddModInverse | crates/rusty_alloc/src/page.rs:101-113 | The loop of five Newton steps returns the inverse mod 2^64 of any odd n |
| Division.NewtonInverts | crates/rusty_alloc/src/page.rs:101-113 | Five steps from n itself suffice for every odd n |
| Division.ExactDivision | crates/rusty_alloc/src/bins.rs:242-264 | On every multiple of a class size the modular form is division |
| Aligned.AlignedIsMultiple | crates/rusty_alloc/src/bins.rs:137-148 | The mask test is divisibility by a power of two, total in the alignment |
| Aligned.FirstAligned | crates/rusty_alloc/src/bins.rs:163-168 | Answers exactly when the sums fit a word, with an address that meets the alignment less than `align` above the base |
| Aligned.LeastAligned | crates/rusty_alloc/src/bins.rs:163-168 | And no lower address does |
| Aligned.RefusedWhen | crates/rusty_alloc/src/heap.rs:1368-1370 | A request is refused outright exactly for an alignment that is no power of two or above half a segment |
| Aligned.PlainWhen | crates/rusty_alloc/src/heap.rs:1371-1373 | A request is served as it comes exactly for a power of two up to 8 and no offset |
| Aligned.TierIs | crates/rusty_alloc/src/heap.rs:1389-1417 | Its own class if all its blocks are aligned, else that of the size rounded up if they are, else a segment if no large block holds the slack, else a larger block |
| Aligned.DedicatedWhen | crates/rusty_alloc/src/heap.rs:1408-1416 | A segment of its own exactly when the size with its slack exceeds the large limit |
| Aligned.NaturalIsSmall | crates/rusty_alloc/src/heap.rs:1396-1404 | A naturally aligned class is never larger than that of the block with slack |
| Aligned.RoundTrip | crates/rusty_alloc/src/heap.rs:1362-1446 | Whatever tier serves: the pointer plus offset is aligned, the bytes lie in one block, `usable_size` covers them, and free recovers that block's start |
| Aligned.UnalignRecovers | crates/rusty_alloc/src/alloc.rs:23-69 | Any pointer into a block, on a flagged page or a single-block span, leads back to its start, and `usable_size` reaches exactly the block's end |
| Aligned.HugeRoundTrip | crates/rusty_alloc/src/segment.rs:1232-1400 | A dedicated segment with the slack reserved: aligned, inside, large enough by less than a slice, and the segment mask still finds the header |
| Aligned.SlackIs | crates/rusty_alloc/src/segment.rs:1255-1264 | Slack is reserved exactly when the area's own alignment does not serve, and then one alignment's worth |
| Aligned.HugeTier | crates/rusty_alloc/src/heap.rs:1407-1416 | Every request that gets a segment of its own, plain ones above the large limit included, is aligned, inside and found again |
| Aligned.EveryTier | crates/rusty_alloc/src/heap.rs:1362-1446 | Every request is refused, gets a segment of its own, or is served from a block as `RoundTrip` says |

## Left out

What the model assumes or simplifies:

- Weak memory orderings: every access is sequentially consistent.
- The owner's exchange loops on `xthread_free` (`page_set_flag`, collect) are one step each, that of the exchange that succeeds; the remote's loops are not, since they branch on what they load.
- Clients free each block at most once; this is the premise of `FreeTheorems.NoFalseAbort`, and what a real double free does is not modelled.
- Heap boxes and segments get a new number each time: storage that is released and reserved again counts as a different one.
- In the protocol `page_extend` carves one block a step, in any order; `Pages.Page.Extend` has the batch and its order.
- In the protocol a page may be parked before all its blocks are carved, which the code does not do; the page of `FreeStories` has one block for brevity.
- In the protocol a dying thread may write NEVER without collecting on any page, which the code does on huge ones only.
- In the protocol a heap may cache any number of freed large spans, where the code keeps one.
- In the protocol a segment's release runs on its own after its owner begins it, where the code's owner waits for it.
- A dying thread that finds a huge block dead gives up its page and then releases the segment, two steps for one `huge_free`.
- OS commits and purges are parameters or free choices; a refused call leaves memory unchanged. Counters of purges and failed commits are not kept.
- Deadlines and stamps of scheduled purges do not saturate at 64 bits; the stamp's 32-bit wrap is kept.
- `span_alloc` returns a span whose block size its caller stores at once; that store is part of `Segments.Segment.SpanAlloc`.
- `span_free` purges at once before it raises the merged flag; here the flag comes first, with the same final state.
- Segments.Segment.CommitFrontier: a refusal on a new segment is a failed allocation, where heap.rs:1076-1084 takes success for granted.
- In `Segments.Segment` a purged range reads as anything afterwards, and an OS commit of never-carved slices leaves a zero segment's bytes zero.
- In `Pages.Page` the words after a block's first are one number, 0 when all are zero; `ZeroPages` ties it to the segment's bytes.
- In the arena model the lock among multi-chunk claims is not taken, so more interleavings are covered; the mask path sets its dirty bits one a step; stamps and the purge deadline are dropped, so a purge pass may come at any time.
- A segment's report that it is fully backed is assumed true in `ArenaProtocol`; `Segments.Segment.LiveBacked` proves it of the segment.
- HeapQueues.Heap.Walk: which pages can serve, and whether a fresh page is to be had, are parameters, since the queues hold page numbers; `Pages.Page.Refresh` says for one page when it serves.
- `LargeSpans` has one segment, and the release of a segment that a retired span leaves empty is not part of it.
- `HeapStories` gives the adopted page its class beforehand, as the page of another heap.
- Aligned.RoundTrip: requests that get a segment of their own are in `Aligned.HugeTier` instead; `Aligned.EveryTier` says that nothing is in neither.

What the repository does that is not part of this model:

- `heap_delete`, `heap_destroy`, the heap-box cache and registry: list surgery around the same protocol; `heap_delete` drains once and has no later drain.
- Registering and adopting arenas (`manage_os_memory_ex`): arenas start registered.
- The subprocess lists of abandoned segments, reduced to the one set of orphans.
- The spare empty segment a heap keeps: releasing an empty segment or not is allowed at any time, and in the protocol so is keeping a freed large span or not.
- wasm, fixed-region, small-profile and shared-light-heap variants; guarded objects, `secure` encoding, `blockmap`.
- Options, environment, hooks, statistics, random numbers, the segment map, the C header.
- The realloc family, which copies between blocks whose extents are proved here.
