# A Dafny model of the kernel and user memory allocators, the KFS image writer and two small routines

The models follow the C sources of the repository:

- **dlmalloc** (`libs/libk/malloc.c`) in the configuration that is built: 32-bit `size_t`, no mmap, no locks, no
  footers, page size 4096. One `MState` object holds malloc_state and the heap words; its methods are the routines of
  the source. The heap invariant is `MState.Valid`: the bins hold exactly the free chunks other than the designated
  victim (`Bins`, `Tries`, `State.Match`), the tiling of addresses by chunks agrees with every head and foot
  (`Tiling`), the chunks fill the segments (`Segments`), and the footprint is the sum of the segment sizes. Unsigned
  wrap-around is written out (`Wrap`, `Sub32`) where the source relies on it.
- **the kernel memory map and slab caches** (`k/memory.c` over `k/list.c`): `Lists`, `MemMap`, `Caches`, `KMemory`,
  `CacheGrowth` and, for whole runs, `KRuns`.
- **the KFS image writer** (`tools/mkkfs/mkkfs.c`, `k/include/k/kfs.h`): `Checksum`, `Kfs`, `Mkkfs`.
- **draw_line** (`libs/libk/graphic.c`): `Line`; **number and skip_atoi** (`libs/libc/printf.c`): `Printf`.

Layers of the dlmalloc model, bottom up: `Words`, `BitMaps`, `TreeIndex`, `Keys` (arithmetic); `Rings`, `Tries`,
`Bins` and `SmallBins`, `TreeInsert`, `TreeRelink`, `TreeRemove`, `TreeSearch`, `TreeDepth` (the bins and their
operations); `Tiling`, `TagOps`, `Segments`, `SegOps`, `Coalesce`, `Coverage`, `Footprint` (boundary tags as values);
`State`, `Keeping` (what callers keep), `Consolidate`, `AllocOps`, `Freeing`, `Malloc` (free and malloc inside the
heap); `Sbrk`, `Morecore`, `SysAsk`, `SysOps`, `SysSegs`, `SysInstall`, `SysRecord`, `SysPrepend`, `SysAlloc`,
`SysTrim` (memory from the system); `Heap`, `TopGrow`, `GrowRoom`, `Payloads`, `Realloc`, `Memalign`, `BulkFree`,
`Runs` (the exported routines and whole runs).

What callers keep in their blocks is guarded by a ghost field: `MState.guard` names blocks and the heap words as they
were, and the heap invariant says that no word overlapping those blocks has changed (`Keeping.KeptOk`). Each exported
routine sets the guard to all that must survive, so that keeping the invariant is leaving it alone (`Keeping.Spared`);
`Payloads` draws the conclusion for bytes.

Error branches the source guards with its checks (corruption and usage errors) appear in the methods as `assert
false`: they are proved unreachable for callers that pass blocks they hold.

Findings, each with a lemma:

- `internal_memalign` never returns for an alignment above 2^31 (`Memalign.DoublingEnds`).
- When `sbrk` does not extend top and the region lacks more than 0x7FFFF000 bytes, `sys_alloc` may not ask for the
  padding and keeps a region smaller than the request (`Morecore.PadExact`, `SysAlloc.ShortRegion`). Such a region
  becomes a segment and the request fails; but just below another segment the source carves the request out of it all
  the same (`SysAlloc.AstrayRegion`). A break off a word boundary is harmless for the first region, which is padded to
  a page end, and for a region right below a segment (`SysAlloc.OddRegion`), and spoils top's size otherwise
  (`SysInstall.TopWord`). `SysAsk.AstrayExact` says exactly when either happens; there the routines return false.
- A request of the kernel reserver for any address fails when a free block at address 0 is too small
  (`MemMap.AnywhereExact`), and one for a fixed address goes astray when base + size wraps (`MemMap.RefusedExact`). A
  fixed request that splits a prefix with two nodes left may lose the memory it asked for to the extension and then
  fails (`KMemory.PrefixLostExact`, `KMemory.PrefixLost`).
- Growing `metadata_cache` skips the watermark of `memory_map_cache` and can spend its last node
  (`CacheGrowth.GrowMetadata`); the next extension then fails unless its memory is exactly one free block
  (`KMemory.Replenished`). Where an extension fails the source goes on with a null pointer or recurses without end;
  the methods return false there.
- An empty block, left by a reservation of no bytes, hides from `memory_release` the block that begins at the same
  address (`KRuns.ReleaseExact`): that block is not freed, and nobody else's is.
- `draw_line` draws nothing for a vertical or horizontal line given backwards (`Line.Directions`).
- What `number` prints is not read back by `skip_atoi` if it begins with a sign character or a space
  (`Printf.ReadBack`).

## Model

| member | source | states |
|---|---|---|
| `Words.Request2SizeTight` | libs/libk/malloc.c:2219-2231 | a chunk size is 8-aligned, at least the minimum, holds the request and its overhead, and is the least such size |
| `BitMaps.LeastMarked` | libs/libk/malloc.c:2925-2961 | `x & -x` followed by the bit index finds the lowest marked bin of a non-zero map |
| `BitMaps.ProbeTwo` | libs/libk/malloc.c:4574-4579 | the two-bit probe says whether the request's own small bin or the next is marked, and the complement selects the empty one |
| `BitMaps.MaskLeft` | libs/libk/malloc.c:4592-4596 | the masks used to look beyond a bin select exactly the marked bins above it |
| `TreeIndex.BinRange` | libs/libk/malloc.c:2833-2907 | minsize(I) <= S, and S < minsize(I+1) except in the last bin, for every S from 256 up to 2^32 |
| `TreeIndex.BinMonotone` | libs/libk/malloc.c:2833-2893 | the tree index grows with the size |
| `TreeIndex.KeyOrder` | libs/libk/malloc.c:2896-2903 | shifted by leftshift, the sizes of one bin keep their order although the shift drops bits |
| `Keys.PathInjective` | libs/libk/malloc.c:3656-3691 | a bin and the path of bits below it determine a size, so two sizes never fight for a node |
| `Keys.PathOrder` | libs/libk/malloc.c:4436-4460 | of two sizes of a bin the one that goes left where they part is smaller |
| `TreeDepth.LimitDecides` | libs/libk/malloc.c:2896-2903 | 8-aligned sizes of a bin that agree on I/2+4 bits (29 in the last bin) are equal |
| `TreeDepth.DepthBound` | libs/libk/malloc.c:3303-3306 | no node of a trie lies deeper than I/2+4 edges, 29 in the last bin |
| `Rings.RingInsert` | libs/libk/malloc.c:3565-3580 | the four stores of an insertion keep the circular list and add the node behind its first |
| `Rings.RingRemove` | libs/libk/malloc.c:3584-3607 | unlinking the j-th node of a circular list leaves the list of the others in order |
| `SmallBins.InsertSmallChunk` | libs/libk/malloc.c:3565-3580 | the bin invariant is kept and exactly this chunk joins the ring of its size, although the header links of an empty bin may be stale |
| `SmallBins.UnlinkSmallChunk` | libs/libk/malloc.c:3584-3607 | the corruption branches are not reached, exactly this chunk leaves its ring, and the map bit is cleared when it was the last |
| `SmallBins.UnlinkFirstSmallChunk` | libs/libk/malloc.c:3610-3626 | the same for the chunk the header points at |
| `SmallBins.LastFirst` | libs/libk/malloc.c:3565-3626 | the chunk that entered a small bin last is the first to be taken out, which restores the bin |
| `TreeInsert.OnPath` | libs/libk/malloc.c:3656-3691 | a size already in the trie is met on the descent, so one tree node per size suffices |
| `TreeInsert.InsertLargeChunk` | libs/libk/malloc.c:3643-3707 | the trie invariant is kept and exactly this chunk is added, as a root, as a leaf at the end of its path, or chained to the node of its size |
| `TreeRemove.FindLeaf` | libs/libk/malloc.c:3724-3737 | the rightmost-preferring walk ends at a leaf of the trie below the node, together with the slot that points at it |
| `TreeRemove.UnlinkLargeChunk` | libs/libk/malloc.c:3711-3780 | chained node, leaf replacement, root and interior cases keep the trie invariant and take out exactly this chunk; the others of its size stay in order, the last of them in its place if it was the tree node; the corruption branches are not reached |
| `TreeRemove.JoinedLeaves` | libs/libk/malloc.c:3643-3780 | a chunk joins the others of its size right behind the tree node, and removing it is the inverse |
| `TreeSearch.DescendExact` | libs/libk/malloc.c:4435-4457 | after the descent the best so far and the deepest untaken right subtree cover every candidate of the bin, or the fit is exact |
| `TreeSearch.WalkLeftmost` | libs/libk/malloc.c:4468-4475 | the leftmost-preferring walk finds a smallest fit of its subtree; the wrapped remainders make the single comparison right |
| `TreeSearch.SearchLarge` | libs/libk/malloc.c:4429-4475 | the result is a smallest tree chunk of at least the request over all tree bins, 0 exactly if there is none |
| `TreeSearch.SearchSmall` | libs/libk/malloc.c:4500-4515 | the result is a smallest chunk of all the tree bins |
| `Tiling.PackRoundTrip` | libs/libk/malloc.c:2250-2264 | size and the two in-use bits can be read back from a head word exactly when the size is a multiple of 4 |
| `Tiling.Merge` | libs/libk/malloc.c:4358-4424 | turning any run of adjacent chunks into one chunk in use keeps sizes, in-use bits and feet consistent |
| `TagOps.Free` | libs/libk/malloc.c:2282-2287 | freeing a chunk between chunks in use keeps the tags consistent |
| `TagOps.Split` | libs/libk/malloc.c:4816-4823 | cutting a chunk in use in two keeps the tags consistent |
| `TagOps.TakeTop` | libs/libk/malloc.c:4653-4658 | giving out the bottom of top keeps the tags consistent |
| `TagOps.JoinTop` | libs/libk/malloc.c:4388-4398 | giving a chunk to top keeps the tags consistent |
| `Coalesce.NoTwoFree` | libs/libk/malloc.c:3259-3280 | a free chunk's lower neighbour is in use: no two free chunks touch |
| `Coalesce.FreeRun` | libs/libk/malloc.c:4358-4424 | freeing makes one free chunk of everything free around it |
| `Coalesce.FreeRunTop` | libs/libk/malloc.c:4388-4398 | freeing next to top gives everything free around it to top |
| `Coverage.ExactTiling` | libs/libk/malloc.c:3418-3446 | each segment is filled end to end by chunks, up to top and its foot or up to a record and its fenceposts, and holds no others |
| `Coverage.TilingDetermined` | libs/libk/malloc.c:5084-5091 | two heaps over the same segments with the same chunks in use have the same free chunks and the same top |
| `Footprint.FootprintFits` | libs/libk/malloc.c:4168-4169 | the segments are disjoint, so their sizes sum to less than 2^32 and counting the footprint never wraps |
| `Consolidate.UnlinkChunk` | libs/libk/malloc.c:3788-3790 | a free chunk leaves its bin; the heap invariant holds with it loose |
| `Consolidate.InsertChunk` | libs/libk/malloc.c:3784-3786 | a loose free chunk enters the bin of its size and the heap invariant is whole again |
| `Consolidate.DisposeChunk` | libs/libk/malloc.c:4358-4424 | the heap invariant is kept, the chunk is merged with the free space on both sides whether that is binned, the victim or top, the victim afterwards is the chunk it has become part of or none if that is top, no error branch is reached, and no word a kept block overlaps changes |
| `Freeing.FreedLive` | libs/libk/malloc.c:4358-4424 | freeing takes exactly the one chunk from the chunks callers hold; the others and the segment records are untouched |
| `Malloc.FitDecides` | libs/libk/malloc.c:4477-4479 | the unsigned test against `dvsize - nb` decides whether the tree chunk or the victim fits better, also when the victim is too small |
| `Malloc.TmallocLarge` | libs/libk/malloc.c:4429-4497 | 0 exactly if no tree chunk fits or the victim serves as well; otherwise the smallest fitting chunk is handed out and the invariant kept |
| `Malloc.TmallocSmall` | libs/libk/malloc.c:4500-4535 | the smallest tree chunk is handed out; the rest, if large enough for a chunk, becomes the victim |
| `Malloc.ReplaceDv` | libs/libk/malloc.c:3629-3638 | the old victim, known to be small, goes into its bin and the new one takes its place |
| `Malloc.AllocSmallExact` | libs/libk/malloc.c:4577-4588 | a chunk of the request's own or the next small bin serves without a remainder |
| `Malloc.AllocSmallSplit` | libs/libk/malloc.c:4590-4615 | the next non-empty small bin always leaves a remainder of at least the minimum chunk, which becomes the victim |
| `Malloc.AllocDv` | libs/libk/malloc.c:4633-4651 | the victim serves the request whole or split, and is cleared or moved up accordingly |
| `Malloc.AllocTop` | libs/libk/malloc.c:4653-4663 | top serves the request and moves up |
| `Malloc.MallocLocal` | libs/libk/malloc.c:4539-4663 | without the system: the chunk chosen is a best fit of the bins, the victim or top in the documented order, of equal ones the first of its bin's ring or the tree node, and the victim afterwards is what that choice leaves; 0 only if none of them is large enough, and then nothing has changed |
| `Malloc.ChosenBest` | libs/libk/malloc.c:2150-2180 | whatever is chosen: top only when no free chunk is large enough; for a large request a smallest of all free chunks that are; for a small one the victim or a smallest of the others, of its very size if there is one |
| `Malloc.NextNeighbour` | libs/libk/malloc.c:4600-4651 | what is left of a chunk that served a small request serves the next small one right behind it, unless a binned chunk is as small as that |
| `Heap.Dlmalloc` | libs/libk/malloc.c:4539-4673 | the result is 8-aligned, was nobody's, has exactly the padded size or all of a chunk with less than 16 bytes to spare; no word of any held block's memory is written; if anything free is large enough it is the chunk of the documented order of preference; 0 leaves every block and means nothing free was large enough; exactly when the request fails and exactly when sys_alloc goes astray on it follow from the heap and the system before the call, and so do the system, the segments, the footprint, the trim threshold and the contiguous flag after it; memory from the system serves at the bottom of top if it extends top and at the bottom of the new region otherwise, and what becomes of the victim is stated in every case |
| `Heap.MallocOnce` | libs/libk/malloc.c:4539-4673 | an allocation determines the system, the segments, the footprint, the threshold and the flag |
| `Heap.CanAskMeans` | libs/libk/malloc.c:4032-4238 | with a word-aligned break, and the padding allowed should the system be asked, sys_alloc does not go astray and takes in no region that does not serve the request |
| `Heap.GrantedByPlenty` | libs/libk/malloc.c:4032-4238 | a system that has the memory, without refusals or a footprint limit, grants every request that with its padding and two pages is at most half the address space |
| `Heap.Dlfree` | libs/libk/malloc.c:4677-4784 | exactly the chunk passed in is released, joined with its free neighbours, no usage error is reported for a held chunk, no word of any other held block's memory is written, and the system gets memory back exactly when top has grown past the threshold, has whole pages to spare and the system takes them |
| `Heap.FreedOnce` | libs/libk/malloc.c:4677-4784 | freeing determines the same, trimming included |
| `Heap.FreeTrims` | libs/libk/malloc.c:4677-4784 | freeing gives memory back if and only if the chunk joins top, top then exceeds the threshold and keeps more than a page, it ends at the break and the system takes it; the footprint loses what the system gets, and top is within its threshold afterwards unless more than half the address space was too much |
| `Heap.CallocExact` | libs/libk/malloc.c:4786-4796 | the overflow test is exact: the request is n*size if that fits 32 bits and otherwise one that must fail |
| `Sbrk.System.Grow` | libs/libk/syscalls.c:68-71 | the system may refuse; if it grants, the new memory starts at the old break |
| `Morecore.PadExact` | libs/libk/malloc.c:4103-4120 | the padding may be asked for exactly when the region lacks at most 0x7FFFF000 bytes; with it the region has what the request needs, without it the region stays short by more than that |
| `SysAsk.SizeExact` | libs/libk/malloc.c:4047-4120 | the size of the region obtained, in every case: the least number of pages for what top lacks where it extends top or could not be padded, the least for the whole request elsewhere, and for the first region as much more as takes it to a page end |
| `SysAsk.FirstSegment` | libs/libk/malloc.c:4083-4098 | the first segment begins at the break and ends at a page boundary, which is the new break |
| `SysAsk.Conserved` | libs/libk/malloc.c:4078-4164 | what is obtained ends at the new break, and break and room add up to what they were |
| `SysAsk.NothingLost` | libs/libk/malloc.c:4112-4164 | unless the system refuses to take a region back, a failure leaves the break where it was and a region begins there whichever attempt obtained it |
| `SysAsk.LimitExact` | libs/libk/malloc.c:4050-4054 | the wrapped comparisons decide exactly whether footprint + size is within the limit |
| `SysAsk.LimitKept` | libs/libk/malloc.c:4050-4095 | whatever region is obtained, first or padded, the footprint stays within the limit |
| `Morecore.MorecorePad` | libs/libk/malloc.c:4112-4131 | a region that did not extend top is padded, given back, or kept short; what is kept suits the request if and only if the padding may be asked for |
| `SysAlloc.ShortRegion` | libs/libk/malloc.c:4103-4131 | a heap, a request and a break for which the source keeps a region smaller than the request, which becomes a segment of its own |
| `SysAlloc.AstrayRegion` | libs/libk/malloc.c:4103-4131 | a valid heap of two segments, a request and a break for which the short region ends where the second segment begins, and sys_alloc goes astray |
| `SysAsk.AstrayExact` | libs/libk/malloc.c:4103-4216 | in terms of the state before the call and the region obtained, for every request: where the region ends at a segment's base the source goes astray if and only if it was kept short; elsewhere if and only if the break was off a word boundary and it is not the first region |
| `SysAsk.ShortEnd` | libs/libk/malloc.c:4096-4131 | the region kept short is the extension asked for, so that its end is known before the call |
| `SysAsk.ServesExact` | libs/libk/malloc.c:4032-4238 | a request is served if and only if a region is obtained that is not kept short and the break was word-aligned, the region is the first or it ends at a segment's base |
| `SysAlloc.OddRegion` | libs/libk/malloc.c:4201-4213 | a heap and an odd break for which the region ends at a segment's base, which is odd as well: the request is served |
| `SysAsk.Plenty` | libs/libk/malloc.c:4078-4164 | whatever the heap and whichever attempt is made, a system with two pages more than the request serves it, up to half the address space |
| `SysAsk.SecondAttempt` | libs/libk/malloc.c:4148-4164 | a heap that extends contiguously is served although the system turns down any one call |
| `Morecore.MorecoreContiguous` | libs/libk/malloc.c:4078-4137 | what the contiguous attempts obtain is fresh memory; it is large enough for the request if and only if it is the first region, extends top or may be padded, and ends at a word if and only if it is the first or the break was at one; the first ends at a page boundary (SysAsk.SizeExact) |
| `Morecore.MorecoreFresh` | libs/libk/malloc.c:4148-4164 | what the last attempt obtains is fresh and large enough; it ends at a word if and only if the break was at one |
| `SysInstall.TopWord` | libs/libk/malloc.c:3890-3903 | the word that holds top's size can be read back if and only if the region ends at a word boundary |
| `SysInstall.InitBins` | libs/libk/malloc.c:3906-3913 | every small bin header points at itself, and with nothing binned the bin invariant does not notice |
| `SysInstall.InstallFirst` | libs/libk/malloc.c:4171-4190 | the first region becomes the segment and all of it but the foot becomes top |
| `SysInstall.Append` | libs/libk/malloc.c:4194-4204 | a region that continues top's segment becomes part of top; nobody's chunk changes |
| `SysInstall.WriteFences` | libs/libk/malloc.c:4005-4015 | at least two fenceposts, in a row up to the end of the old segment |
| `SysPrepend.PrependAlloc` | libs/libk/malloc.c:3935-3974 | a region just below a segment serves the request from its bottom and the rest is merged with the old first chunk, be it top, the victim, which then begins where the rest does, free or in use |
| `SysRecord.AddSegment` | libs/libk/malloc.c:3977-4027 | the new region becomes the most recent segment, the old top ends in the record and at least two fenceposts inside the old segment, and its rest is binned |
| `SysAlloc.Place` | libs/libk/malloc.c:4166-4234 | which segment the region joins, or none, follows from its address; either way the invariant holds, footprint is the sum of the segment sizes, max_footprint the higher of it and what it was, and least_addr as low as the region where the source lowers it; the request is served if and only if the region suits it, from the bottom of top if top was extended and of the region otherwise |
| `SysAlloc.SysAlloc` | libs/libk/malloc.c:4032-4238 | for any behaviour of the system: it is asked as the source asks; the region obtained, the segments, the footprint, whether the source goes astray and whether the request is served are determined by the state before the call; 0 leaves every held block as it was, and the whole heap if nothing was obtained; the first region makes the only segment, from the old break to a page boundary; where the request is served and what becomes of the victim are stated; the invariant is kept |
| `SysTrim.SurplusTight` | libs/libk/malloc.c:4297-4319 | what is given back is the largest number of pages that leaves more than pad, capped below half the address space |
| `SysTrim.TrimExact` | libs/libk/malloc.c:4290-4335 | memory goes back if and only if the pad is in range, top has more than a page beyond pad and foot and ends at the break, and the system does not refuse |
| `SysTrim.TrimConserves` | libs/libk/malloc.c:4336-4345 | top, its segment and the footprint lose exactly what the system gets |
| `SysTrim.TrimSuffices` | libs/libk/malloc.c:4290-4353 | past the threshold, trimming leaves top within it unless more than half the address space was too much |
| `SysTrim.SysTrim` | libs/libk/malloc.c:4290-4353 | memory goes back if and only if the pad is in range, top has whole pages beyond it, the break is still at its segment's end and the system takes them; then top loses as many pages as leave more than pad, short of half the address space, and footprint goes down by the same; otherwise nothing has changed but the threshold |
| `TopGrow.GrowTop` | libs/libk/malloc.c:4826-4837 | growing a chunk over the bottom of top keeps the tags consistent |
| `TopGrow.Absorb` | libs/libk/malloc.c:4851-4868 | taking in the free chunk that follows keeps the tags and the segments consistent and changes no other held chunk |
| `Realloc.GrowSplitDv` | libs/libk/malloc.c:4838-4850 | growing into the victim leaves the rest of it as the victim |
| `GrowRoom.ResizeExact` | libs/libk/malloc.c:4806-4883 | the branch tests hold if and only if no other chunk in use of the segment begins below the new end and, in top's segment, a byte of top is left beyond it |
| `Realloc.TryReallocChunk` | libs/libk/malloc.c:4806-4883 | in place if and only if there is that room; otherwise nothing changes; the result has exactly nb bytes, or all there is if less than 16 are over; a victim that follows the chunk is what is left of it above the new end, and any other stays |
| `Realloc.ReallocChunk` | libs/libk/malloc.c:4806-4883 | no word that overlaps another block's memory, or the block's own up to the smaller of the two sizes, is written |
| `Keeping.RetagKept` | libs/libk/malloc.c:2282-2292 | heads written only where chunks begin or in top, and feet only behind free chunks, overlap no held block |
| `Keeping.LinksKept` | libs/libk/malloc.c:3565-3780 | links written only in binned chunks and bin headers overlap no held block |
| `Payloads.SparedBytes` | libs/libk/malloc.c:2047-2180 | whatever the allocator's stores make of the bytes of their words, the bytes callers hold are as they were |
| `Payloads.MetadataApart` | libs/libk/malloc.c:2047-2180 | no head, foot of a free chunk, link or word of top is a byte a caller may use |
| `Realloc.Dlrealloc` | libs/libk/malloc.c:5180-5223 | the block stays where it is if and only if nothing in use lies below its new end and top keeps a byte beyond it; otherwise the call succeeds exactly when dlmalloc would; the new block has at least `bytes` bytes and starts with the old contents up to the smaller of the two sizes, all other blocks and their bytes are untouched, all this after the allocator's own stores; in place the chunk has exactly the padded size or all there is; 0 leaves the old block intact |
| `Memalign.DoublingEnds` | libs/libk/malloc.c:4889-4893 | the loop that rounds the alignment up to a power of two ends if and only if the alignment is at most 2^31 |
| `Memalign.RoundAlignment` | libs/libk/malloc.c:4889-4893 | the loop finds a power of two from the alignment up to less than twice it |
| `Memalign.SpotFacts` | libs/libk/malloc.c:4907-4923 | the spot chosen is aligned and leaves a leader that is a multiple of 8 and at least the minimum chunk |
| `Memalign.LeaderRoom` | libs/libk/malloc.c:4900-4933 | the padding nb + alignment + 16 - 4 is enough for any leader |
| `Memalign.PaddedSize` | libs/libk/malloc.c:4900-4902 | the padded request is for a chunk larger than needed by the alignment and one smallest chunk, no more |
| `Memalign.RoundsUnique` | libs/libk/malloc.c:4889-4894 | the alignment used is the only power of two from the one asked for to below twice it |
| `Memalign.InternalMemalign` | libs/libk/malloc.c:4885-4957 | the result is aligned to that power of two, begins at the first aligned spot of the chunk dlmalloc hands out that has no leader or one of at least 16 bytes below it, and has exactly the padded size unless at most 16 bytes were over; what is given back leaves the invariant whole, and no word of a held block's memory is written; it fails exactly if the padded request is too large or would fail in dlmalloc |
| `BulkFree.FreeOrJoin` | libs/libk/malloc.c:5096-5122 | merging array neighbours first releases, in the end, exactly the chunks named |
| `BulkFree.InternalBulkFree` | libs/libk/malloc.c:5092-5132 | every named chunk is released, the array is cleared, other chunks are as before and no word of their memory is written, and top is trimmed once, exactly if it is past the threshold then; the victim is the free chunk that now holds the old one's memory, if there is one |
| `BulkFree.BulkTrims` | libs/libk/malloc.c:5128-5130 | that trim gives memory back if and only if top exceeds the threshold and keeps more than a page, it ends at the break and the system takes it |
| `BulkFree.ReleaseDetermined` | libs/libk/malloc.c:5084-5132 | two releases of the same chunks leave the same free extents and the same top |
| `BulkFree.FreeEach` | libs/libk/malloc.c:4358-4424 | freeing the named chunks one at a time, in any order, releases exactly them |
| `BulkFree.BulkEqualsEach` | libs/libk/malloc.c:5084-5132 | from the same heap, bulk freeing and freeing the same pointers one at a time in any order end with the same chunks, the same top and the same victim |
| `State.MState.constructor` | libs/libk/malloc.c:2630-2637 | the zeroed static state satisfies the heap invariant |
| `Runs.Perform` | libs/libk/malloc.c:4539-5223 | one call keeps the heap invariant, the chunks in use are exactly the blocks the program holds, the call's own effect on them and on the victim is as documented and the bytes of all other blocks are as they were; which requests fail, which make sys_alloc go astray, and the break, the segments, the footprint, the threshold and the flag afterwards follow from the state before the call |
| `Runs.PerformCalloc` | libs/libk/malloc.c:4786-4799 | a block of n*size zero bytes where the product is no overflow and the memory is there; all other blocks keep their bytes |
| `Runs.RunScript` | libs/libk/malloc.c:3418-3476 | so does any script of malloc, calloc, free, realloc, memalign and bulk free calls with others moving the break up and down in between, up to the first call at which sys_alloc does go astray: a trace of all moments shows what each call made of the tiling, the blocks, the system and the segments of the one before, and the invariants the authors check over the whole state hold at every moment |
| `Lists.ListInsert` | k/list.c:14-20 | the element comes right behind the node it is inserted at; the other nodes keep their order |
| `Lists.ListAppend` | k/list.c:14-20 | inserting at the head's predecessor appends |
| `Lists.FreeNode` | k/memory.c:106-115 | a node made a list of its own and inserted at the head comes first on the free list |
| `Lists.ListRemove` | k/list.c:22-28 | the others stay in order and the element's own links become null |
| `Lists.ListEmpty` | k/list.c:30-33 | true exactly for a list without members |
| `Caches.Watermark` | k/memory.c:44-70 | freelist_size counts one too many on a list that is not empty; still, cache_remaining is at most 2 exactly if at most one node is free |
| `Caches.CacheRemaining` | k/memory.c:44-70 | the miscount summed over the cache and those chained to it |
| `Caches.CacheInitialize` | k/memory.c:13-26 | the free list holds the slab's nodes in address order |
| `MemMap.CarveGrants` | k/memory.c:197-208 | splitting a free block keeps the map ordered over the same addresses, and exactly the split-off bytes stop being free |
| `MemMap.RefusedExact` | k/memory.c:229-232 | the 32-bit end test keeps accepted requests inside their block exactly when base + size does not wrap |
| `MemMap.AnywhereExact` | k/memory.c:218-241 | a request for any address finds a block exactly when one is large enough and no smaller free block lies at address 0, where the search stops |
| `MemMap.CarveTwice` | k/memory.c:233-241 | the prefix split off for a fixed address is itself marked reserved, and the request is what follows it |
| `KMemory.TryTake` | k/memory.c:72-86 | the first free node of the cache or, if it has none, of the first chained cache that has one; none exactly if the whole family is out of nodes |
| `KMemory.MemorySplit` | k/memory.c:197-208 | the front of the block becomes a reserved block, its node comes off a free list, nodes and caches stay on one list each, that of their slab, and with their slabs, whole, outside free memory; it fails exactly without a free node |
| `KMemory.CacheExtend` | k/memory.c:28-33 | one descriptor less and a slab of nodes more for the cache's family, all in reserved memory and on no other list; it fails exactly without a free descriptor |
| `KMemory.Replenish` | k/memory.c:210-216 | at the watermark ten nodes are made from memory of the map itself; above it nothing happens; it fails exactly without a descriptor, without a block, or if cutting the block takes a node and none is left |
| `KMemory.QuietGrows` | k/memory.c:210-254 | with three free nodes, or two and no prefix to split, a reservation is never stuck, nothing grows and the request is served from the map as it is |
| `KMemory.FitsAfterExtension` | k/memory.c:210-241 | after an extension a fixed request is served if and only if it fitted before and the extension has not taken its first byte |
| `KMemory.PrefixLostExact` | k/memory.c:229-238 | a fixed request that fits and splits a prefix with two nodes left is served if and only if the extension finds its memory elsewhere: the rest of the block is too small for it or an earlier free block is large enough |
| `KMemory.PrefixLost` | k/memory.c:229-238 | a map and a request that fits and fails in this way |
| `KMemory.MemoryReserveEx` | k/memory.c:210-254 | terminates; it is stuck exactly if a needed extension cannot be had, and otherwise keeps at least one free node, the free nodes and the blocks of the map being the same number as before but for ten per extension; a non-null result was free memory, is now a reserved block of that size at the address asked for, overlaps no node and no cache, and nothing reserved before has changed; the whole new map, extensions included, is determined, and the result is non-null exactly if the search of the map so prepared finds room |
| `CacheGrowth.GrowMetadata` | k/memory.c:88-93 | metadata_cache grows exactly while a descriptor is left and its reservation succeeds; that reservation may spend the last map node |
| `CacheGrowth.CacheAlloc` | k/memory.c:72-104 | the first free node of the family or, once it has none, of a slab newly reserved for it, a node of one of its slabs, on no list and, whole, outside memory still to be given out; with the family out of nodes it fails exactly if metadata_cache at its watermark, the map at its own or the slab itself cannot have its memory, node or descriptor; after a growth the map, the free nodes, the descriptors and the new slab are determined |
| `CacheGrowth.SpareLeft` | k/memory.c:88-98 | a growth leaves a descriptor for the next one, unless nodes for the map had to be made as well |
| `KMemory.MemoryRelease` | k/memory.c:256-266 | the first block that begins at the pointer becomes free, whatever it was, the map covers the same addresses, and the kernel stays in order if no node, cache or slab lies in the block |
| `KMemory.ReleaseUndoes` | k/memory.c:197-266 | releasing what was just split off frees exactly the same bytes again, in two blocks |
| `KMemory.CacheFree` | k/memory.c:106-129 | the pointer goes to the front of the free list of the one slab it is a node of, and one outside all slabs of the family is dropped; the kernel stays in order, every free node one of its own slab's, unless the pointer is in a slab without being a node of it |
| `KMemory.NodesOutside` | k/memory.c:13-26 | the nodes of all slabs are the same or have no byte in common |
| `KMemory.TakeAndFree` | k/memory.c:72-129 | taking a node and giving it back restores every free list |
| `KRuns.ReleaseExact` | k/memory.c:256-266 | a release frees the region that begins at the pointer exactly if no empty block begins there |
| `KRuns.Perform` | k/memory.c:72-266 | one call keeps the kernel in order and the callers' regions and nodes theirs, over a map of the same addresses; which calls are served, what they hand out, and the map, the free map nodes, the descriptors and the free nodes of the cache afterwards are determined; a node given back is in front of the list of the slab it is a node of, and no other list changes |
| `KRuns.StockDetermined` | k/memory.c:72-266 | two outcomes of a call that is served have the same numbers of free nodes and descriptors and, but for a release, the same map: whether the next call is served follows |
| `KRuns.RunScript` | k/memory.c:72-266 | so does any script of reserves, releases, cache allocations and frees, up to the first call that cannot be served: a trace of all moments shows what each call made of the map and of the caches of the one before, and that the last is refused for want of nodes, descriptors or memory |
| `KRuns.Exclusive` | k/memory.c:197-266 | in every such state a byte of a caller's region is covered by the map, is not free, and lies in no other region and in no part of any map node, cache, slab, free node or lent node |
| `KRuns.LentExclusive` | k/memory.c:72-129 | no byte of a node in a caller's hands is free, in a region, in another such node or in any free node |
| `Checksum.KfsChecksum` | k/include/k/kfs.h:78-90 | the 32-bit sums reduced once at the end, wrap-around included |
| `Checksum.ShortStrings` | k/include/k/kfs.h:78-90 | for up to 5803 bytes nothing overflows and the result is the Adler-32 of sections 2.2 and 8.2 of RFC 1950 |
| `Checksum.DelayedExact` | k/include/k/kfs.h:78-90 | 5803 is exact: for every greater length some string of that length gets a wrong checksum |
| `Kfs.StructuresShort` | k/include/k/kfs.h:30-73 | every structure summed is well below that length |
| `Kfs.DataFields` | k/include/k/kfs.h:30-35 | index, usage, the checksum field and the data can be read back from a data block's bytes at offsets 0, 4, 8 and 12, little-endian |
| `Kfs.IndexFields` | k/include/k/kfs.h:37-42 | likewise index, count and block numbers of an index block at 0, 4 and 8 on |
| `Kfs.InodeFields` | k/include/k/kfs.h:44-56 | likewise every field of an inode, the name at 4 and the block lists at 60 and 100 |
| `Kfs.SuperFields` | k/include/k/kfs.h:67-75 | likewise every field of the superblock, the name at 4 and the counts at 40 and 44 |
| `Mkkfs.WriteData` | tools/mkkfs/mkkfs.c:91-126 | a data block holds the next bytes of the file, its own index, how many are used, zeros after them and a right checksum |
| `Mkkfs.WriteDirect` | tools/mkkfs/mkkfs.c:112-127 | the direct blocks read back as the file up to where reading stopped |
| `Mkkfs.WriteIndirect` | tools/mkkfs/mkkfs.c:129-162 | the index blocks and what they list read back as the rest of the file |
| `Mkkfs.WriteInode` | tools/mkkfs/mkkfs.c:109-163 | following the direct and then the indirect blocks gives back the file, for every file up to KFS_MAX_FILE_SZ; the blocks used are consecutive, one more than the data blocks for each index block |
| `Mkkfs.ChainYields` | tools/mkkfs/mkkfs.c:168-215 | from any inode on, the chain yields the remaining files in order and then ends |
| `Mkkfs.WriteFiles` | tools/mkkfs/mkkfs.c:168-215 | each inode carries its number, link, size, block count and name; the program gives up exactly if a file is too large |
| `Mkkfs.Mkkfs` | tools/mkkfs/mkkfs.c:227-277 | from the superblock the inode chain gives every file back once and in order, each block index below blk_cnt is written exactly once, and every checksum and index field is right; the superblock has the number of files, the first inode's index, the time and the name, each inode its number, size, name and the least number of blocks for the size, and what a structure does not use is zero; a name field holds the name as far as it fits and then zeros |
| `Line.DrawPixel` | libs/libk/graphic.c:311-319 | one pixel changes, none off the screen |
| `Line.AdvanceUnique` | libs/libk/graphic.c:358-384 | the range of the error term determines the minor coordinate |
| `Line.AdvanceBetween` | libs/libk/graphic.c:358-384 | the minor coordinate stays between the two ends |
| `Line.ShallowNearest` | libs/libk/graphic.c:341-384 | each plotted point is the nearest to the ideal line in its column, twice its distance from it at most one step, and lies between the ends |
| `Line.ShallowEnds` | libs/libk/graphic.c:366-384 | after the last column the minor coordinate is exactly at its end |
| `Line.LineNearest` | libs/libk/graphic.c:321-385 | for every line off the axes: its points lie in the box of its ends, one at each step of the longer side, each within half a step of the line and the nearest there, of two equally near the one closer in the shorter side to the end where the longer side starts |
| `Line.AxisPoints` | libs/libk/graphic.c:335-340 | a line along an axis plots exactly the pixels from its first end up to its second |
| `Line.PixelOrder` | libs/libk/graphic.c:311-319 | pixel (x, y) is word y * width + x of the frame buffer |
| `Line.Directions` | libs/libk/graphic.c:321-385 | both directions plot the same points if and only if the line is off the axes or empty; a line plots nothing if and only if it runs along an axis backwards or is empty |
| `Line.DrawShallow` | libs/libk/graphic.c:358-384 | the loop plots exactly those points, through the steep swap, keeps the error term in range and leaves y at its end value |
| `Line.DrawLine` | libs/libk/graphic.c:321-385 | exactly the points of the line change colour, and nothing if an end is off the screen |
| `Line.DrawnExactly` | libs/libk/graphic.c:311-319 | of the pixels of the screen those that are points of the line have the colour and the others are as they were |
| `Printf.Number` | libs/libc/printf.c:51-121 | the loops write the field: padding outside or zeros inside, sign, prefix, precision zeros and digits, for every flag, width and precision; null exactly for a base outside 2..16 |
| `Printf.FormattedLength` | libs/libc/printf.c:51-121 | the length is exactly max(width, sign + prefix + max(digits, precision)) |
| `Printf.DigitsFit` | libs/libc/printf.c:57-94 | tmp is large enough: a 32-bit number has at most 32 digits |
| `Printf.SkipAtoi` | libs/libc/printf.c:28-35 | the value of the digits from here, as far as 32 bits hold it, and where they end |
| `Printf.ReadBack` | libs/libc/printf.c:28-121 | skip_atoi reads back what number prints in base 10, for every number in [0, INT_MAX], if and only if the number is 0 or its field begins with its digits: no sign character and no padding in front but zeros |
| `Printf.FieldReads` | libs/libc/printf.c:51-121 | strtol with the same base reads every field back as the number, or as its two's complement word if it was printed unsigned, whatever the base, width, precision and flags |

## Left out

- SysAlloc.SysAlloc: what the source does to memory once it has gone astray (`SysAsk.AstrayExact`) is not modelled; sbrk(0) always answers.
- Memalign.InternalMemalign: only alignments up to 2^31, since the source does not return for others.
- KMemory.MemoryReserveEx: requests whose base + size wraps are excluded (MemMap.RefusedExact); what the source does after a failed extension is not modelled.
- Printf.Number: the most negative long printed as signed is excluded, since negating it is undefined in C.
- Printf.SkipAtoi: int arithmetic is taken to wrap; C leaves its overflow undefined.
- `cache_new` and `memory_dump`: a descriptor taken and initialised, and output.
- KRuns.RunScript: one cache of the callers besides the two of the reserver.
- mmap, mremap, mspaces, locks, footers, `mallopt`, `mallinfo` and the inspection routines: compiled out or only reporting.
- `release_unused_segments` acts only on mmapped segments, of which there are none; its countdown is not kept.
- `independent_calloc`, `independent_comalloc`, `posix_memalign`, `valloc` and `realloc_in_place`: thin uses of the routines modelled.
- Memory is kept by field (head, foot, links, callers' bytes) rather than as one array of words; Payloads.Overwrite says which bytes a change of words may touch.
- The segment list is a sequence with the most recent segment first; the records' own words in the heap are only reserved, as chunks in use.
- `prepend_alloc` and `add_segment` tag the chunk they are about to free as in use first, one store the source does not make and overwrites at once; `dlfree` and `dispose_chunk`, which repeat the same consolidation in the source, share it here.
- Between two calls anybody may move the break, down only over memory that is not the heap's; during one call nobody else does.
- The lists of `k/memory.c` are sequences of node addresses; Lists shows that the pointer operations of `k/list.c` keep such sequences.
- `memory_init`: the multiboot map, the first pools and their addresses are preconditions.
- mkkfs: option parsing, open, fstat and pwrite errors, short reads, 32-bit overflow of block indices; the image is a map from block index to structure.
- The rest of `graphic.c` and `printf.c`.
