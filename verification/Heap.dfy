/** dlmalloc, dlfree and dlcalloc. */
module Heap {
  import opened Words
  import opened Rings
  import opened Tries
  import opened Bins
  import opened Tiling
  import opened Segments
  import opened Coalesce
  import opened State
  import opened Keeping
  import opened Consolidate
  import opened AllocOps
  import opened Freeing
  import opened Sbrk
  import opened Morecore
  import opened SysInstall
  import opened SysAsk
  import opened SysAlloc
  import opened SysTrim
  import Malloc

  /** A chunk in the tiling has an 8-aligned, non-zero address. */
  lemma TileAligned(g: Tags, p: int)
    requires TagsOk(g) && p in g.tiles
    ensures p % 8 == 0 && p > 0
  {}

  /** No free chunk has nb bytes, and top has none to spare. */
  ghost predicate NothingFits(g: Tags, nb: nat) {
    g.topsize <= nb && forall p | p in g.tiles && !g.tiles[p].used :: g.tiles[p].size < nb
  }

  lemma NoneFree(m: MState, nb: nat)
    requires m.Valid() && m.dvsize < nb && m.topsize <= nb && forall a | a in m.v.sz :: m.v.sz[a] < nb
    ensures NothingFits(m.G(), nb)
  {
    hide TagsOk, SegsOk, BinsInv, Known, FootprintOk, KeptOk;
    Malloc.DvSize(m, {});
    forall p | p in m.tiles && !m.tiles[p].used ensures m.tiles[p].size < nb {
      assert p == m.dv || p in m.v.sz;
    }
  }

  /** The free chunk the documented order of preference selects, and the victim it leaves. */
  ghost predicate Picked(g: Tags, sz: Sizes, dv: int, dvsize: nat, nb: nat, p: int, dv': int, dvsize': nat) {
    Malloc.Chosen(g, sz, dv, dvsize, nb, p) && Malloc.VictimAfter(sz, dv, dvsize, nb, p, dv', dvsize')
  }

  /** A request no free chunk and not even top is large enough for. */
  ghost predicate NeedsSystem(g: Tags, p: Position, bytes: nat) {
    bytes < MAX_REQUEST && NothingFits(g, Request2Size(bytes)) && MayAsk(p, Request2Size(bytes))
  }

  /** The heap has the memory, or the system hands it over. */
  ghost predicate Granted(g: Tags, p: Position, bytes: nat) {
    bytes < MAX_REQUEST && (NeedsSystem(g, p, bytes) ==> Serves(p, Request2Size(bytes)))
  }

  /** sys_alloc is asked, and goes astray. */
  ghost predicate Strays(g: Tags, p: Position, bytes: nat) {
    NeedsSystem(g, p, bytes) && GoesAstray(p, Request2Size(bytes))
  }

  /** sys_alloc takes a region in that does not serve the request. */
  ghost predicate TakesShort(g: Tags, p: Position, bytes: nat) {
    && NeedsSystem(g, p, bytes) && Gives(p, Request2Size(bytes)).region.Some?
    && !Serves(p, Request2Size(bytes)) && !GoesAstray(p, Request2Size(bytes))
  }

  /** Nothing but top has changed; for top see the tiling. */
  predicate SameTerms(p: Position, p': Position) { p' == p.(top := p'.top, topsize := p'.topsize) }

  /** An allocation determines everything but top. */
  lemma MallocOnce(g: Tags, p: Position, bytes: nat, a: Position, b: Position)
    requires Coherent(g, p) && MallocBy(g, p, bytes, a) && MallocBy(g, p, bytes, b)
    ensures SameTerms(a, b)
  {
    hide TagsOk, RecordsOk, NothingFits, Request2Size, AskedBy;
    if NeedsSystem(g, p, bytes) { AskedOnce(p, 0, Request2Size(bytes), a, b); }
  }

  lemma MallocTop(g: Tags, p: Position, bytes: nat, p1: Position, p': Position)
    requires MallocBy(g, p, bytes, p1) && SameTerms(p1, p')
    ensures MallocBy(g, p, bytes, p')
  {
    hide NothingFits, Request2Size, Gives, GoesAstray, Joins, StaysContiguous;
  }

  /** The tiling and the position are those of one heap. */
  ghost predicate Coherent(g: Tags, p: Position) {
    TagsOk(g) && RecordsOk(g) && SegsOk(p.segs, 0, g) && p.top == g.top && p.topsize == g.topsize
  }

  lemma CoherentNow(m: MState, sys: System)
    requires m.Valid()
    ensures Coherent(m.G(), Asking(m, sys))
  {
    hide TagsOk, BinsInv, Known, Match, FootprintOk, KeptOne, RecordsOk, SegInside, SegFirst, RecLast;
  }

  /** What an allocation makes of the position. */
  ghost predicate MallocBy(g: Tags, p: Position, bytes: nat, p': Position) {
    if NeedsSystem(g, p, bytes) then AskedBy(p, Request2Size(bytes), p') else SameTerms(p, p')
  }

  /** Where a block the system's memory served begins, and the victim then; a failure without the system leaves it. */
  ghost predicate VictimBy(g: Tags, p: Position, bytes: nat, mem: int, dv: int, dvsize: nat, dv': int, dvsize': nat) {
    if NeedsSystem(g, p, bytes) then SysAlloc.FromSystem(p, Request2Size(bytes), mem, dv, dvsize, dv', dvsize')
    else mem == 0 ==> dv' == dv && dvsize' == dvsize
  }

  /** The chunk at q is handed out: one the order of preference selects, or where the system's memory serves. */
  ghost predicate HandsOut(g: Tags, p: Position, sz: Sizes, dv: int, dvsize: nat, bytes: nat, q: int) {
    && (!NothingFits(g, Request2Size(bytes)) ==> Malloc.Chosen(g, sz, dv, dvsize, Request2Size(bytes), q))
    && (NeedsSystem(g, p, bytes) ==>
          var r := Gives(p, Request2Size(bytes)).region;
          r.Some? && q == ServedAt(p.segs, p.top, r.value.base, r.value.size))
  }

  lemma HandsOutBy(g: Tags, p: Position, sz: Sizes, dv: int, dvsize: nat, bytes: nat, mem: int, dv': int, dvsize': nat)
    requires Granted(g, p, bytes) && mem != 0 && VictimBy(g, p, bytes, mem, dv, dvsize, dv', dvsize')
    requires !NothingFits(g, Request2Size(bytes)) ==>
               Picked(g, sz, dv, dvsize, Request2Size(bytes), mem - 8, dv', dvsize')
    ensures HandsOut(g, p, sz, dv, dvsize, bytes, mem - 8)
  {
    hide NothingFits, Request2Size, Gives, MayAsk, ServedAt, Malloc.Chosen, VictimPlaced;
    if NeedsSystem(g, p, bytes) {
      RequestGood(bytes);
      ServedSane(p, Request2Size(bytes));
    }
  }

  lemma RequestGood(bytes: nat)
    requires bytes < MAX_REQUEST
    ensures Request2Size(bytes) >= 16
  {
    Request2SizeTight(bytes);
  }

  /** What serves a request does not lead astray. */
  lemma ServedSane(p: Position, nb: nat)
    requires MayAsk(p, nb) && nb >= 16 && Serves(p, nb)
    ensures Gives(p, nb).region.Some? && !GoesAstray(p, nb)
  {
    hide Gives, NoneAbove;
  }

  lemma VictimAsked(g: Tags, p: Position, bytes: nat, nb: nat, mem: int, dv: int, dvsize: nat, dv': int, dvsize': nat)
    requires nb == (if bytes >= MAX_REQUEST then MAX_SIZE_T else Request2Size(bytes)) && MayAsk(p, nb)
    requires NothingFits(g, nb) && SysAlloc.FromSystem(p, nb, mem, dv, dvsize, dv', dvsize')
    ensures VictimBy(g, p, bytes, mem, dv, dvsize, dv', dvsize')
  {
    hide NothingFits, Request2Size, Gives, GoesAstray, MayAsk;
    HugeRefused(p);
  }

  lemma VictimLocally(g: Tags, p: Position, bytes: nat, mem: int, dv: int, dvsize: nat, dv': int, dvsize': nat)
    requires bytes < MAX_REQUEST && !NothingFits(g, Request2Size(bytes)) && mem != 0
    ensures VictimBy(g, p, bytes, mem, dv, dvsize, dv', dvsize')
  {
    hide NothingFits, Request2Size;
  }

  /** Should the system have to be asked for this many bytes, sys_alloc can count on its padding. */
  ghost predicate CanAsk(g: Tags, p: Position, bytes: nat) {
    p.sys.brk % 4 == 0 && (NeedsSystem(g, p, bytes) ==> Guarded(p.contiguous, p.topsize, Request2Size(bytes)))
  }

  /** Then the request is granted or leaves everything as it was. */
  lemma CanAskMeans(g: Tags, p: Position, bytes: nat)
    requires CanAsk(g, p, bytes)
    ensures !Strays(g, p, bytes) && !TakesShort(g, p, bytes)
  {
    hide Gives, NothingFits, Serves, GoesAstray, Guarded, Request2Size, MayAsk;
    if NeedsSystem(g, p, bytes) {
      Request2SizeTight(bytes);
      GuardedServes(p, Request2Size(bytes));
    }
  }

  /** A system that has the memory grants every request below half the address space. */
  lemma GrantedByPlenty(g: Tags, p: Position, bytes: nat)
    requires bytes < MAX_REQUEST && p.sys.brk % 4 == 0 && p.sys.refusals == [] && p.footprintLimit == 0
    requires var want := Request2Size(bytes) + SYS_ALLOC_PADDING + 2 * PAGE_SIZE;
             want <= HALF_MAX_SIZE_T && want <= p.sys.room
    ensures Granted(g, p, bytes) && !Strays(g, p, bytes)
  {
    hide Gives, NothingFits, Serves, GoesAstray, Request2Size, MayAsk;
    if NeedsSystem(g, p, bytes) {
      Request2SizeTight(bytes);
      Plenty(p, Request2Size(bytes));
    }
  }

  /** Where nothing fits, no chunk is chosen. */
  lemma NoneChosen(m: MState, bytes: nat)
    requires m.Valid() && bytes < MAX_REQUEST && NothingFits(m.G(), Request2Size(bytes))
    ensures forall p :: !Malloc.Chosen(m.G(), m.v.sz, m.dv, m.dvsize, Request2Size(bytes), p)
  {
    Request2SizeTight(bytes);
    var nb := Request2Size(bytes);
    hide TagsOk, SegsOk, BinsInv, Known, FootprintOk, KeptOk, Malloc.DvServes;
    Malloc.DvSize(m, {});
    forall a | a in m.v.sz ensures m.v.sz[a] < nb { assert a in m.tiles; }
  }

  /** The request to the system. */
  method AskFor(m: MState, sys: System, ghost bytes: nat, nb: nat) returns (ok: bool, mem: int)
    requires m.Valid() && sys.Free(m.segs) && bytes < TWO32 && NothingFits(m.G(), nb)
    requires nb == if bytes >= MAX_REQUEST then MAX_SIZE_T else Request2Size(bytes)
    modifies m, sys
    ensures m.Valid() && sys.Free(m.segs) && m.guard == old(m.guard)
    ensures ok <==> !Strays(old(m.G()), old(Asking(m, sys)), bytes)
    ensures mem != 0 <==> Granted(old(m.G()), old(Asking(m, sys)), bytes)
    ensures mem == 0 && !TakesShort(old(m.G()), old(Asking(m, sys)), bytes) ==> m.G() == old(m.G())
    ensures MallocBy(old(m.G()), old(Asking(m, sys)), bytes, Asking(m, sys))
    ensures VictimBy(old(m.G()), old(Asking(m, sys)), bytes, mem, old(m.dv), old(m.dvsize), m.dv, m.dvsize)
    ensures mem == 0 ==> SameLive(old(m.G()), m.G())
    ensures mem != 0 ==> mem > 8 && mem % 8 == 0 && bytes < MAX_REQUEST && Allocated(old(m.G()), m.G(), mem - 8, nb)
  {
    hide TagsOk, SegsOk, BinsInv, Known, Match, FootprintOk, Allocated, Spare, Request2Size, KeptOk, SameLive;
    hide Gives, GoesAstray, Serves, MayAsk, Granted, Strays, TakesShort, MallocBy, AskedBy, Asking;
    hide VictimBy, SysAlloc.FromSystem;
    ghost var g, p, dv, dvsize := m.G(), Asking(m, sys), m.dv, m.dvsize;
    RequestOk(bytes, nb);
    NothingMeans(g, nb);
    AskOk(m, sys, nb);
    GrantedByAsking(g, p, bytes, nb);
    hide NothingFits;
    ok, mem := SysAlloc.SysAlloc(m, sys, nb);
    MallocAsked(g, p, bytes, nb, Asking(m, sys));
    VictimAsked(g, p, bytes, nb, mem, dv, dvsize, m.dv, m.dvsize);
  }

  lemma NothingMeans(g: Tags, nb: nat)
    requires NothingFits(g, nb)
    ensures g.topsize <= nb
  {}

  /** The local search and, if that fails, the request to the system. */
  method MallocOrAsk(m: MState, sys: System, bytes: nat) returns (ok: bool, mem: int)
    requires m.Valid() && sys.Free(m.segs) && bytes < TWO32
    modifies m, sys
    ensures m.Valid() && sys.Free(m.segs) && m.guard == old(m.guard)
    ensures ok <==> !Strays(old(m.G()), old(Asking(m, sys)), bytes)
    ensures mem != 0 <==> Granted(old(m.G()), old(Asking(m, sys)), bytes)
    ensures mem == 0 && !TakesShort(old(m.G()), old(Asking(m, sys)), bytes) ==> m.G() == old(m.G())
    ensures MallocBy(old(m.G()), old(Asking(m, sys)), bytes, Asking(m, sys))
    ensures VictimBy(old(m.G()), old(Asking(m, sys)), bytes, mem, old(m.dv), old(m.dvsize), m.dv, m.dvsize)
    ensures mem == 0 ==> SameLive(old(m.G()), m.G())
    ensures mem == 0 && bytes < MAX_REQUEST ==> NothingFits(old(m.G()), Request2Size(bytes))
    ensures mem != 0 ==>
              && mem > 8 && mem % 8 == 0 && bytes < MAX_REQUEST
              && Allocated(old(m.G()), m.G(), mem - 8, Request2Size(bytes))
    ensures mem != 0 && !NothingFits(old(m.G()), Request2Size(bytes)) ==>
              Picked(old(m.G()), old(m.v.sz), old(m.dv), old(m.dvsize), Request2Size(bytes), mem - 8, m.dv, m.dvsize)
  {
    hide TagsOk, SegsOk, BinsInv, Known, Match, FootprintOk, Allocated, Spare, Request2Size, NothingFits, KeptOk;
    hide SameLive, Granted, Strays, TakesShort, MallocBy, Asking, Picked, VictimBy;
    var nb;
    ok := true;
    ghost var g, p, dv, dvsize := m.G(), Asking(m, sys), m.dv, m.dvsize;
    mem, nb := MallocInHeap(m, sys, bytes);
    if mem == 0 {
      ok, mem := AskFor(m, sys, bytes, nb);
    } else {
      VictimLocally(g, p, bytes, mem, dv, dvsize, m.dv, m.dvsize);
    }
  }

  /** The local search. */
  method MallocInHeap(m: MState, sys: System, bytes: nat) returns (mem: int, nb: nat)
    requires m.Valid() && bytes < TWO32
    modifies m`smallmap, m`treemap, m`treebins, m`fd, m`bk, m`child, m`parent, m`index, m`v
    modifies m`head, m`foot, m`tiles, m`dv, m`dvsize, m`top, m`topsize
    ensures m.Valid() && nb == if bytes >= MAX_REQUEST then MAX_SIZE_T else Request2Size(bytes)
    ensures mem == 0 ==>
              && NothingFits(old(m.G()), nb) && m.G() == old(m.G()) && Asking(m, sys) == old(Asking(m, sys))
              && m.dv == old(m.dv) && m.dvsize == old(m.dvsize)
    ensures mem != 0 ==>
              && mem > 8 && mem % 8 == 0 && bytes < MAX_REQUEST && !NothingFits(old(m.G()), nb)
              && Allocated(old(m.G()), m.G(), mem - 8, nb)
              && Picked(old(m.G()), old(m.v.sz), old(m.dv), old(m.dvsize), nb, mem - 8, m.dv, m.dvsize)
    ensures mem != 0 ==>
              && Granted(old(m.G()), old(Asking(m, sys)), bytes) && !Strays(old(m.G()), old(Asking(m, sys)), bytes)
              && MallocBy(old(m.G()), old(Asking(m, sys)), bytes, Asking(m, sys))
  {
    hide TagsOk, SegsOk, BinsInv, Known, Match, FootprintOk, Allocated, Malloc.Chosen, Malloc.VictimAfter;
    hide Request2Size, NothingFits, KeptOk, Granted, Strays, MallocBy;
    if bytes < MAX_REQUEST && NothingFits(m.G(), Request2Size(bytes)) { NoneChosen(m, bytes); }
    GrantedLocally(m.G(), Asking(m, sys), bytes);
    mem, nb := Malloc.MallocLocal(m, bytes);
    if mem == 0 {
      NoneFree(m, nb);
    } else {
      AllocatedTile(old(m.G()), m.G(), mem - 8, nb);
      TileAligned(m.G(), mem - 8);
    }
  }

  /** dlmalloc: 0 leaves every block as it was; otherwise the caller gets a chunk that is nobody else's. Not ok means
      that sys_alloc goes astray. */
  method Dlmalloc(m: MState, sys: System, bytes: nat) returns (ok: bool, mem: int)
    requires m.Valid() && sys.Free(m.segs) && bytes < TWO32
    modifies m, sys
    ensures m.Valid() && sys.Free(m.segs) && m.guard == GuardOf(old(m.G()), old(m.Words()), {})
    ensures Spared(old(m.G()), {}, old(m.Words()), m.Words())
    ensures ok <==> !Strays(old(m.G()), old(Asking(m, sys)), bytes)
    ensures mem != 0 <==> Granted(old(m.G()), old(Asking(m, sys)), bytes)
    ensures mem == 0 && !TakesShort(old(m.G()), old(Asking(m, sys)), bytes) ==> m.G() == old(m.G())
    ensures MallocBy(old(m.G()), old(Asking(m, sys)), bytes, Asking(m, sys))
    ensures VictimBy(old(m.G()), old(Asking(m, sys)), bytes, mem, old(m.dv), old(m.dvsize), m.dv, m.dvsize)
    ensures mem == 0 ==> SameLive(old(m.G()), m.G())
    ensures mem == 0 && bytes < MAX_REQUEST ==> NothingFits(old(m.G()), Request2Size(bytes))
    ensures mem != 0 ==>
              && mem > 8 && mem % 8 == 0 && bytes < MAX_REQUEST
              && Allocated(old(m.G()), m.G(), mem - 8, Request2Size(bytes))
    ensures mem != 0 && !NothingFits(old(m.G()), Request2Size(bytes)) ==>
              Picked(old(m.G()), old(m.v.sz), old(m.dv), old(m.dvsize), Request2Size(bytes), mem - 8, m.dv, m.dvsize)
  {
    hide TagsOk, SegsOk, BinsInv, Known, Match, FootprintOk, Allocated, Picked, Spare, Request2Size, NothingFits;
    hide KeptOk;
    hide SameLive, Spared, GuardOf, MayAsk, Granted, Strays, TakesShort, MallocBy, VictimBy;
    ghost var g, c := m.G(), m.Words();
    m.guard := GuardOf(g, c, {});
    GuardStarts(old(m.guard), g, c, {});
    ok, mem := MallocOrAsk(m, sys, bytes);
    GuardSpares(g, {}, c, m.Words(), m.G());
  }

  lemma GrantedLocally(g: Tags, p: Position, bytes: nat)
    ensures bytes < MAX_REQUEST && !NothingFits(g, Request2Size(bytes)) ==>
              Granted(g, p, bytes) && !Strays(g, p, bytes) && forall p' | SameTerms(p, p') :: MallocBy(g, p, bytes, p')
  {
    hide NothingFits, Request2Size, Serves;
  }

  lemma MallocAsked(g: Tags, p: Position, bytes: nat, nb: nat, p': Position)
    requires nb == (if bytes >= MAX_REQUEST then MAX_SIZE_T else Request2Size(bytes)) && MayAsk(p, nb)
    requires NothingFits(g, nb) && AskedBy(p, nb, p')
    ensures MallocBy(g, p, bytes, p')
  {
    hide NothingFits, Request2Size, Serves, GoesAstray, TakenIn;
    NotMax(MAX_SIZE_T);
  }

  lemma GrantedByAsking(g: Tags, p: Position, bytes: nat, nb: nat)
    requires nb == (if bytes >= MAX_REQUEST then MAX_SIZE_T else Request2Size(bytes)) && MayAsk(p, nb)
    requires NothingFits(g, nb)
    ensures Granted(g, p, bytes) <==> Serves(p, nb)
    ensures Strays(g, p, bytes) <==> GoesAstray(p, nb)
    ensures TakesShort(g, p, bytes) <==> Gives(p, nb).region.Some? && !Serves(p, nb) && !GoesAstray(p, nb)
  {
    hide NothingFits, Request2Size, Serves, GoesAstray, Gives, MayAsk;
    HugeRefused(p);
  }

  /** The size that stands for a request too large is not asked for. */
  lemma HugeRefused(p: Position)
    ensures MayAsk(p, MAX_SIZE_T) ==>
              Gives(p, MAX_SIZE_T).region.None? && !Serves(p, MAX_SIZE_T) && !GoesAstray(p, MAX_SIZE_T)
  {
    NotMax(MAX_SIZE_T);
  }

  lemma AllocatedTile(g: Tags, g': Tags, p: int, nb: nat)
    requires Allocated(g, g', p, nb)
    ensures p in g'.tiles
  {}

  lemma RequestOk(bytes: nat, nb: nat)
    requires bytes < TWO32 && nb == if bytes >= MAX_REQUEST then MAX_SIZE_T else Request2Size(bytes)
    ensures GoodSize(nb) || nb == MAX_SIZE_T
    ensures bytes >= MAX_REQUEST ==> !GoodSize(nb)
  {
    if bytes < MAX_REQUEST { Request2SizeTight(bytes); }
  }

  /** Freeing a chunk that does not touch top leaves top alone; joining top moves it down. */
  lemma TopMoves(g: Tags, p: int, g': Tags)
    requires TagsOk(g) && Held(g, p) && Freed(g, p, g')
    ensures g'.top != g.top <==> Fwd(g, p) == g.top
    ensures Fwd(g, p) == g.top ==> g'.top == Back(g, p) && g'.topsize == TopsizeAfter(g, p)
  {
    RunOfOk(g, p);
    hide TagsOk, Fwd, Back, RunLinks;
  }

  /** Freeing p does not make top larger than the threshold. */
  ghost predicate StaysSmall(g: Tags, p: int, trimCheck: nat)
    requires p in g.tiles
  {
    Fwd(g, p) != g.top || TopsizeAfter(g, p) <= trimCheck
  }

  /** The chunk is free and merged with its free neighbours. */
  method ReleaseChunk(m: MState, p: int)
    requires m.Valid() && p in LiveOf(m.G()) && p !in m.guard.kept
    modifies m`smallmap, m`treemap, m`treebins, m`fd, m`bk, m`child, m`parent, m`index, m`v
    modifies m`head, m`foot, m`tiles, m`top, m`topsize, m`dv, m`dvsize
    ensures m.Valid() && p in old(m.tiles) && Freed(old(m.G()), p, m.G()) && Released(old(m.G()), m.G(), {p})
    ensures VictimFreed(old(m.G()), p, old(m.dv), old(m.dvsize), m.dv, m.dvsize)
    ensures m.top != old(m.top) <==> Fwd(old(m.G()), p) == old(m.top)
    ensures m.top != old(m.top) ==> m.top == Back(old(m.G()), p) && m.topsize == TopsizeAfter(old(m.G()), p)
  {
    hide TagsOk, SegsOk, BinsInv, Known, Match, FootprintOk, Freed, Back, Fwd, KeptOk, VictimFreed;
    ghost var g := m.G();
    ChunkFacts(m.segs, m.least, g, p);
    Around(m.segs, m.least, g, p);
    var psize := ChunkSize(m.head, p);
    var next := p + psize;
    if !(p >= m.least && HeadAt(m.head, p).cinuse && p < next && HeadAt(m.head, next).pinuse) {
      assert false;
      return;
    }
    DisposeChunk(m, p, psize);
    FreedLive(g, p, m.G());
    TopMoves(g, p, m.G());
    ReleasedBy(g, m.G(), m.G(), p);
  }

  /** The chunk goes into its bin or into top, and top is trimmed if it is too large then. */
  method FreeChunk(m: MState, sys: System, p: int)
    requires m.Valid() && sys.Free(m.segs) && p in LiveOf(m.G()) && p !in m.guard.kept
    modifies m, sys
    ensures m.Valid() && sys.Free(m.segs) && m.guard == old(m.guard)
    ensures Released(old(m.G()), m.G(), {p})
    ensures VictimFreed(old(m.G()), p, old(m.dv), old(m.dvsize), m.dv, m.dvsize)
    ensures StaysSmall(old(m.G()), p, old(m.trimCheck)) ==> Freed(old(m.G()), p, m.G()) && m.segs == old(m.segs)
    ensures FreedBy(old(m.G()), p, old(Asking(m, sys)), Asking(m, sys))
  {
    hide TagsOk, SegsOk, BinsInv, Known, Match, FootprintOk, Spare, Freed, Back, Fwd, KeptOk, Trims, Released;
    hide TrimmedBy, VictimFreed, StaysSmall, FreedBy, TopsizeAfter;
    ghost var g := m.G();
    var top := m.top;
    ghost var a := Asking(m, sys);
    ReleaseChunk(m, p);
    ghost var a1 := Asking(m, sys);
    SmallOrNot(g, p, m.trimCheck, m.G());
    if m.top != top && m.topsize > m.trimCheck {
      ghost var g1 := m.G();
      var trimmed := SysTrim.SysTrim(m, sys, 0);
      ReleasedTrimmed(g, g1, m.G(), p);
    }
    FreedMeans(g, p, a, a1, Asking(m, sys));
  }

  lemma FreedMeans(g: Tags, p: int, a: Position, a1: Position, a2: Position)
    requires p in g.tiles && SameTerms(a, a1)
    requires if StaysSmall(g, p, a.trimCheck) then a2 == a1
             else a1.top == Back(g, p) && a1.topsize == TopsizeAfter(g, p) && TrimmedBy(a1, 0, a2)
    ensures FreedBy(g, p, a, a2)
  {
    hide TrimmedBy, StaysSmall, Back, TopsizeAfter;
  }

  lemma SmallOrNot(g: Tags, p: int, trimCheck: nat, g': Tags)
    requires p in g.tiles && (g'.top != g.top <==> Fwd(g, p) == g.top)
    requires g'.top != g.top ==> g'.topsize == TopsizeAfter(g, p)
    ensures StaysSmall(g, p, trimCheck) <==> !(g'.top != g.top && g'.topsize > trimCheck)
  {
    hide Back, Fwd;
  }

  lemma ReleasedTrimmed(g: Tags, g1: Tags, g2: Tags, p: int)
    requires Released(g, g1, {p}) && g2.tiles == g1.tiles && g2.recs == g1.recs
    ensures Released(g, g2, {p})
  {}

  /** Top's size, should p's chunk and its free neighbours join it. */
  ghost function TopsizeAfter(g: Tags, p: int): int
    requires p in g.tiles
  {
    g.topsize + (g.top - Back(g, p))
  }

  /** What freeing p makes of the position: top is trimmed if it becomes larger than the threshold. */
  ghost predicate FreedBy(g: Tags, p: int, a: Position, a': Position)
    requires p in g.tiles
  {
    if StaysSmall(g, p, a.trimCheck) then SameTerms(a, a')
    else TopsizeAfter(g, p) >= 0 && TrimmedBy(a.(top := Back(g, p), topsize := TopsizeAfter(g, p)), 0, a')
  }

  /** Freeing determines everything but top, too. */
  lemma FreedOnce(g: Tags, p: int, a: Position, b: Position, c: Position)
    requires p in g.tiles && FreedBy(g, p, a, b) && FreedBy(g, p, a, c)
    ensures SameTerms(b, c)
  {
    hide Back, Fwd, Surplus;
  }

  /** Exactly when freeing p gives memory back, and that as much leaves the footprint as the system gets; top is within
      its threshold then, unless more than half the address space was too much. */
  lemma FreeTrims(g: Tags, p: int, a: Position, a': Position)
    requires Coherent(g, a) && Held(g, p) && FreedBy(g, p, a, a')
    ensures a'.sys.brk < a.sys.brk
            <==> && Fwd(g, p) == g.top && a.segs != [] && TopsizeAfter(g, p) > a.trimCheck
                 && TopsizeAfter(g, p) > TOP_FOOT_SIZE + PAGE_SIZE
                 && a.sys.brk == SegEnd(a.segs[0]) && !Refuses(a.sys.refusals)
    ensures a'.sys.brk + a'.sys.room == a.sys.brk + a.sys.room
    ensures a.sys.brk - a'.sys.brk == a.footprint - a'.footprint
    ensures Fwd(g, p) == g.top && a.trimCheck < TopsizeAfter(g, p) <= 0x7FFF_F000 ==> a'.topsize <= a'.trimCheck
  {
    hide TrimmedBy, Trims, Fwd, TopsizeAfter;
    if !StaysSmall(g, p, a.trimCheck) {
      LargerTop(g, p, a);
      var b := a.(top := Back(g, p), topsize := TopsizeAfter(g, p));
      TrimExact(b, 0);
      TrimConserves(b, 0, a');
      if b.topsize <= 0x7FFF_F000 { TrimSuffices(b, a'); }
    }
  }

  lemma LargerTop(g: Tags, p: int, a: Position)
    requires Coherent(g, a) && Held(g, p) && Fwd(g, p) == g.top
    ensures 0 <= TopsizeAfter(g, p) < TWO32 && a.segs != [] && a.segs[0].base > 0
  {
    RunTiles(g, p);
    RunOfOk(g, p);
    ShapesOf(g);
    hide TagsOk, RecordsOk, SegInside, SegFirst, RecLast, Back, Fwd;
    assert Back(g, p) in RunOf(g, p);
  }

  /** dlfree: p's chunk is free, nothing else callers hold has changed; top is trimmed when it grows past the
      threshold. */
  method Dlfree(m: MState, sys: System, mem: int)
    requires m.Valid() && sys.Free(m.segs) && (mem == 0 || mem - 8 in LiveOf(m.G()))
    modifies m, sys
    ensures m.Valid() && sys.Free(m.segs)
    ensures Spared(old(m.G()), {mem - 8}, old(m.Words()), m.Words())
    ensures mem == 0 ==> m.G() == old(m.G())
    ensures mem != 0 ==> Released(old(m.G()), m.G(), {mem - 8})
    ensures mem != 0 ==> VictimFreed(old(m.G()), mem - 8, old(m.dv), old(m.dvsize), m.dv, m.dvsize)
    ensures mem == 0 ==> m.dv == old(m.dv) && m.dvsize == old(m.dvsize)
    ensures mem != 0 && StaysSmall(old(m.G()), mem - 8, old(m.trimCheck)) ==>
              Freed(old(m.G()), mem - 8, m.G()) && m.segs == old(m.segs)
    ensures mem == 0 ==> Asking(m, sys) == old(Asking(m, sys))
    ensures mem != 0 ==> FreedBy(old(m.G()), mem - 8, old(Asking(m, sys)), Asking(m, sys))
  {
    hide TagsOk, SegsOk, BinsInv, Known, Match, FootprintOk, Spare, Freed, Back, Fwd, KeptOk, Spared, GuardOf, Released;
    hide StaysSmall, FreedBy, VictimFreed;
    ghost var c := m.Words();
    m.guard := GuardOf(m.G(), c, {mem - 8});
    GuardStarts(old(m.guard), m.G(), c, {mem - 8});
    GuardNot(m.G(), c, {mem - 8}, mem - 8);
    if mem != 0 {
      FreeChunk(m, sys, mem - 8);
    }
    GuardSpares(old(m.G()), {mem - 8}, c, m.Words(), m.G());
  }

  lemma GuardNot(g: Tags, c: Cells, x: set<int>, p: int)
    requires p in x
    ensures p !in GuardOf(g, c, x).kept
  {}

  /** The chunks of ps are no longer held; all others are as before. */
  ghost predicate Released(g: Tags, g': Tags, ps: set<int>) {
    && LiveOf(g') == LiveOf(g) - ps && RecsKept(g, g')
    && forall q | q in LiveOf(g') :: q in g.tiles && q in g'.tiles && g'.tiles[q] == g.tiles[q]
  }

  lemma ReleasedBy(g: Tags, g1: Tags, g2: Tags, p: int)
    requires LiveOf(g1) == LiveOf(g) - {p} && RecsKept(g, g1) && g2.recs == g1.recs && g2.tiles == g1.tiles
    requires forall q | q in LiveOf(g) && q != p :: q in g.tiles && q in g1.tiles && g1.tiles[q] == g.tiles[q]
    ensures Released(g, g2, {p})
  {}

  // ----- dlcalloc

  /** The request dlcalloc makes: the product, or one that must fail. */
  function CallocRequest(n: nat, size: nat): nat
    requires n < TWO32 && size < TWO32
  {
    var req := Wrap(n * size);
    if n != 0 && (n > 0xffff || size > 0xffff) && req / n != size then MAX_SIZE_T else req
  }

  lemma SmallProduct(n: nat, size: nat)
    requires n <= 0xffff && size <= 0xffff
    ensures n * size < TWO32
  {
    MoreTimes(n, 0xffff, size);
  }

  lemma MoreTimes(n: nat, m: nat, size: nat)
    requires n <= m
    ensures n * size <= m * size
  {
    var d: nat := m - n;
    assert (n + d) * size == n * size + d * size;
  }

  lemma WrappedQuotient(n: nat, size: nat)
    requires 0 < n < TWO32 && size < TWO32 && n * size >= TWO32
    ensures Wrap(n * size) / n != size
  {
    var r := Wrap(n * size);
    assert r < n * size;
    assert n * (r / n) <= r;
  }

  /** The overflow test is exact. */
  lemma CallocExact(n: nat, size: nat)
    requires n < TWO32 && size < TWO32
    ensures CallocRequest(n, size) == if n * size < TWO32 then n * size else MAX_SIZE_T
  {
    if n * size >= TWO32 {
      if n <= 0xffff && size <= 0xffff { SmallProduct(n, size); }
      WrappedQuotient(n, size);
    } else if n > 0 {
      assert n * size / n == size;
    }
  }
}
