/** Where memory from the system goes: a first segment, top extended, a segment extended downwards, or a new segment. */
module SysInstall {
  import opened Words
  import opened Rings
  import opened Tries
  import opened Bins
  import opened Tiling
  import opened TagOps
  import opened Segments
  import opened SegOps
  import opened SysOps
  import opened SysSegs
  import opened Coalesce
  import opened State
  import opened Keeping
  import opened Consolidate
  import opened AllocOps
  import opened Sbrk
  import opened Morecore

  const TRIM_THRESHOLD := 0x20_0000

  /** The heap invariant with tsize more bytes already charged to the footprint. */
  ghost predicate Charged(m: MState, tsize: nat)
    reads m
  {
    && m.BinsOk() && TagsOk(m.G()) && Match(m.v.sz, m.tiles, m.dv, m.dvsize, {}) && SegsOk(m.segs, m.least, m.G())
    && m.footprint == SumSizes(m.segs) + tsize <= m.maxFootprint && KeptOk(m.guard, m.Words(), m.G())
  }

  /** A region init_top can use. */
  predicate Region(segs: seq<Segment>, tbase: nat, tsize: nat) {
    FreshRange(segs, tbase, tbase + tsize) && (tbase + tsize) % 4 == 0 && tsize >= 64
  }

  /** The chunks callers hold are the same ones. */
  ghost predicate SameLive(g: Tags, g': Tags) {
    LiveOf(g') == LiveOf(g) && forall q | q in LiveOf(g) :: q in g.tiles && q in g'.tiles && g'.tiles[q] == g.tiles[q]
  }

  lemma AllocatedLater(g: Tags, g1: Tags, g2: Tags, p: int, nb: nat)
    requires SameLive(g, g1) && Allocated(g1, g2, p, nb) && g2.tiles[p].size == nb
    ensures Allocated(g, g2, p, nb)
  {}

  lemma SameTiles(g: Tags, g': Tags)
    requires g'.tiles == g.tiles && g'.recs == g.recs
    ensures SameLive(g, g')
  {}

  // ----- init_top

  function WithTop(h: Heads, top: int, topsize: nat): Heads {
    h[top := Head(topsize, false, true)][top + topsize := Head(TOP_FOOT_SIZE, false, false)]
  }

  /** The word that holds top's size can be read back exactly if the region ends at a word boundary. */
  lemma TopWord(tbase: nat, tsize: nat)
    requires tsize >= 64
    ensures var h := Head(tsize - TOP_FOOT_SIZE - AlignOffset(tbase), false, true);
            Unpacked(Packed(h)) == h <==> (tbase + tsize) % 4 == 0
  {
    var offset := AlignOffset(tbase);
    var k := (tbase + offset) / 8;
    PackRoundTrip(Head(tsize - TOP_FOOT_SIZE - offset, false, true));
    assert tbase + tsize == (tsize - TOP_FOOT_SIZE - offset) + 4 * (2 * k + 10);
    WordSum(tsize - TOP_FOOT_SIZE - offset, 2 * k + 10);
  }

  lemma WordSum(a: nat, x: nat)
    ensures (a + 4 * x) % 4 == a % 4
  {}

  /** init_top: align, tag, and leave TOP_FOOT_SIZE as the size of a chunk that is not there. */
  method InitTop(m: MState, p: nat, psize: nat)
    requires psize > AlignOffset(p)
    modifies m`top, m`topsize, m`head, m`trimCheck
    ensures m.top == p + AlignOffset(p) && m.topsize == psize - AlignOffset(p) && m.trimCheck == TRIM_THRESHOLD
    ensures m.head == WithTop(old(m.head), m.top, m.topsize)
  {
    var offset := AlignOffset(p);
    m.top := p + offset;
    m.topsize := psize - offset;
    m.head := m.head[m.top := Head(m.topsize, false, true)];
    m.head := m.head[m.top + m.topsize := Head(TOP_FOOT_SIZE, false, false)];
    m.trimCheck := TRIM_THRESHOLD;
  }

  /** Top's foot word is nobody's head. */
  lemma FootWord(g: Tags, h: Heads)
    requires TagsOk(g) && g.top != 0 && h == g.head[g.top + g.topsize := Head(TOP_FOOT_SIZE, false, false)]
    ensures TagsOk(g.(head := h)) && forall q | q in g.tiles :: HeadAt(h, q) == HeadAt(g.head, q)
  {
    TopNotTile(g);
    TopHead(g);
    forall q | q in g.tiles || q == g.top ensures HeadAt(h, q) == HeadAt(g.head, q) {}
    hide TagsOk;
    OtherHeads(g, h);
  }

  lemma SegsHead(segs: seq<Segment>, least: int, g: Tags, h: Heads)
    requires SegsOk(segs, least, g)
    ensures SegsOk(segs, least, g.(head := h))
  {}

  lemma TopHead(g: Tags)
    requires TagsOk(g) && g.top != 0
    ensures HeadAt(g.head, g.top) == Head(g.topsize, false, true) && g.topsize > 0 && g.top > 0 && g.top % 8 == 0
    ensures g.top !in g.tiles
  {
    hide Apart, Followed, HeadsOk, UsedNext, FreeNext, PrevFree;
    TopNotTile(g);
  }

  lemma KnownKept(sz: Sizes, c: Tiles, dv: int, dvsize: nat, x: set<int>, h: Heads, h': Heads, least: int, least': int)
    requires Known(sz, h, least) && Match(sz, c, dv, dvsize, x) && least' <= least
    requires forall q | q in c :: HeadAt(h', q) == HeadAt(h, q)
    ensures Known(sz, h', least')
  {}

  // ----- the first segment

  lemma NothingBinned(sz: Sizes, g: Tags, dv: int, dvsize: nat)
    requires TagsOk(g) && g.top == 0 && Match(sz, g.tiles, dv, dvsize, {})
    ensures sz == map[] && g.tiles == map[] && g.topsize == 0 && dv == 0 && dvsize == 0 && LiveOf(g) == {}
    ensures forall h, least: int :: Known(sz, h, least)
  {
    hide Apart, TopApart, Followed, HeadsOk, UsedNext, FreeNext, PrevFree;
    forall a | a in sz ensures a in g.tiles {}
    assert sz.Keys == {};
  }

  /** With nothing binned the ring links mean nothing. */
  lemma EmptyBins(mem: BinMem, v: BinView, fd: Rings.Ptrs, bk: Rings.Ptrs)
    requires BinsInv(mem, v) && v.sz == map[]
    ensures BinsInv(mem.(fd := fd, bk := bk), v)
  {
    hide TrieOk, Ring;
    forall s | s in v.rings ensures v.rings[s][0] in v.sz {
      var a := v.rings[s][0];
    }
  }

  /** init_bins */
  method InitBins(m: MState)
    requires BinsInv(m.Mem(), m.v) && m.v.sz == map[]
    modifies m`fd, m`bk
    ensures BinsInv(m.Mem(), m.v)
    ensures forall i | 0 <= i < 32 :: At(m.fd, SmallHeader(i)) == At(m.bk, SmallHeader(i)) == SmallHeader(i)
  {
    hide BinsInv;
    var i := 0;
    while i < 32
      invariant 0 <= i <= 32
      invariant forall j | 0 <= j < i :: At(m.fd, SmallHeader(j)) == At(m.bk, SmallHeader(j)) == SmallHeader(j)
    {
      var bin := SmallHeader(i);
      m.fd := m.fd[bin := bin];
      m.bk := m.bk[bin := bin];
      i := i + 1;
    }
    EmptyBins(old(m.Mem()), m.v, m.fd, m.bk);
    assert m.Mem() == old(m.Mem()).(fd := m.fd, bk := m.bk);
  }

  /** least_addr once the first region begins at tbase. */
  function LeastFirst(least: int, tbase: nat): int { if least == 0 || tbase < least then tbase else least }

  /** least_addr, the segment and the bins of a fresh heap. */
  method FirstFields(m: MState, tbase: nat, tsize: nat)
    requires BinsInv(m.Mem(), m.v) && m.v.sz == map[]
    modifies m`least, m`segs, m`fd, m`bk
    ensures BinsInv(m.Mem(), m.v) && m.least <= tbase && m.segs == [Segment(tbase, tsize)]
    ensures m.least == LeastFirst(old(m.least), tbase)
  {
    hide BinsInv;
    if m.least == 0 || tbase < m.least {
      m.least := tbase;
    }
    m.segs := [Segment(tbase, tsize)];
    InitBins(m);
  }

  method FirstWrites(m: MState, tbase: nat, tsize: nat)
    requires BinsInv(m.Mem(), m.v) && m.v.sz == map[] && tsize >= 64
    modifies m`least, m`segs, m`fd, m`bk, m`top, m`topsize, m`head, m`trimCheck
    ensures m.trimCheck == TRIM_THRESHOLD
    ensures BinsInv(m.Mem(), m.v) && m.least <= tbase && m.segs == [Segment(tbase, tsize)]
    ensures m.least == LeastFirst(old(m.least), tbase)
    ensures m.top == tbase + AlignOffset(tbase) && m.topsize == tsize - TOP_FOOT_SIZE - AlignOffset(tbase)
    ensures m.head == WithTop(old(m.head), m.top, m.topsize)
  {
    hide BinsInv, AlignOffset, WithTop;
    FirstFields(m, tbase, tsize);
    InitTop(m, tbase, tsize - TOP_FOOT_SIZE);
  }

  lemma RegionSize(segs: seq<Segment>, tbase: nat, tsize: nat)
    requires Region(segs, tbase, tsize)
    ensures tsize >= 64
  {}

  method InstallFirst(m: MState, tbase: nat, tsize: nat)
    requires Charged(m, tsize) && m.top == 0 && Region(m.segs, tbase, tsize)
    modifies m`least, m`segs, m`fd, m`bk, m`top, m`topsize, m`head, m`trimCheck
    ensures m.trimCheck == TRIM_THRESHOLD && m.least == LeastFirst(old(m.least), tbase)
    ensures m.Valid() && SameLive(old(m.G()), m.G())
    ensures m.segs == [Segment(tbase, tsize)] && m.top == tbase + AlignOffset(tbase)
    ensures m.topsize == tsize - TOP_FOOT_SIZE - AlignOffset(tbase)
  {
    hide BinsInv, TagsOk, SegsOk, LiveOf, Known, Match, SameLive, AlignOffset, SumSizes, WithTop, KeptOk, Region;
    ghost var g := m.G();
    RegionSize(m.segs, tbase, tsize);
    NothingBinned(m.v.sz, g, m.dv, m.dvsize);
    FirstSum(Segment(tbase, tsize));
    FirstWrites(m, tbase, tsize);
    FirstOk(old(m.segs), old(m.least), m.least, g, tbase, tsize, m.top, m.topsize, m.head);
    NoneKept(m.guard, old(m.Words()), g, m.Words(), m.G());
  }

  lemma FirstSum(s: Segment)
    ensures SumSizes([s]) == s.size && SumSizes([]) == 0
  {
    assert [s][1..] == [];
  }

  lemma NoSegments(segs: seq<Segment>, least: int, g: Tags, least': int)
    requires SegsOk(segs, least, g) && g.top == 0
    ensures segs == [] && SegsOk(segs, least', g)
  {}

  lemma FirstOk(segs: seq<Segment>, least0: int, least: int, g: Tags, tbase: nat, tsize: nat, top: int, topsize: nat,
                h: Heads)
    requires TagsOk(g) && SegsOk(segs, least0, g) && g.top == 0 && Region(segs, tbase, tsize) && least <= tbase
    requires top == tbase + AlignOffset(tbase) && topsize == tsize - TOP_FOOT_SIZE - AlignOffset(tbase)
    requires h == WithTop(g.head, top, topsize)
    ensures var g' := g.(top := top, topsize := topsize, head := h);
            TagsOk(g') && SegsOk([Segment(tbase, tsize)], least, g') && SameLive(g, g') && segs == []
  {
    hide TagsOk, SegsOk, LiveOf, SameLive;
    NoSegments(segs, least0, g, least);
    StartTop(segs, least, g, tbase, tsize);
    var g1 := FirstTop(g, top, topsize);
    FootWord(g1, h);
    SegsHead([Segment(tbase, tsize)], least, g1, h);
    SameTiles(g, g1.(head := h));
  }

  // ----- extending top

  /** Another size for top is written at its head and behind it. */
  lemma TopSizedKept(k: Guard, c: Cells, g: Tags, topsize: nat, h: Heads)
    requires KeptOk(k, c, g) && c == WithTags(c, g) && TagsOk(g) && g.top != 0 && h == WithTop(g.head, g.top, topsize)
    requires TagsOk(g.(topsize := topsize, head := h))
    ensures var g' := g.(topsize := topsize, head := h); KeptOk(k, WithTags(c, g'), g')
  {
    hide TagsOk, KeptOk;
    var g' := g.(topsize := topsize, head := h);
    RecsIn(g);
    TakenStay(k, c, g, g');
    RetagKept(k, c, g, g', iset{g.top, g.top + topsize}, {});
  }

  lemma AppendOk(segs: seq<Segment>, least: int, g: Tags, tsize: nat, h: Heads)
    requires TagsOk(g) && SegsOk(segs, least, g) && g.top != 0 && segs != [] && Region(segs, SegEnd(segs[0]), tsize)
    requires h == WithTop(g.head, g.top, g.topsize + tsize)
    ensures var g' := g.(topsize := g.topsize + tsize, head := h);
            var segs' := ResizedSegs(segs, segs[0].size + tsize);
            TagsOk(g') && SegsOk(segs', least, g') && SumSizes(segs') == SumSizes(segs) + tsize
    ensures forall q | q in g.tiles :: HeadAt(h, q) == HeadAt(g.head, q)
  {
    hide TagsOk, SegsOk, FreshRange;
    var size, topsize := segs[0].size + tsize, g.topsize + tsize;
    AtEnd(segs, least, g, tsize);
    ResizeApart(segs, least, g, topsize);
    ResizeTop(g, topsize);
    RecsIn(g);
    ResizeSegs(segs, least, g, topsize, size);
    var g1 := ResizedTop(g, topsize);
    FootWord(g1, h);
    SegsHead(ResizedSegs(segs, size), least, g1, h);
    SumResized(segs, size);
    TopHead(g);
  }

  lemma AtEnd(segs: seq<Segment>, least: int, g: Tags, tsize: nat)
    requires TagsOk(g) && SegsOk(segs, least, g) && g.top != 0 && segs != [] && Region(segs, SegEnd(segs[0]), tsize)
    ensures SegEnd(segs[0]) == g.top + g.topsize + TOP_FOOT_SIZE && SegEnd(segs[0]) + tsize <= TWO32
    ensures (g.topsize + tsize) % 4 == 0
  {
    hide Apart, TopApart, Followed, HeadsOk, UsedNext, FreeNext, PrevFree, SegShape, SegInside;
    assert g.topsize + tsize == (SegEnd(segs[0]) + tsize) - g.top - TOP_FOOT_SIZE;
  }

  /** The region continues top's segment: top grows over its old foot. */
  method Append(m: MState, tsize: nat)
    requires Charged(m, tsize) && m.top != 0 && m.segs != [] && Region(m.segs, SegEnd(m.segs[0]), tsize)
    modifies m`segs, m`top, m`topsize, m`head, m`trimCheck
    ensures m.Valid() && SameLive(old(m.G()), m.G()) && m.top == old(m.top) && m.topsize == old(m.topsize) + tsize
    ensures m.trimCheck == TRIM_THRESHOLD
    ensures m.segs == ResizedSegs(old(m.segs), old(m.segs[0].size) + tsize)
  {
    hide BinsInv, TagsOk, SegsOk, FreshRange, LiveOf, Known, Match, SameLive, SumSizes, WithTop, KeptOk;
    ghost var g := m.G();
    TopHead(g);
    m.segs := m.segs[0 := Segment(m.segs[0].base, m.segs[0].size + tsize)];
    InitTop(m, m.top, m.topsize + tsize);
    AppendOk(old(m.segs), m.least, g, tsize, m.head);
    TopSizedKept(m.guard, old(m.Words()), g, m.topsize, m.head);
    KnownKept(m.v.sz, g.tiles, m.dv, m.dvsize, {}, g.head, m.head, m.least, m.least);
    SameTiles(g, m.G());
  }

  // ----- a new segment

  const FENCEPOST := Head(4, true, true)

  /** The loop of add_segment that fills the end of the old segment with fenceposts. */
  method WriteFences(m: MState, tnext: nat, oldEnd: nat) returns (nfences: nat)
    requires tnext + 8 < oldEnd
    modifies m`head
    ensures nfences >= 2 && tnext + 4 * nfences < oldEnd <= tnext + 4 * nfences + 4
    ensures forall k: nat | k < nfences :: HeadAt(m.head, tnext + 4 * k) == FENCEPOST
    ensures forall a | a < tnext || oldEnd <= a :: HeadAt(m.head, a) == HeadAt(old(m.head), a)
  {
    var p := tnext;
    nfences := 0;
    while true
      invariant p == tnext + 4 * nfences && p + 4 < oldEnd
      invariant nfences >= 1 || p + 8 < oldEnd
      invariant forall k: nat | k < nfences :: HeadAt(m.head, tnext + 4 * k) == FENCEPOST
      invariant forall a | a < tnext || oldEnd <= a :: HeadAt(m.head, a) == HeadAt(old(m.head), a)
      decreases oldEnd - p
    {
      var nextp := p + 4;
      m.head := m.head[p := FENCEPOST];
      nfences := nfences + 1;
      if nextp + 4 < oldEnd {
        p := nextp;
      } else {
        return;
      }
    }
  }
}
