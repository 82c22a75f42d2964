/** add_segment: the old top ends in a record of its segment and fenceposts, and a new top begins. */
module SysRecord {
  import opened Words
  import opened Rings
  import opened Tries
  import opened Bins
  import opened Tiling
  import opened TagOps
  import opened Segments
  import opened SegOps
  import opened SysOps
  import opened SysSegs
  import opened Coalesce
  import opened State
  import opened Keeping
  import opened Consolidate
  import opened AllocOps
  import opened Freeing
  import opened Morecore
  import opened SysInstall


  /** Near the end of the old segment, or at old top when no chunk fits before that. */
  function RecordAt(oldTop: nat, oldEnd: nat): nat
    requires oldEnd >= 47
  {
    var rawsp := oldEnd - (RECORD_SIZE + 16 + 7);
    var asp := rawsp + AlignOffset(rawsp);
    if asp < oldTop + MIN_CHUNK_SIZE then oldTop else asp
  }

  lemma RecordPlace(oldTop: nat, topsize: nat)
    requires oldTop % 8 == 0 && topsize > 0 && topsize % 4 == 0 && oldTop + topsize + TOP_FOOT_SIZE <= TWO32
    requires oldTop > 0
    ensures var oldEnd := oldTop + topsize + TOP_FOOT_SIZE;
            var csp := RecordAt(oldTop, oldEnd);
            && csp % 8 == 0 && oldTop <= csp && csp + RECORD_SIZE + 16 <= oldEnd < csp + RECORD_SIZE + TOP_FOOT_SIZE
            && (oldEnd - csp) % 4 == 0
            && (csp != oldTop ==> GoodSize(csp - oldTop)) && csp + RECORD_SIZE - oldTop <= topsize + TOP_FOOT_SIZE
  {
    var j, l := oldTop / 8, topsize / 4;
    var csp := RecordAt(oldTop, oldTop + topsize + TOP_FOOT_SIZE);
    var k := csp / 8;
    assert oldTop == 8 * j && topsize == 4 * l && csp == 8 * k;
    Multiples(2 * j + l + 10 - 2 * k);
    Multiples(k - j);
  }

  lemma Multiples(k: int)
    ensures (4 * k) % 4 == 0 && (8 * k) % 8 == 0
  {}

  /** The tags once the record is in place and before the rest of the old top is freed. */
  function Recorded(g: Tags, csp: int, top: int, topsize: nat): Tags
    requires g.top <= csp
  {
    var r := Retired(g, csp + RECORD_SIZE - g.top, top, topsize);
    if csp == g.top then r else SplitTags(r, g.top, csp - g.top)
  }

  lemma RegionTop(segs: seq<Segment>, seg: Segment)
    requires Region(segs, seg.base, seg.size)
    ensures var top, topsize := First(seg), seg.size - TOP_FOOT_SIZE - AlignOffset(seg.base);
            && 0 < seg.base <= top && top % 8 == 0 && topsize > 0 && topsize % 4 == 0
            && top + topsize + TOP_FOOT_SIZE == SegEnd(seg) <= TWO32
    ensures FreshRange(segs, seg.base, SegEnd(seg)) && seg.size >= 64
  {
    FreshBounds(segs, seg.base, SegEnd(seg));
    hide FreshRange, AlignOffset;
    EvenRest(SegEnd(seg), First(seg));
  }

  lemma EvenRest(e: int, top: int)
    requires e % 4 == 0 && top % 8 == 0
    ensures (e - top - TOP_FOOT_SIZE) % 4 == 0
  {}

  lemma RetireCan(segs: seq<Segment>, least: int, g: Tags, s: nat, seg: Segment)
    requires TagsOk(g) && SegsOk(segs, least, g) && g.top != 0 && Region(segs, seg.base, seg.size)
    requires GoodSize(s) && s <= g.topsize + TOP_FOOT_SIZE && g.top + s < SegEnd(segs[0])
    ensures CanRetire(g, s, First(seg), seg.size - TOP_FOOT_SIZE - AlignOffset(seg.base))
  {
    hide TagsOk, FreshRange, Region, First, AlignOffset, SegShape, SegFirst, GoodSize;
    RegionTop(segs, seg);
    FreshClear(segs, seg, 0);
    forall q | q in g.tiles ensures q + g.tiles[q].size < First(seg) || SegEnd(seg) <= q {
      var i := InsideAt(segs, g.tiles, q);
      FreshClear(segs, seg, i);
    }
  }

  lemma FreshClear(segs: seq<Segment>, seg: Segment, i: nat)
    requires FreshRange(segs, seg.base, SegEnd(seg)) && i < |segs|
    ensures SegEnd(segs[i]) <= seg.base || SegEnd(seg) <= segs[i].base
    ensures 0 < seg.base && SegEnd(seg) <= TWO32
  {}

  /** What the heads must say. */
  ghost predicate RecordHeads(g: Tags, h: Heads, csp: int, top: int, topsize: nat) {
    && HeadAt(h, top) == Head(topsize, false, true) && HeadAt(h, csp) == Head(RECORD_SIZE, true, true)
    && (csp != g.top ==> g.top < csp && HeadAt(h, g.top) == Head(csp - g.top, true, true))
    && forall q | q in g.tiles :: HeadAt(h, q) == HeadAt(g.head, q)
  }

  lemma RecordedTags(g: Tags, csp: int, top: int, topsize: nat, h: Heads)
    requires TagsOk(g) && g.top != 0 && g.top <= csp && RecordHeads(g, h, csp, top, topsize)
    requires CanRetire(g, csp + RECORD_SIZE - g.top, top, topsize) && (csp != g.top ==> GoodSize(csp - g.top))
    ensures g.top !in g.tiles && top !in g.tiles
    ensures TagsOk(Recorded(g, csp, top, topsize).(head := h))
    ensures TagsOk(Retired(g, csp + RECORD_SIZE - g.top, top, topsize))
    ensures csp != g.top ==> CanSplit(Retired(g, csp + RECORD_SIZE - g.top, top, topsize), g.top, csp - g.top)
  {
    hide TagsOk, CanRetire;
    var s := csp + RECORD_SIZE - g.top;
    Retire(g, s, top, topsize);
    var r := Retired(g, s, top, topsize);
    RecordApart(g, s, top, topsize);
    if csp != g.top { Split(r, g.top, csp - g.top); }
    var g' := Recorded(g, csp, top, topsize);
    forall q | q in g'.tiles || q == top ensures HeadAt(h, q) == HeadAt(g'.head, q) {}
    OtherHeads(g', h);
  }

  lemma RecordApart(g: Tags, s: nat, top: int, topsize: nat)
    requires CanRetire(g, s, top, topsize) && top != g.top
    ensures GoodSize(s) && !(g.top <= top <= g.top + s)
  {}

  lemma RecordedSegs(segs: seq<Segment>, least: int, g: Tags, csp: int, seg: Segment, least': int, topsize: nat,
                     h: Heads)
    requires SegsOk(segs, least, g) && g.top != 0 && Region(segs, seg.base, seg.size)
    requires segs != [] && g.top <= csp && csp + RECORD_SIZE < SegEnd(segs[0]) < csp + RECORD_SIZE + TOP_FOOT_SIZE
    requires TagsOk(g) && TagsOk(Retired(g, csp + RECORD_SIZE - g.top, First(seg), topsize))
    requires g.top !in g.tiles && First(seg) !in g.tiles
    requires csp != g.top ==> CanSplit(Retired(g, csp + RECORD_SIZE - g.top, First(seg), topsize), g.top, csp - g.top)
    requires least' <= least && least' <= seg.base && First(seg) + topsize + TOP_FOOT_SIZE == SegEnd(seg)
    ensures SegsOk([seg] + segs, least', Recorded(g, csp, First(seg), topsize).(head := h))
  {
    hide SegsOk, TagsOk, CanSplit, Region, First, FreshRange, SegEnd, Retired;
    RecsIn(g);
    OpenTags(g);
    RegionParts(segs, least, g, seg);
    var s := csp + RECORD_SIZE - g.top;
    RetireSegs(segs, least, g, s, seg, least', topsize);
    var r := Retired(g, s, First(seg), topsize);
    if csp != g.top {
      OpenTags(r);
      SplitSegs([seg] + segs, least', r, g.top, csp - g.top);
    }
    SegsHead([seg] + segs, least', Recorded(g, csp, First(seg), topsize), h);
  }

  lemma RegionParts(segs: seq<Segment>, least: int, g: Tags, seg: Segment)
    requires SegsOk(segs, least, g) && Region(segs, seg.base, seg.size)
    ensures FreshRange(segs, seg.base, SegEnd(seg)) && seg.size >= 64
  {}

  /** The bins do not change: the new chunks are in use. */
  lemma RecordedMatch(sz: Sizes, g: Tags, dv: int, dvsize: nat, csp: int, top: int, topsize: nat, h: Heads, least: int,
                      least': int)
    requires Match(sz, g.tiles, dv, dvsize, {}) && Known(sz, g.head, least) && least' <= least
    requires g.top <= csp && RecordHeads(g, h, csp, top, topsize)
    requires g.top !in g.tiles && csp !in g.tiles
    ensures var c := Recorded(g, csp, top, topsize).tiles; Match(sz, c, dv, dvsize, {}) && Known(sz, h, least')
  {}

  lemma RecordedLive(g: Tags, csp: int, top: int, topsize: nat, h: Heads)
    requires g.top !in g.tiles && csp !in g.tiles && g.top !in g.recs && csp !in g.recs && g.top <= csp
    ensures g.top !in LiveOf(g)
    ensures var g' := Recorded(g, csp, top, topsize).(head := h);
            && LiveOf(g') == LiveOf(g) + (if csp == g.top then {} else {g.top})
            && forall q | q in LiveOf(g) :: q in g.tiles && q in g'.tiles && g'.tiles[q] == g.tiles[q]
  {}

  // ----- the method

  /** The values of AddRecord, checked apart from the heap. */
  lemma RecordOk(segs: seq<Segment>, least: int, g: Tags, seg: Segment, least': int, csp: int, h: Heads)
    requires TagsOk(g) && SegsOk(segs, least, g) && g.top != 0 && Region(segs, seg.base, seg.size)
    requires least' <= least && least' <= seg.base && g.top > 0 && segs != []
    requires SegEnd(segs[0]) == g.top + g.topsize + TOP_FOOT_SIZE
    requires csp == RecordAt(g.top, SegEnd(segs[0]))
    requires RecordHeads(g, h, csp, First(seg), seg.size - TOP_FOOT_SIZE - AlignOffset(seg.base)) && g.top <= csp
    ensures var g' := Recorded(g, csp, First(seg), seg.size - TOP_FOOT_SIZE - AlignOffset(seg.base)).(head := h);
            TagsOk(g') && SegsOk([seg] + segs, least', g')
    ensures g.top !in g.tiles && csp !in g.tiles && g.top !in g.recs && csp !in g.recs
  {
    hide TagsOk, SegsOk, Region, RecordHeads, Recorded, First, AlignOffset, RecordAt, CanRetire, CanSplit;
    var topsize := seg.size - TOP_FOOT_SIZE - AlignOffset(seg.base);
    RegionTop(segs, seg);
    TopEven(g);
    RecordPlace(g.top, g.topsize);
    RetireCan(segs, least, g, csp + RECORD_SIZE - g.top, seg);
    RecordedTags(g, csp, First(seg), topsize, h);
    RecordedSegs(segs, least, g, csp, seg, least', topsize, h);
    NotThere(g, csp);
  }

  lemma TopEven(g: Tags)
    requires TagsOk(g) && g.top != 0
    ensures g.top % 8 == 0 && g.topsize > 0 && g.topsize % 4 == 0 && g.top + g.topsize + TOP_FOOT_SIZE <= TWO32
    ensures g.top > 0
  {
    hide Shapes, Apart, TopApart, Followed, HeadsOk, UsedNext, FreeNext, PrevFree;
  }

  lemma NotThere(g: Tags, csp: int)
    requires TagsOk(g) && g.top != 0 && g.top <= csp < g.top + g.topsize + TOP_FOOT_SIZE
    ensures g.top !in g.tiles && csp !in g.tiles && g.top !in g.recs && csp !in g.recs
  {
    hide Apart, HeadsOk, UsedNext, FreeNext, PrevFree;
  }

  /** The values AddRecord leaves. */
  ghost predicate RecordDone(m: MState, g: Tags, segs: seq<Segment>, seg: Segment, csp: int)
    reads m
  {
    && g.top <= csp && m.segs == [seg] + segs
    && m.top == First(seg) && m.topsize == seg.size - TOP_FOOT_SIZE - AlignOffset(seg.base)
    && m.G() == Recorded(g, csp, m.top, m.topsize).(head := m.head)
    && RecordHeads(g, m.head, csp, m.top, m.topsize)
    && HeadsOnlyIn(g, m.head, m.top, m.topsize)
  }

  /** No head has changed but in the old top and at both ends of the new one. */
  ghost predicate HeadsOnlyIn(g: Tags, h: Heads, top: int, topsize: nat) {
    forall a | !(g.top <= a < g.top + g.topsize + TOP_FOOT_SIZE) && a != top && a != top + topsize ::
      HeadAt(h, a) == HeadAt(g.head, a)
  }

  lemma RecordedKept(k: Guard, c: Cells, g: Tags, csp: int, top: int, topsize: nat, h: Heads)
    requires KeptOk(k, c, g) && c == WithTags(c, g) && TagsOk(g) && g.top <= csp && csp !in g.tiles && g.top !in g.tiles
    requires HeadsOnlyIn(g, h, top, topsize)
    requires var g' := Recorded(g, csp, top, topsize).(head := h); TagsOk(g')
    ensures var g' := Recorded(g, csp, top, topsize).(head := h); KeptOk(k, WithTags(c, g'), g')
  {
    var g' := Recorded(g, csp, top, topsize).(head := h);
    RecordedStay(k, c, g, csp, top, topsize, h);
    RecordedIn(g, csp, top, topsize, h);
    hide TagsOk, KeptOk, Recorded, HeadsOnlyIn, HeadPlace, TagsIn, RecordsOk;
    RetagKept(k, c, g, g', RecordPlaces(g, top, topsize), {});
  }

  /** Where heads may change. */
  ghost function RecordPlaces(g: Tags, top: int, topsize: nat): iset<int> {
    (iset a | HeadPlace(g, a)) + iset{top, top + topsize}
  }

  lemma RecordedIn(g: Tags, csp: int, top: int, topsize: nat, h: Heads)
    requires HeadsOnlyIn(g, h, top, topsize) && g.top <= csp
    ensures var g', hs := Recorded(g, csp, top, topsize).(head := h), RecordPlaces(g, top, topsize);
            TagsIn(g, g', hs, {}) && forall a | a in hs :: HeadPlace(g, a) || HeadPlace(g', a)
  {
    RecordedFields(g, csp, top, topsize);
    hide Recorded;
  }

  lemma RecordedStay(k: Guard, c: Cells, g: Tags, csp: int, top: int, topsize: nat, h: Heads)
    requires KeptOk(k, c, g) && g.top <= csp && csp !in g.tiles && g.top !in g.tiles
    ensures var g' := Recorded(g, csp, top, topsize).(head := h);
            RecordsOk(g') && forall q | q in k.kept :: Held(g', q) && k.kept[q] <= g'.tiles[q].size
  {
    hide SameIn;
    forall q | q in k.kept ensures KeptOne(k, c, g, q) {}
  }

  /** add_segment's writes; what is left of the old top is still a chunk in use. */
  method AddRecord(m: MState, tbase: nat, tsize: nat, oldTop: nat, oldEnd: nat, csp: nat) returns (nfences: nat)
    requires oldEnd >= 47 && csp == RecordAt(oldTop, oldEnd) && m.top == oldTop <= csp
    requires (csp != oldTop ==> oldTop < csp)
    requires csp + RECORD_SIZE + 16 <= oldEnd && tsize >= 64
    requires var top := tbase + AlignOffset(tbase); top + (tsize - AlignOffset(tbase)) <= oldTop || oldEnd <= top
    requires forall q | q in m.tiles :: q < oldTop || oldEnd <= q
    requires forall q | q in m.tiles :: q < tbase || tbase + tsize <= q
    requires oldEnd == m.top + m.topsize + TOP_FOOT_SIZE
    modifies m`top, m`topsize, m`head, m`trimCheck, m`segs, m`tiles, m`recs
    ensures m.trimCheck == TRIM_THRESHOLD
    ensures RecordDone(m, old(m.G()), old(m.segs), Segment(tbase, tsize), csp)
    ensures nfences >= 2 && Fenced(m.head, csp + RECORD_SIZE, nfences)
    ensures var last := csp + RECORD_SIZE + 4 * (nfences - 1); last + 4 < oldEnd <= last + 8
  {
    hide RecordAt, AlignOffset, RecordHeads, WithTop, Recorded, HeadsOnlyIn;
    ghost var g := m.G();
    InitTop(m, tbase, tsize - TOP_FOOT_SIZE);
    m.head := m.head[csp := Head(RECORD_SIZE, true, true)];
    m.segs := [Segment(tbase, tsize)] + m.segs;
    ghost var h := m.head;
    nfences := WriteFences(m, csp + RECORD_SIZE, oldEnd);
    ghost var h' := m.head;
    ghost var r := Recorded(g, csp, m.top, m.topsize);
    m.tiles, m.recs := r.tiles, r.recs;
    if csp != oldTop {
      m.head := m.head[oldTop := Head(csp - oldTop, true, true)];
    }
    RecordedFields(g, csp, m.top, m.topsize);
    RecordWrites(g, csp, m.top, m.topsize, oldEnd, h, h', m.head);
  }

  lemma RecordedFields(g: Tags, csp: int, top: int, topsize: nat)
    requires g.top <= csp
    ensures var r := Recorded(g, csp, top, topsize); r.top == top && r.topsize == topsize && r.foot == g.foot
  {}

  lemma RecordWrites(g: Tags, csp: int, top: int, topsize: nat, oldEnd: int, h: Heads, h': Heads, h'': Heads)
    requires h == WithTop(g.head, top, topsize)[csp := Head(RECORD_SIZE, true, true)]
    requires forall a | a < csp + RECORD_SIZE || oldEnd <= a :: HeadAt(h', a) == HeadAt(h, a)
    requires g.top <= csp < csp + RECORD_SIZE < oldEnd
    requires h'' == if csp != g.top then h'[g.top := Head(csp - g.top, true, true)] else h'
    requires topsize > 0 && (top + topsize + TOP_FOOT_SIZE <= g.top || oldEnd <= top)
    requires forall q | q in g.tiles :: (q < g.top || oldEnd <= q) && (q < top || top + topsize < q)
    requires oldEnd == g.top + g.topsize + TOP_FOOT_SIZE
    ensures RecordHeads(g, h'', csp, top, topsize) && HeadsOnlyIn(g, h'', top, topsize)
  {
    assert HeadAt(h', top) == HeadAt(h, top) == Head(topsize, false, true);
    assert HeadAt(h', csp) == HeadAt(h, csp);
    forall q | q in g.tiles ensures HeadAt(h'', q) == HeadAt(g.head, q) {
      assert HeadAt(h', q) == HeadAt(h, q) == HeadAt(g.head, q);
    }
    forall a | !(g.top <= a < oldEnd) && a != top && a != top + topsize ensures HeadAt(h'', a) == HeadAt(g.head, a) {
      assert HeadAt(h', a) == HeadAt(h, a) == HeadAt(g.head, a);
    }
  }

  /** The record in place, the heap invariant holds with the rest of the old top still in use. */
  lemma AddedValid(m: MState, c: Cells, g: Tags, segs: seq<Segment>, least: int, seg: Segment, csp: int)
    requires TagsOk(g) && SegsOk(segs, least, g) && g.top > 0 && segs != [] && Region(segs, seg.base, seg.size)
    requires SegEnd(segs[0]) == g.top + g.topsize + TOP_FOOT_SIZE && csp == RecordAt(g.top, SegEnd(segs[0]))
    requires m.least <= least && m.least <= seg.base && RecordDone(m, g, segs, seg, csp)
    requires BinsInv(m.Mem(), m.v) && Known(m.v.sz, g.head, least) && Match(m.v.sz, g.tiles, m.dv, m.dvsize, {})
    requires m.footprint == SumSizes(segs) + seg.size <= m.maxFootprint && KeptOk(m.guard, c, g)
    requires m.Words() == WithTags(c, m.G()) && c == WithTags(c, g)
    ensures m.Valid() && g.top !in g.tiles && csp !in g.tiles && g.top !in g.recs && csp !in g.recs
  {
    hide TagsOk, SegsOk, Region, RecordHeads, Recorded, First, AlignOffset, RecordAt, BinsInv, Known, Match, SumSizes;
    hide KeptOk, HeadsOnlyIn;
    RecordOk(segs, least, g, seg, m.least, csp, m.head);
    RecordedMatch(m.v.sz, g, m.dv, m.dvsize, csp, m.top, m.topsize, m.head, least, m.least);
    SumPushed(segs, seg);
    RecordedKept(m.guard, c, g, csp, m.top, m.topsize, m.head);
  }

  lemma SumPushed(segs: seq<Segment>, s: Segment)
    ensures SumSizes([s] + segs) == s.size + SumSizes(segs)
  {
    assert ([s] + segs)[1..] == segs;
  }

  /** What add_segment needs to know of the old segment. */
  lemma OldSegment(m: MState, g: Tags, tbase: nat, tsize: nat)
    requires TagsOk(g) && SegsOk(m.segs, m.least, g) && g.top != 0 && Region(m.segs, tbase, tsize)
    ensures tsize >= 64 && m.segs != [] && SegmentHolds(m.segs[0], g.top) && g.top > 0
    ensures SegEnd(m.segs[0]) == g.top + g.topsize + TOP_FOOT_SIZE
    ensures var oldEnd := SegEnd(m.segs[0]);
            && oldEnd >= 47 && g.top <= RecordAt(g.top, oldEnd) && RecordAt(g.top, oldEnd) + RECORD_SIZE + 16 <= oldEnd
            && (tbase + tsize <= g.top || oldEnd <= tbase)
            && (forall q | q in g.tiles :: (q < g.top || oldEnd <= q) && (q < tbase || tbase + tsize <= q))
            && (RecordAt(g.top, oldEnd) != g.top ==> GoodSize(RecordAt(g.top, oldEnd) - g.top))
  {
    hide RecordAt, SegShape, SegFirst, Apart, Followed, HeadsOk, UsedNext, FreeNext, PrevFree;
    TopEven(g);
    RecordPlace(g.top, g.topsize);
    FreshClear(m.segs, Segment(tbase, tsize), 0);
    forall q | q in g.tiles ensures q < tbase || tbase + tsize <= q {
      var i := InsideAt(m.segs, g.tiles, q);
      FreshClear(m.segs, Segment(tbase, tsize), i);
    }
  }

  /** nfences fenceposts in a row. */
  predicate Fenced(h: Heads, first: int, nfences: nat) {
    forall k: nat | k < nfences :: HeadAt(h, first + 4 * k) == FENCEPOST
  }

  /** The rest of the old top, if any, goes into a bin. */
  method FreeOldTop(m: MState, ghost g: Tags, ghost segs: seq<Segment>, ghost seg: Segment, oldTop: int, csp: int,
                    ghost nfences: nat)
    requires m.Valid() && oldTop == g.top && RecordDone(m, g, segs, seg, csp)
    requires g.top !in g.tiles && csp !in g.tiles && g.top !in g.recs && csp !in g.recs
    requires Fenced(m.head, csp + RECORD_SIZE, nfences) && (csp != oldTop ==> oldTop !in m.guard.kept)
    modifies m`smallmap, m`treemap, m`treebins, m`fd, m`bk, m`child, m`parent, m`index, m`v
    modifies m`head, m`foot, m`tiles
    ensures m.Valid() && SameLive(g, m.G()) && m.top == old(m.top) && m.topsize == old(m.topsize)
    ensures Fenced(m.head, csp + RECORD_SIZE, nfences)
  {
    hide TagsOk, SegsOk, BinsInv, Known, Match, RecordHeads, SameLive, First, Freed, LiveOf, Back, Fwd, RunOf, Loose;
    hide FreeAfter, Fenced, KeptOk, HeadsOnlyIn;
    RecordedLive(g, csp, m.top, m.topsize, m.head);
    if csp != oldTop {
      RecordedFree(g, csp, m.top, m.topsize, m.head);
      DvOf(m.v.sz, m.tiles, m.dv, m.dvsize, {});
      PlainRun(m.G(), oldTop, m.dv, m.dvsize);
      FinishBin(m, oldTop, oldTop, csp, csp - oldTop, true);
      FencesKept(old(m.G()), oldTop, m.G(), csp + RECORD_SIZE, nfences);
      FreedLive(old(m.G()), oldTop, m.G());
      StillLive(g, old(m.G()), m.G(), oldTop);
    } else {
      StillLive(g, old(m.G()), m.G(), oldTop);
    }
  }

  lemma RecordedFree(g: Tags, csp: int, top: int, topsize: nat, h: Heads)
    requires g.top < csp && g.top !in g.recs && RecordHeads(g, h, csp, top, topsize)
    ensures var g' := Recorded(g, csp, top, topsize).(head := h);
            && Held(g', g.top) && HeadAt(h, g.top).pinuse && End(g'.tiles, g.top) == csp && csp in g'.tiles
            && g'.tiles[csp].used
            && g'.tiles[g.top].size == csp - g.top
  {}

  lemma FencesKept(g: Tags, p: int, g': Tags, first: int, nfences: nat)
    requires p in g.tiles && Freed(g, p, g') && Fwd(g, p) != g.top && Fenced(g.head, first, nfences)
    requires Back(g, p) < first && Fwd(g, p) < first
    ensures Fenced(g'.head, first, nfences) && g'.top == g.top && g'.topsize == g.topsize
  {
    forall k: nat | k < nfences ensures HeadAt(g'.head, first + 4 * k) == FENCEPOST {
      FreedHeads(g, p, g', first + 4 * k);
    }
    FreedHeads(g, p, g', first);
  }

  lemma StillLive(g: Tags, g1: Tags, g2: Tags, p: int)
    requires LiveOf(g1) - {p} == LiveOf(g) && p !in g.tiles && LiveOf(g2) == LiveOf(g)
    requires forall q | q in LiveOf(g) :: q in g.tiles && q in g1.tiles && g1.tiles[q] == g.tiles[q]
    requires forall q | q in LiveOf(g1) && q != p :: q in g1.tiles && q in g2.tiles && g2.tiles[q] == g1.tiles[q]
    ensures SameLive(g, g2)
  {}

  /** The region becomes the most recent segment, with the record of the old one at the end of that. */
  method RecordSegment(m: MState, tbase: nat, tsize: nat) returns (csp: int, nfences: nat)
    requires Charged(m, tsize) && m.top != 0 && Region(m.segs, tbase, tsize) && m.least <= tbase
    modifies m`top, m`topsize, m`head, m`trimCheck, m`segs, m`tiles, m`recs
    ensures m.trimCheck == TRIM_THRESHOLD
    ensures m.Valid() && RecordDone(m, old(m.G()), old(m.segs), Segment(tbase, tsize), csp) && 0 < old(m.top) <= csp
    ensures var top := old(m.top);
            top !in old(m.tiles) && csp !in old(m.tiles) && top !in old(m.recs) && csp !in old(m.recs)
    ensures csp != old(m.top) ==> old(m.top) !in m.guard.kept
    ensures nfences >= 2 && Fenced(m.head, csp + RECORD_SIZE, nfences)
    ensures old(m.segs) != []
    ensures var last := csp + RECORD_SIZE + 4 * (nfences - 1); last + 4 < SegEnd(old(m.segs[0])) <= last + 8
  {
    hide TagsOk, SegsOk, Region, BinsInv, Known, Match, SumSizes, RecordAt, SegmentHolds, First, AlignOffset;
    hide RecordHeads, Recorded, Fenced;
    hide KeptOk, HeadsOnlyIn;
    ghost var g := m.G();
    OldSegment(m, g, tbase, tsize);
    var i := SegmentHolding(m.segs, m.top);
    var oldTop, oldEnd := m.top, SegEnd(m.segs[i]);
    csp := RecordAt(oldTop, oldEnd);
    nfences := AddRecord(m, tbase, tsize, oldTop, oldEnd, csp);
    AddedValid(m, old(m.Words()), g, old(m.segs), m.least, Segment(tbase, tsize), csp);
    NotKept(m.guard, old(m.Words()), g, oldTop);
  }

  /** add_segment: at least two fenceposts, up to the old segment's end. */
  method AddSegment(m: MState, tbase: nat, tsize: nat) returns (ghost fences: int, nfences: nat)
    requires Charged(m, tsize) && m.top != 0 && Region(m.segs, tbase, tsize) && m.least <= tbase
    modifies m`smallmap, m`treemap, m`treebins, m`fd, m`bk, m`child, m`parent, m`index, m`v
    modifies m`head, m`foot, m`tiles, m`top, m`topsize, m`trimCheck, m`segs, m`recs
    ensures m.trimCheck == TRIM_THRESHOLD
    ensures m.Valid() && SameLive(old(m.G()), m.G()) && m.segs == [Segment(tbase, tsize)] + old(m.segs)
    ensures m.top == First(Segment(tbase, tsize)) && m.topsize == tsize - TOP_FOOT_SIZE - AlignOffset(tbase)
    ensures nfences >= 2 && Fenced(m.head, fences, nfences)
    ensures old(m.segs) != [] && var last := fences + 4 * (nfences - 1);
            old(m.top) < fences && last + 4 < SegEnd(old(m.segs[0])) <= last + 8
  {
    hide TagsOk, SegsOk, BinsInv, Known, Match, SumSizes, SameLive, First, AlignOffset, RecordHeads, Recorded, Fenced;
    hide KeptOk, HeadsOnlyIn;
    ghost var g := m.G();
    var oldTop := m.top;
    var csp;
    csp, nfences := RecordSegment(m, tbase, tsize);
    fences := csp + RECORD_SIZE;
    FreeOldTop(m, g, old(m.segs), Segment(tbase, tsize), oldTop, csp, nfences);
  }
}
