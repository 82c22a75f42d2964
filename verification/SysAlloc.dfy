/** sys_alloc: memory from the system joins the heap and serves the request. */
module SysAlloc {
  import opened Words
  import opened Rings
  import opened Tries
  import opened Bins
  import opened Tiling
  import opened TagOps
  import opened Segments
  import opened SegOps
  import opened SysOps
  import opened SysSegs
  import opened Coalesce
  import opened State
  import opened Keeping
  import opened Consolidate
  import opened AllocOps
  import opened Sbrk
  import opened Morecore
  import opened SysAsk
  import opened SysInstall
  import opened SysRecord
  import opened SysPrepend
  import Malloc

  // ----- where the region goes

  /** The segment that ends at an address, if any. */
  method SegmentEndingAt(segs: seq<Segment>, a: int) returns (i: nat)
    ensures i <= |segs| && (i < |segs| ==> SegEnd(segs[i]) == a)
    ensures forall j | 0 <= j < i :: SegEnd(segs[j]) != a
  {
    i := 0;
    while i < |segs| && a != SegEnd(segs[i])
      invariant i <= |segs| && forall j | 0 <= j < i :: SegEnd(segs[j]) != a
    {
      i := i + 1;
    }
  }

  /** The segment that begins at an address, if any. */
  method SegmentStartingAt(segs: seq<Segment>, a: int) returns (i: nat)
    ensures i <= |segs| && (i < |segs| ==> segs[i].base == a)
    ensures forall j | 0 <= j < i :: segs[j].base != a
  {
    i := 0;
    while i < |segs| && segs[i].base != a
      invariant i <= |segs| && forall j | 0 <= j < i :: segs[j].base != a
    {
      i := i + 1;
    }
  }

  function Higher(a: nat, b: nat): nat { if a < b then b else a }

  /** least_addr once a region at tbase is in. */
  function LeastAfter(segs: seq<Segment>, top: int, least: int, tbase: nat): int {
    if top == 0 then LeastFirst(least, tbase)
    else if !Continues(segs, tbase) && tbase < least then tbase
    else least
  }

  /** The footprint takes the region in before the segments do. */
  method Charge(m: MState, tsize: nat)
    requires m.Valid()
    modifies m`footprint, m`maxFootprint
    ensures Charged(m, tsize) && m.footprint == old(m.footprint) + tsize
    ensures m.maxFootprint == Higher(old(m.maxFootprint), m.footprint)
  {
    hide TagsOk, SegsOk, BinsInv, Known, Match, KeptOk;
    m.footprint := m.footprint + tsize;
    if m.footprint > m.maxFootprint {
      m.maxFootprint := m.footprint;
    }
  }

  /** Only the most recent segment holds top. */
  lemma OnlyHead(segs: seq<Segment>, least: int, g: Tags, i: nat)
    requires SegsOk(segs, least, g) && TagsOk(g) && g.top != 0 && i < |segs|
    ensures segs != [] && (SegmentHolds(segs[i], g.top) <==> i == 0)
  {
    hide SegInside, SegFirst, Shapes, Apart, TopApart, Followed, HeadsOk, UsedNext, FreeNext, PrevFree;
    if i != 0 { OtherSegment(segs, least, i); }
  }

  lemma SpareResized(segs: seq<Segment>, tbase: nat, tsize: nat, brk: nat, room: nat)
    requires segs != [] && tbase == SegEnd(segs[0]) && segs[0].size > 0 && tsize > 0
    requires Spare([Segment(tbase, tsize)] + segs, brk, room)
    ensures Spare(ResizedSegs(segs, segs[0].size + tsize), brk, room)
  {
    var segs1 := [Segment(tbase, tsize)] + segs;
    assert segs1[0] == Segment(tbase, tsize) && segs1[1] == segs[0];
    assert forall i | 0 < i < |segs| :: segs1[i + 1] == segs[i];
  }

  lemma SpareLowered(segs: seq<Segment>, i: nat, tbase: nat, tsize: nat, brk: nat, room: nat)
    requires i < |segs| && tbase + tsize == segs[i].base && segs[i].size > 0 && tsize > 0
    requires Spare([Segment(tbase, tsize)] + segs, brk, room)
    ensures Spare(Lowered(segs, i, tbase, tsize), brk, room)
  {
    var segs1 := [Segment(tbase, tsize)] + segs;
    assert segs1[0] == Segment(tbase, tsize);
    assert forall j | 0 <= j < |segs| :: segs1[j + 1] == segs[j];
  }

  lemma SegSizes(segs: seq<Segment>, least: int, g: Tags)
    requires SegsOk(segs, least, g)
    ensures forall i | 0 <= i < |segs| :: segs[i].size > 0
  {}

  /** A lower least_addr does no harm. */
  lemma LowerLeast(segs: seq<Segment>, sz: Sizes, g: Tags, least: int, least': int)
    requires SegsOk(segs, least, g) && Known(sz, g.head, least) && least' <= least
    ensures SegsOk(segs, least', g) && Known(sz, g.head, least')
  {}

  lemma TopTaken(g: Tags, nb: nat)
    requires nb <= g.topsize
    ensures g.top in TakeTopTags(g, nb).tiles && TakeTopTags(g, nb).tiles[g.top].size == nb
  {}

  /** Top, once it has grown or moved, serves the request. */
  method ServeFromTop(m: MState, ghost g: Tags, nb: nat) returns (mem: int)
    requires m.Valid() && GoodSize(nb) && SameLive(g, m.G()) && nb < m.topsize
    modifies m`head, m`tiles, m`top, m`topsize
    ensures m.Valid() && mem > 8 && mem % 8 == 0 && Allocated(g, m.G(), mem - 8, nb) && mem - 8 == old(m.top)
  {
    hide TagsOk, SegsOk, BinsInv, Known, Match, FootprintOk, SameLive, Allocated, KeptOk;
    ghost var g1 := m.G();
    Malloc.TopFacts(g1, nb);
    mem := Malloc.AllocTop(m, nb);
    TopTaken(g1, nb);
    AllocatedLater(g, g1, m.G(), mem - 8, nb);
  }

  /** What came of the request. */
  ghost predicate Served(g: Tags, g': Tags, nb: nat, mem: int) {
    if mem == 0 then SameLive(g, g') else mem > 8 && mem % 8 == 0 && Allocated(g, g', mem - 8, nb)
  }

  /** least_addr covers the region, too. */
  method KeepLeast(m: MState, tbase: nat, ghost tsize: nat)
    requires Charged(m, tsize)
    modifies m`least
    ensures Charged(m, tsize) && m.least <= tbase && m.least == if tbase < old(m.least) then tbase else old(m.least)
  {
    hide TagsOk, SegsOk, BinsInv, Known, Match, SumSizes, KeptOk;
    LowerLeast(m.segs, m.v.sz, m.G(), m.least, if tbase < m.least then tbase else m.least);
    if tbase < m.least {
      m.least := tbase;
    }
  }

  /** The region becomes a segment of its own. */
  method PlaceAlone(m: MState, tbase: nat, tsize: nat, nb: nat) returns (mem: int)
    requires Charged(m, tsize) && m.top != 0 && GoodSize(nb) && Region(m.segs, tbase, tsize) && m.least <= tbase
    requires tsize < nb || tsize >= nb + SYS_ALLOC_PADDING
    modifies m`smallmap, m`treemap, m`treebins, m`fd, m`bk, m`child, m`parent, m`index, m`v
    modifies m`head, m`foot, m`tiles, m`top, m`topsize, m`trimCheck, m`segs, m`recs
    ensures m.Valid() && Served(old(m.G()), m.G(), nb, mem) && (mem == 0 <==> tsize < nb)
    ensures m.trimCheck == TRIM_THRESHOLD
    ensures m.segs == [Segment(tbase, tsize)] + old(m.segs)
    ensures mem != 0 ==> mem - 8 == First(Segment(tbase, tsize))
  {
    hide TagsOk, SegsOk, BinsInv, Known, Match, SumSizes, FreshRange, FootprintOk, Allocated, SameLive, Fenced, First;
    hide KeptOk;
    ghost var fences, nfences := AddSegment(m, tbase, tsize);
    mem := 0;
    if nb < m.topsize {
      mem := ServeFromTop(m, old(m.G()), nb);
    }
  }

  /** Whether the region is put below segment j, the first that begins at its end, or stands alone. */
  lemma Whither(segs: seq<Segment>, top: int, nb: nat, tbase: nat, tsize: nat, j: nat)
    requires j <= |segs| && (j < |segs| ==> segs[j].base == tbase + tsize)
    requires forall i | 0 <= i < j :: segs[i].base != tbase + tsize
    requires FreshRange(segs, tbase, tbase + tsize) && tsize >= 64 && !Continues(segs, tbase)
    requires !Astray(segs, nb, tbase, tsize) && (tsize >= nb + SYS_ALLOC_PADDING || Short(segs, top, nb, tbase, tsize))
    ensures Prepends(segs, tbase, tsize) <==> j < |segs|
    ensures tsize < nb || tsize >= nb + SYS_ALLOC_PADDING
    ensures j < |segs| ==>
              tsize >= nb + SYS_ALLOC_PADDING && Joins(segs, Lowered(segs, j, tbase, tsize), tbase, tsize)
    ensures j == |segs| ==>
              Region(segs, tbase, tsize) && Joins(segs, [Segment(tbase, tsize)] + segs, tbase, tsize)
  {
    hide FreshRange;
  }

  /** The region extends a segment downwards. */
  method PlaceBelow(m: MState, j: nat, tbase: nat, tsize: nat, nb: nat, ghost brk: nat, ghost room: nat)
    returns (mem: int)
    requires Charged(m, tsize) && GoodSize(nb) && tsize >= nb + SYS_ALLOC_PADDING && m.least <= tbase
    requires j < |m.segs| && FreshRange(m.segs, tbase, tbase + tsize) && tbase + tsize == m.segs[j].base
    requires Prepends(m.segs, tbase, tsize) && Spare([Segment(tbase, tsize)] + m.segs, brk, room)
    modifies m`smallmap, m`treemap, m`treebins, m`fd, m`bk, m`child, m`parent, m`index, m`v
    modifies m`head, m`foot, m`tiles, m`top, m`topsize, m`dv, m`dvsize, m`segs
    ensures m.Valid() && Served(old(m.G()), m.G(), nb, mem) && mem != 0
    ensures m.segs == Lowered(old(m.segs), j, tbase, tsize) && Spare(m.segs, brk, room)
    ensures mem - 8 == First(Segment(tbase, tsize))
    ensures VictimPlaced(old(m.segs), tbase, tsize, nb, old(m.dv), old(m.dvsize), m.dv, m.dvsize)
  {
    hide TagsOk, SegsOk, BinsInv, Known, Match, SumSizes, FreshRange, FootprintOk, Allocated, SameLive;
    hide First, KeptOk, Prepends, VictimLowered, Spare;
    SegSizes(m.segs, m.least, m.G());
    SpareLowered(m.segs, j, tbase, tsize, brk, room);
    SameFirst(m.segs[j], tbase + tsize);
    mem := PrependAlloc(m, j, tbase, tsize, nb);
  }

  /** The region extends a segment downwards or becomes one, least_addr being no higher. */
  method PlaceSettled(m: MState, tbase: nat, tsize: nat, nb: nat, ghost brk: nat, ghost room: nat) returns (mem: int)
    requires Charged(m, tsize) && m.top != 0 && GoodSize(nb) && FreshRange(m.segs, tbase, tbase + tsize)
    requires tsize >= 64 && !Continues(m.segs, tbase) && !Astray(m.segs, nb, tbase, tsize) && m.least <= tbase
    requires tsize >= nb + SYS_ALLOC_PADDING || Short(m.segs, m.top, nb, tbase, tsize)
    requires Spare([Segment(tbase, tsize)] + m.segs, brk, room)
    modifies m`smallmap, m`treemap, m`treebins, m`fd, m`bk, m`child, m`parent, m`index, m`v
    modifies m`head, m`foot, m`tiles, m`top, m`topsize, m`dv, m`dvsize, m`segs, m`trimCheck, m`recs
    ensures m.Valid() && Served(old(m.G()), m.G(), nb, mem) && (mem == 0 <==> tsize < nb)
    ensures Spare(m.segs, brk, room) && Joins(old(m.segs), m.segs, tbase, tsize)
    ensures m.trimCheck == if Prepends(old(m.segs), tbase, tsize) then old(m.trimCheck) else TRIM_THRESHOLD
    ensures mem != 0 ==> mem - 8 == First(Segment(tbase, tsize))
    ensures VictimPlaced(old(m.segs), tbase, tsize, nb, old(m.dv), old(m.dvsize), m.dv, m.dvsize)
  {
    hide TagsOk, SegsOk, BinsInv, Known, Match, SumSizes, FreshRange, FootprintOk, Allocated, SameLive, Spare, Fenced;
    hide First, KeptOk, Astray, Prepends, Short, NoneAbove, Region, Joins, VictimPlaced, Served, Continues;
    hide Charged, GoodSize, MState.Pending;
    var j := SegmentStartingAt(m.segs, tbase + tsize);
    Whither(m.segs, m.top, nb, tbase, tsize, j);
    if j < |m.segs| {
      mem := PlaceBelow(m, j, tbase, tsize, nb, brk, room);
    } else {
      StaysFirst(m.segs, tbase, tsize, nb, m.dv, m.dvsize);
      mem := PlaceAlone(m, tbase, tsize, nb);
    }
  }

  /** The same after lowering least_addr. */
  method PlaceApart(m: MState, tbase: nat, tsize: nat, nb: nat, ghost brk: nat, ghost room: nat) returns (mem: int)
    requires Charged(m, tsize) && m.top != 0 && GoodSize(nb) && FreshRange(m.segs, tbase, tbase + tsize)
    requires tsize >= 64 && !Continues(m.segs, tbase) && !Astray(m.segs, nb, tbase, tsize)
    requires tsize >= nb + SYS_ALLOC_PADDING || Short(m.segs, m.top, nb, tbase, tsize)
    requires Spare([Segment(tbase, tsize)] + m.segs, brk, room)
    modifies m`smallmap, m`treemap, m`treebins, m`fd, m`bk, m`child, m`parent, m`index, m`v
    modifies m`head, m`foot, m`tiles, m`top, m`topsize, m`dv, m`dvsize, m`segs, m`least, m`trimCheck, m`recs
    ensures m.Valid() && Served(old(m.G()), m.G(), nb, mem) && (mem == 0 <==> tsize < nb)
    ensures Spare(m.segs, brk, room) && Joins(old(m.segs), m.segs, tbase, tsize)
    ensures m.trimCheck == if Prepends(old(m.segs), tbase, tsize) then old(m.trimCheck) else TRIM_THRESHOLD
    ensures m.least == LeastAfter(old(m.segs), old(m.top), old(m.least), tbase)
    ensures mem != 0 ==> mem - 8 == ServedAt(old(m.segs), old(m.top), tbase, tsize)
    ensures VictimPlaced(old(m.segs), tbase, tsize, nb, old(m.dv), old(m.dvsize), m.dv, m.dvsize)
  {
    hide TagsOk, SegsOk, BinsInv, Known, Match, SumSizes, FreshRange, FootprintOk, Allocated, SameLive, Spare;
    hide First, KeptOk, Astray, Prepends, Short, Joins, VictimPlaced, ServedAt, Served, Continues, Charged, LeastAfter;
    ServedApart(m.segs, m.top, tbase, tsize, m.least);
    KeepLeast(m, tbase, tsize);
    mem := PlaceSettled(m, tbase, tsize, nb, brk, room);
  }

  /** The region extends top. */
  method PlaceOn(m: MState, tbase: nat, tsize: nat, nb: nat, ghost brk: nat, ghost room: nat) returns (mem: int)
    requires Charged(m, tsize) && m.top != 0 && GoodSize(nb) && FreshRange(m.segs, tbase, tbase + tsize)
    requires tsize >= 64 && Continues(m.segs, tbase) && (tbase + tsize) % 4 == 0 && nb < m.topsize + tsize
    requires Spare([Segment(tbase, tsize)] + m.segs, brk, room)
    modifies m`segs, m`head, m`tiles, m`top, m`topsize, m`trimCheck
    ensures m.Valid() && Served(old(m.G()), m.G(), nb, mem) && mem != 0 && mem - 8 == old(m.top)
    ensures Spare(m.segs, brk, room) && Joins(old(m.segs), m.segs, tbase, tsize) && m.trimCheck == TRIM_THRESHOLD
  {
    hide TagsOk, SegsOk, BinsInv, Known, Match, SumSizes, FreshRange, FootprintOk, Allocated, SameLive, Spare;
    hide SegmentHolds, NoneAbove, KeptOk;
    SegSizes(m.segs, m.least, m.G());
    SpareResized(m.segs, tbase, tsize, brk, room);
    Append(m, tsize);
    mem := ServeFromTop(m, old(m.G()), nb);
  }

  /** The region continues a segment, joins one from below, or becomes one. */
  method PlaceLater(m: MState, tbase: nat, tsize: nat, nb: nat, ghost brk: nat, ghost room: nat) returns (mem: int)
    requires Charged(m, tsize) && m.top != 0 && GoodSize(nb) && FreshRange(m.segs, tbase, tbase + tsize)
    requires tsize >= 64 && !Astray(m.segs, nb, tbase, tsize)
    requires Suits(m.segs, m.topsize, nb, tbase, tsize) || Short(m.segs, m.top, nb, tbase, tsize)
    requires Spare([Segment(tbase, tsize)] + m.segs, brk, room)
    modifies m`smallmap, m`treemap, m`treebins, m`fd, m`bk, m`child, m`parent, m`index, m`v
    modifies m`head, m`foot, m`tiles, m`top, m`topsize, m`dv, m`dvsize, m`segs, m`least, m`trimCheck, m`recs
    ensures m.Valid() && Served(old(m.G()), m.G(), nb, mem)
    ensures (mem != 0 <==> Suits(old(m.segs), old(m.topsize), nb, tbase, tsize))
    ensures Spare(m.segs, brk, room) && Joins(old(m.segs), m.segs, tbase, tsize)
    ensures m.trimCheck == if Prepends(old(m.segs), tbase, tsize) then old(m.trimCheck) else TRIM_THRESHOLD
    ensures m.least == LeastAfter(old(m.segs), old(m.top), old(m.least), tbase)
    ensures mem != 0 ==> mem - 8 == ServedAt(old(m.segs), old(m.top), tbase, tsize)
    ensures VictimPlaced(old(m.segs), tbase, tsize, nb, old(m.dv), old(m.dvsize), m.dv, m.dvsize)
  {
    hide TagsOk, SegsOk, BinsInv, Known, Match, SumSizes, FreshRange, FootprintOk, Allocated, SameLive, Spare;
    hide SegmentHolds, NoneAbove, KeptOk, VictimPlaced, ServedAt, Joins, Served;
    SegSizes(m.segs, m.least, m.G());
    var i := SegmentEndingAt(m.segs, tbase);
    if i < |m.segs| { OnlyHead(m.segs, m.least, m.G(), i); }
    if i < |m.segs| && SegmentHolds(m.segs[i], m.top) {
      Extending(m.segs, m.top, tbase, tsize, nb, m.dv, m.dvsize);
      mem := PlaceOn(m, tbase, tsize, nb, brk, room);
    } else {
      if |m.segs| > 0 { OnlyHead(m.segs, m.least, m.G(), 0); }
      mem := PlaceApart(m, tbase, tsize, nb, brk, room);
    }
  }

  /** The region becomes the first segment. */
  method PlaceFirst(m: MState, tbase: nat, tsize: nat, nb: nat, ghost brk: nat, ghost room: nat) returns (mem: int)
    requires Charged(m, tsize) && m.top == 0 && GoodSize(nb) && FreshRange(m.segs, tbase, tbase + tsize)
    requires tsize >= 64 && !Astray(m.segs, nb, tbase, tsize)
    requires Suits(m.segs, m.topsize, nb, tbase, tsize) || Short(m.segs, m.top, nb, tbase, tsize)
    requires Spare([Segment(tbase, tsize)] + m.segs, brk, room)
    modifies m`least, m`segs, m`fd, m`bk, m`top, m`topsize, m`head, m`trimCheck, m`tiles
    ensures m.Valid() && Served(old(m.G()), m.G(), nb, mem)
    ensures mem != 0 && Suits(old(m.segs), old(m.topsize), nb, tbase, tsize)
    ensures Spare(m.segs, brk, room) && Joins(old(m.segs), m.segs, tbase, tsize)
    ensures m.trimCheck == TRIM_THRESHOLD && !Prepends(old(m.segs), tbase, tsize)
    ensures m.least == LeastAfter(old(m.segs), old(m.top), old(m.least), tbase)
    ensures mem != 0 ==> mem - 8 == ServedAt(old(m.segs), old(m.top), tbase, tsize)
  {
    hide TagsOk, SegsOk, BinsInv, Known, Match, SumSizes, FreshRange, FootprintOk, Allocated, SameLive, Spare;
    hide KeptOk, Astray, Prepends, Suits, Short, Region;
    EmptyHeap(m);
    FirstAlone(m.segs, m.topsize, nb, tbase, tsize);
    assert [Segment(tbase, tsize)] + m.segs == [Segment(tbase, tsize)];
    InstallFirst(m, tbase, tsize);
    mem := ServeFromTop(m, old(m.G()), nb);
  }

  /** The last part of sys_alloc. */
  method Place(m: MState, tbase: nat, tsize: nat, nb: nat, ghost brk: nat, ghost room: nat) returns (mem: int)
    requires m.Valid() && GoodSize(nb) && FreshRange(m.segs, tbase, tbase + tsize)
    requires tsize >= 64 && !Astray(m.segs, nb, tbase, tsize)
    requires Suits(m.segs, m.topsize, nb, tbase, tsize) || Short(m.segs, m.top, nb, tbase, tsize)
    requires Spare([Segment(tbase, tsize)] + m.segs, brk, room)
    modifies m`smallmap, m`treemap, m`treebins, m`fd, m`bk, m`child, m`parent, m`index, m`v
    modifies m`head, m`foot, m`tiles, m`top, m`topsize, m`dv, m`dvsize, m`segs, m`least, m`trimCheck, m`recs
    modifies m`footprint, m`maxFootprint
    ensures m.footprint == old(m.footprint) + tsize
    ensures m.maxFootprint == Higher(old(m.maxFootprint), m.footprint)
    ensures m.Valid() && Served(old(m.G()), m.G(), nb, mem)
    ensures (mem != 0 <==> Suits(old(m.segs), old(m.topsize), nb, tbase, tsize))
    ensures Spare(m.segs, brk, room) && Joins(old(m.segs), m.segs, tbase, tsize)
    ensures m.trimCheck == if Prepends(old(m.segs), tbase, tsize) then old(m.trimCheck) else TRIM_THRESHOLD
    ensures m.least == LeastAfter(old(m.segs), old(m.top), old(m.least), tbase)
    ensures mem != 0 ==> mem - 8 == ServedAt(old(m.segs), old(m.top), tbase, tsize)
    ensures VictimPlaced(old(m.segs), tbase, tsize, nb, old(m.dv), old(m.dvsize), m.dv, m.dvsize)
  {
    hide TagsOk, SegsOk, BinsInv, Known, Match, SumSizes, FreshRange, FootprintOk, Allocated, SameLive, Spare;
    hide KeptOk, Astray, Prepends, Suits, Short, Joins, VictimPlaced, ServedAt;
    Charge(m, tsize);
    if m.top == 0 {
      StaysFirst(m.segs, tbase, tsize, nb, m.dv, m.dvsize);
      mem := PlaceFirst(m, tbase, tsize, nb, brk, room);
    } else {
      mem := PlaceLater(m, tbase, tsize, nb, brk, room);
    }
  }

  lemma Extending(segs: seq<Segment>, top: int, tbase: nat, tsize: nat, nb: nat, dv: int, dvsize: nat)
    requires Continues(segs, tbase)
    ensures ServedAt(segs, top, tbase, tsize) == top && VictimPlaced(segs, tbase, tsize, nb, dv, dvsize, dv, dvsize)
  {}

  lemma ServedApart(segs: seq<Segment>, top: int, tbase: nat, tsize: nat, least: int)
    requires !Continues(segs, tbase) && top != 0
    ensures ServedAt(segs, top, tbase, tsize) == First(Segment(tbase, tsize))
    ensures LeastAfter(segs, top, least, tbase) == if tbase < least then tbase else least
  {}

  lemma HighestNow(m: MState)
    requires m.Valid()
    ensures Higher(m.maxFootprint, m.footprint) == m.maxFootprint
  {
    hide TagsOk, SegsOk, BinsInv, Known, Match, KeptOk;
  }

  lemma StaysFirst(segs: seq<Segment>, tbase: nat, tsize: nat, nb: nat, dv: int, dvsize: nat)
    ensures !Prepends(segs, tbase, tsize) ==> VictimPlaced(segs, tbase, tsize, nb, dv, dvsize, dv, dvsize)
  {}

  /** There is nothing for the first region to extend. */
  lemma FirstAlone(segs: seq<Segment>, topsize: nat, nb: nat, tbase: nat, tsize: nat)
    requires segs == [] && FreshRange(segs, tbase, tbase + tsize) && tsize >= 64 && !Astray(segs, nb, tbase, tsize)
    ensures !Prepends(segs, tbase, tsize) && Region(segs, tbase, tsize) && !Short(segs, 0, nb, tbase, tsize)
    ensures Suits(segs, topsize, nb, tbase, tsize) ==> tsize >= nb + SYS_ALLOC_PADDING
  {}

  lemma EmptyHeap(m: MState)
    requires TagsOk(m.G()) && SegsOk(m.segs, m.least, m.G()) && m.top == 0
    ensures m.segs == [] && m.topsize == 0
  {
    hide Shapes, Apart, TopApart, Followed, HeadsOk, UsedNext, FreeNext, PrevFree;
  }

  // ----- sys_alloc

  lemma AskOk(m: MState, sys: System, nb: nat)
    requires m.Valid() && sys.Free(m.segs) && m.topsize <= nb < TWO32
    ensures MayAsk(Asking(m, sys), nb)
  {
    hide BinsInv, Known, Match, FootprintOk, KeptOk, TagsOk, SegsOk, Spare;
    if m.top == 0 {
      EmptyHeap(m);
    } else {
      TopSegmentEnd(m.segs, m.least, m.G());
    }
  }

  lemma TopSegmentEnd(segs: seq<Segment>, least: int, g: Tags)
    requires TagsOk(g) && SegsOk(segs, least, g) && g.top != 0
    ensures segs != [] && SegEnd(segs[0]) % 4 == 0
  {
    TopEven(g);
    WordSum(g.top, g.topsize);
    hide TagsOk, SegShape, SegInside, SegFirst, RecLast;
  }

  lemma WordSum(top: int, topsize: int)
    requires top % 8 == 0 && topsize % 4 == 0
    ensures (top + topsize + TOP_FOOT_SIZE) % 4 == 0
  {}

  /** The attempts to get memory, in the order of the source, and exactly when the region obtained suits the request. */
  method ObtainMemory(m: MState, sys: System, nb: nat, asize: nat) returns (tbase: Option<nat>, tsize: nat)
    requires m.Valid() && sys.Free(m.segs) && 16 <= nb && m.topsize <= nb
    requires asize % PAGE_SIZE == 0 && nb + SYS_ALLOC_PADDING <= asize < TWO32
    requires asize < nb + SYS_ALLOC_PADDING + PAGE_SIZE
    modifies sys, m`contiguous
    ensures tbase.Some? ==> Obtained(m, sys, tbase.value, tsize)
    ensures tbase.Some? ==> (Ample(m.segs, m.topsize, nb, tbase.value, tsize)
                             <==> (m.contiguous ==> ReachesFar(m.segs, m.top, m.topsize, nb, tbase.value)))
    ensures m.contiguous ==> old(m.contiguous)
    ensures tbase.Some? && !Ample(m.segs, m.topsize, nb, tbase.value, tsize) ==>
              m.top != 0 && tsize < nb && !Continues(m.segs, tbase.value)
    ensures tbase.None? ==> sys.Free(m.segs)
    ensures m.Valid() && MayAsk(old(Asking(m, sys)), nb)
    ensures Reply(Got(tbase, tsize), sys.Now()) == SystemReply(old(Asking(m, sys)), nb, asize)
    ensures m.contiguous <==> old(m.contiguous) && ContiguousReply(old(Asking(m, sys)), nb, asize).region.Some?
  {
    hide TagsOk, SegsOk, BinsInv, Known, Match, FootprintOk, FreshRange, Spare, ExtendSize, PadFits, KeptOk, FirstReply;
    hide ExtendReply, Once;
    AskOk(m, sys, nb);
    tbase, tsize := None, 0;
    if m.contiguous {
      tbase, tsize := MorecoreContiguous(m, sys, nb, asize);
    }
    if tbase == None {
      tbase, tsize := MorecoreFresh(m, sys, nb, asize);
    }
  }

  /** The region is in, and the rest of the position is as it was. */
  ghost predicate Took(p: Position, p': Position, tbase: nat, tsize: nat) {
    && TakenIn(p, p', tbase, tsize)
    && p'.sys == p.sys && p'.contiguous == p.contiguous && p'.footprintLimit == p.footprintLimit
  }

  lemma FirstServed(p: Position, nb: nat, p': Position)
    requires MayAsk(p, nb) && AskedBy(p, nb, p')
    ensures GoodSize(nb) && Rounds(p, nb) ==>
              && Serves(p, nb) && |p'.segs| == 1 && p'.segs[0].base == p.sys.brk
              && SegEnd(p'.segs[0]) % PAGE_SIZE == 0 && p'.sys.brk == SegEnd(p'.segs[0])
  {
    hide AskedBy, Gives, Rounds, KeptShort;
    if GoodSize(nb) && Rounds(p, nb) {
      FirstSegment(p, nb, p');
    }
  }

  lemma AskingIs(m: MState, sys: System)
    ensures Asking(m, sys).segs == m.segs && Asking(m, sys).topsize == m.topsize && Asking(m, sys).sys.brk == sys.brk
    ensures Asking(m, sys).top == m.top
  {}

  lemma ReplyMeans(p: Position, nb: nat, tbase: Option<nat>, tsize: nat, o: Oracle)
    requires MayAsk(p, nb) && Gives(p, nb) == Reply(Got(tbase, tsize), o)
    ensures GoesAstray(p, nb) <==> tbase.Some? && Astray(p.segs, nb, tbase.value, tsize)
    ensures Serves(p, nb) <==> tbase.Some? && Suits(p.segs, p.topsize, nb, tbase.value, tsize)
  {}

  /** Where the request is served, and the victim then. */
  ghost predicate FromSystem(p: Position, nb: nat, mem: int, dv: int, dvsize: nat, dv': int, dvsize': nat)
    requires MayAsk(p, nb)
  {
    var r := Gives(p, nb).region;
    if r.Some? && !GoesAstray(p, nb) then
      && (mem != 0 ==> mem - 8 == ServedAt(p.segs, p.top, r.value.base, r.value.size))
      && VictimPlaced(p.segs, r.value.base, r.value.size, nb, dv, dvsize, dv', dvsize')
    else dv' == dv && dvsize' == dvsize
  }

  lemma FromMeans(p: Position, nb: nat, tbase: Option<nat>, tsize: nat, o: Oracle, mem: int, dv: int, dvsize: nat,
                  dv': int, dvsize': nat)
    requires MayAsk(p, nb) && Gives(p, nb) == Reply(Got(tbase, tsize), o)
    requires if tbase.Some? && !Astray(p.segs, nb, tbase.value, tsize) then
               && (mem != 0 ==> mem - 8 == ServedAt(p.segs, p.top, tbase.value, tsize))
               && VictimPlaced(p.segs, tbase.value, tsize, nb, dv, dvsize, dv', dvsize')
             else dv' == dv && dvsize' == dvsize
    ensures FromSystem(p, nb, mem, dv, dvsize, dv', dvsize')
  {
    hide Gives, Astray, ServedAt, VictimPlaced;
  }

  /** The position after the request, from that after the system's answer. */
  lemma AskedMeans(p: Position, q: Position, nb: nat, tbase: Option<nat>, tsize: nat, p': Position)
    requires MayAsk(p, nb) && Gives(p, nb) == Reply(Got(tbase, tsize), q.sys)
    requires q == p.(contiguous := StaysContiguous(p, nb), sys := q.sys)
    requires if tbase.Some? && !Astray(p.segs, nb, tbase.value, tsize) then Took(q, p', tbase.value, tsize) else p' == q
    ensures AskedBy(p, nb, p')
  {
    hide Gives, Astray, Joins, StaysContiguous, Prepends;
  }

  /** What sys_alloc gets, if it asks at all. */
  method AskSystem(m: MState, sys: System, nb: nat) returns (tbase: Option<nat>, tsize: nat)
    requires m.Valid() && sys.Free(m.segs) && (GoodSize(nb) || nb == MAX_SIZE_T) && m.topsize <= nb
    modifies sys, m`contiguous
    ensures m.Valid() && MayAsk(old(Asking(m, sys)), nb)
    ensures Reply(Got(tbase, tsize), Asking(m, sys).sys) == Gives(old(Asking(m, sys)), nb)
    ensures Asking(m, sys)
            == old(Asking(m, sys)).(contiguous := StaysContiguous(old(Asking(m, sys)), nb), sys := Asking(m, sys).sys)
    ensures tbase.None? ==> sys.Free(m.segs)
    ensures tbase.Some? ==> GoodSize(nb) && Obtained(m, sys, tbase.value, tsize)
    ensures tbase.Some? && !Astray(m.segs, nb, tbase.value, tsize) ==>
              || Suits(m.segs, m.topsize, nb, tbase.value, tsize)
              || (m.top != 0 && tsize < nb && Short(m.segs, m.top, nb, tbase.value, tsize))
  {
    hide TagsOk, SegsOk, BinsInv, Known, Match, FootprintOk, Ample, FreshRange, Spare, GranularityAlign, PadFits;
    hide NoneAbove, KeptOk;
    hide SystemReply, ContiguousReply, LimitAdmits;
    NoLimit(m.footprint, GranularityAlign(nb + SYS_ALLOC_PADDING));
    NotMax(nb);
    AskOk(m, sys, nb);
    tbase, tsize := None, 0;
    var asize := GranularityAlign(nb + SYS_ALLOC_PADDING);
    GranularityOk(nb);
    if asize > nb && (m.footprintLimit == 0 || LimitAdmits(m.footprint, m.footprintLimit, asize)) {
      PageMod(asize);
      tbase, tsize := ObtainMemory(m, sys, nb, asize);
    }
  }

  /** The region joins the heap, unless that is where the source goes astray. */
  method TakeIn(m: MState, sys: System, tbase: nat, tsize: nat, nb: nat) returns (ok: bool, mem: int)
    requires m.Valid() && GoodSize(nb) && Obtained(m, sys, tbase, tsize)
    requires Astray(m.segs, nb, tbase, tsize) || Suits(m.segs, m.topsize, nb, tbase, tsize)
        || Short(m.segs, m.top, nb, tbase, tsize)
    modifies m`smallmap, m`treemap, m`treebins, m`fd, m`bk, m`child, m`parent, m`index, m`v
    modifies m`head, m`foot, m`tiles, m`top, m`topsize, m`dv, m`dvsize, m`segs, m`least, m`trimCheck, m`recs
    modifies m`footprint, m`maxFootprint
    ensures m.Valid() && sys.Free(m.segs) && Served(old(m.G()), m.G(), nb, mem)
    ensures (ok <==> !Astray(old(m.segs), nb, tbase, tsize))
    ensures (mem != 0 <==> Suits(old(m.segs), old(m.topsize), nb, tbase, tsize))
    ensures m.maxFootprint == Higher(old(m.maxFootprint), m.footprint)
    ensures ok ==> m.least == LeastAfter(old(m.segs), old(m.top), old(m.least), tbase)
    ensures ok ==> Took(old(Asking(m, sys)), Asking(m, sys), tbase, tsize)
    ensures !ok ==> mem == 0 && m.G() == old(m.G()) && m.v == old(m.v) && Asking(m, sys) == old(Asking(m, sys))
    ensures FreshRange(old(m.segs), tbase, tbase + tsize)
    ensures mem != 0 ==> mem - 8 == ServedAt(old(m.segs), old(m.top), tbase, tsize)
    ensures if ok then VictimPlaced(old(m.segs), tbase, tsize, nb, old(m.dv), old(m.dvsize), m.dv, m.dvsize)
            else m.dv == old(m.dv) && m.dvsize == old(m.dvsize)
  {
    hide TagsOk, SegsOk, BinsInv, Known, Match, FootprintOk, FreshRange, Spare, Allocated, SameLive, NoneAbove;
    hide Joins, KeptOk, Short, Suits, Astray, Prepends, VictimPlaced, ServedAt;
    SameTiles(m.G(), m.G());
    HighestNow(m);
    ObtainedFree(m, sys, tbase, tsize);
    SuitsNotAstray(m.segs, m.topsize, nb, tbase, tsize);
    if Astray(m.segs, nb, tbase, tsize) {
      return false, 0;
    }
    ok := true;
    mem := Place(m, tbase, tsize, nb, sys.brk, sys.room);
  }

  /** sys_alloc: 0 leaves every chunk callers hold as it was; otherwise the request is served. Not ok means that the
      source goes astray. */
  method SysAlloc(m: MState, sys: System, nb: nat) returns (ok: bool, mem: int)
    requires m.Valid() && sys.Free(m.segs) && (GoodSize(nb) || nb == MAX_SIZE_T) && m.topsize <= nb
    modifies m, sys
    ensures m.Valid() && sys.Free(m.segs) && m.guard == old(m.guard)
    ensures MayAsk(old(Asking(m, sys)), nb) && AskedBy(old(Asking(m, sys)), nb, Asking(m, sys))
    ensures ok <==> !GoesAstray(old(Asking(m, sys)), nb)
    ensures mem != 0 <==> Serves(old(Asking(m, sys)), nb)
    ensures !ok || Gives(old(Asking(m, sys)), nb).region.None? ==>
              mem == 0 && m.G() == old(m.G()) && m.segs == old(m.segs) && m.v == old(m.v)
    ensures nb != MAX_SIZE_T && Rounds(old(Asking(m, sys)), nb) ==>
              && mem != 0 && |m.segs| == 1 && m.segs[0].base == old(sys.brk)
              && SegEnd(m.segs[0]) % PAGE_SIZE == 0 && sys.brk == SegEnd(m.segs[0])
    ensures Served(old(m.G()), m.G(), nb, mem) && (mem != 0 ==> GoodSize(nb))
    ensures var r := Gives(old(Asking(m, sys)), nb).region;
            r.Some? ==> FreshRange(old(m.segs), r.value.base, SegEnd(r.value))
    ensures m.maxFootprint == Higher(old(m.maxFootprint), m.footprint)
    ensures FromSystem(old(Asking(m, sys)), nb, mem, old(m.dv), old(m.dvsize), m.dv, m.dvsize)
  {
    hide TagsOk, SegsOk, BinsInv, Known, Match, FootprintOk, Suits, FreshRange, Spare, GranularityAlign, Allocated;
    hide SameLive, NoneAbove, Joins, KeptOk, Gives, StaysContiguous, Short, Astray, GoesAstray, Serves, Took, AskedBy;
    hide Asking, Rounds, FromSystem, VictimPlaced, ServedAt;
    SameTiles(m.G(), m.G());
    HighestNow(m);
    ok, mem := true, 0;
    AskingIs(m, sys);
    var tbase, tsize := AskSystem(m, sys, nb);
    ghost var p := Asking(m, sys);
    AskingIs(m, sys);
    ReplyMeans(old(Asking(m, sys)), nb, tbase, tsize, p.sys);
    ghost var dv, dvsize := m.dv, m.dvsize;
    if tbase.Some? {
      ok, mem := TakeIn(m, sys, tbase.value, tsize, nb);
    }
    FromMeans(old(Asking(m, sys)), nb, tbase, tsize, p.sys, mem, dv, dvsize, m.dv, m.dvsize);
    AskingIs(m, sys);
    AskedMeans(old(Asking(m, sys)), p, nb, tbase, tsize, Asking(m, sys));
    FirstServed(old(Asking(m, sys)), nb, Asking(m, sys));
  }

  /** A heap with one segment and nothing in it but top. */
  method OneSegment(tbase: nat, tsize: nat) returns (m: MState)
    requires 0 < tbase && tbase + tsize <= TWO32 && tsize >= 64 && (tbase + tsize) % 4 == 0
    ensures fresh(m) && m.Valid() && LiveOf(m.G()) == {} && m.top != 0 && m.contiguous && m.footprintLimit == 0
    ensures m.segs == [Segment(tbase, tsize)] && m.topsize == tsize - TOP_FOOT_SIZE - AlignOffset(tbase)
  {
    hide TagsOk, SegsOk, BinsInv, Known, Match, FootprintOk, SameLive, KeptOk, LiveOf;
    m := new MState();
    ghost var g := m.G();
    Charge(m, tsize);
    InstallFirst(m, tbase, tsize);
    Nobody(g, m.G());
  }

  /** Such a heap: top has 2 GB, 2 GB and a page are asked for, and the system's memory does not continue top. */
  method ShortRegion() returns (m: MState, sys: System, tbase: Option<nat>, tsize: nat)
    ensures fresh(m) && m.Valid() && m.contiguous && m.top != 0 && m.topsize == 0x8000_1000 && LiveOf(m.G()) == {}
    ensures tbase.Some? && Obtained(m, sys, tbase.value, tsize)
    ensures var nb := 0x8000_2000;
            !Guarded(true, m.topsize, nb) && Short(m.segs, m.top, nb, tbase.value, tsize) && tsize == 0x2000
  {
    hide TagsOk, SegsOk, BinsInv, Known, Match, FootprintOk, GranularityAlign, ExtendSize, ExtraSize, SameLive, KeptOk;
    m := OneSegment(0x1000, 0x8000_1028);
    sys := new System(0x9000_0000, 0x10_0000);
    AtTwoGigabytes();
    tbase, tsize := MorecoreContiguous(m, sys, 0x8000_2000, 0x8000_3000);
  }

  lemma AtTwoGigabytes()
    ensures var nb, topsize := 0x8000_2000, 0x8000_1000;
            && ExtendSize(nb, topsize) == 0x2000 && !PadFits(nb, topsize)
            && GranularityAlign(nb + SYS_ALLOC_PADDING) == 0x8000_3000
  {
    assert GranularityAlign(0x1030) == 0x2000;
    assert GranularityAlign(0x8000_0030) == 0x8000_1000;
    assert GranularityAlign(0x8000_2030) == 0x8000_3000;
  }

  method AddRegion(m: MState, tbase: nat, tsize: nat)
    requires m.Valid() && m.top != 0 && Region(m.segs, tbase, tsize)
    modifies m
    ensures m.Valid() && SameLive(old(m.G()), m.G()) && m.segs == [Segment(tbase, tsize)] + old(m.segs)
    ensures m.top == First(Segment(tbase, tsize)) && m.topsize == tsize - TOP_FOOT_SIZE - AlignOffset(tbase)
    ensures m.contiguous == old(m.contiguous) && m.footprintLimit == old(m.footprintLimit)
  {
    hide TagsOk, SegsOk, BinsInv, Known, Match, FootprintOk, SameLive, KeptOk, Fenced, AlignOffset, Region;
    Charge(m, tsize);
    KeepLeast(m, tbase, tsize);
    ghost var fences, nfences := AddSegment(m, tbase, tsize);
  }

  method TwoSegments() returns (m: MState)
    ensures fresh(m) && m.Valid() && LiveOf(m.G()) == {} && m.top != 0 && m.contiguous && m.footprintLimit == 0
    ensures m.segs == [Segment(0x1000, 0x8000_1028), Segment(0x9000_2000, 0x1_0000)] && m.topsize == 0x8000_1000
  {
    hide TagsOk, SegsOk, BinsInv, Known, Match, FootprintOk, SameLive, KeptOk, LiveOf, AlignOffset, Region;
    Below();
    m := OneSegment(0x9000_2000, 0x1_0000);
    ghost var g := m.G();
    AddRegion(m, 0x1000, 0x8000_1028);
    Nobody(g, m.G());
  }

  lemma Nobody(g: Tags, g': Tags)
    requires SameLive(g, g')
    ensures g.tiles == map[] || LiveOf(g) == {} ==> LiveOf(g') == {}
  {}

  /** The lower region is nobody's, and its top begins right away. */
  lemma Below()
    ensures Region([Segment(0x9000_2000, 0x1_0000)], 0x1000, 0x8000_1028) && AlignOffset(0x1000) == 0
  {}

  /** Two segments, two pages apart from the break on: the region obtained ends where the second begins, and 2 GB
      would be carved out of it. */
  method AstrayRegion() returns (m: MState, sys: System, ok: bool, mem: int)
    ensures fresh(m) && m.Valid() && LiveOf(m.G()) == {}
    ensures m.segs == [Segment(0x1000, 0x8000_1028), Segment(0x9000_2000, 0x1_0000)] && m.topsize == 0x8000_1000
    ensures !ok && sys.Now() == Oracle(0x9000_2000, 0, [])
  {
    hide TagsOk, SegsOk, BinsInv, Known, Match, FootprintOk, GranularityAlign, ExtendSize, ExtraSize, SameLive, KeptOk;
    hide GoesAstray, Serves, Gives, NoneAbove, Joins, LiveOf, StaysContiguous;
    m := TwoSegments();
    sys := new System(0x9000_0000, 0x2000);
    AtTwoSegments(Asking(m, sys));
    ok, mem := SysAlloc(m, sys, 0x8000_2000);
  }

  lemma AtTwoSegments(p: Position)
    requires p.segs == [Segment(0x1000, 0x8000_1028), Segment(0x9000_2000, 0x1_0000)] && p.topsize == 0x8000_1000
    requires p.top != 0
    requires p.contiguous && p.footprintLimit == 0 && p.sys == Oracle(0x9000_0000, 0x2000, [])
    ensures GoesAstray(p, 0x8000_2000) && Gives(p, 0x8000_2000).sys == Oracle(0x9000_2000, 0, [])
    ensures Gives(p, 0x8000_2000).region == Some(Segment(0x9000_0000, 0x2000))
  {
    hide GranularityAlign, ExtendSize, ExtraSize;
    AtTwoGigabytes();
    assert p.segs[1].base == 0x9000_0000 + 0x2000;
  }

  /** An odd break does no harm where the region ends at a segment's base, which is odd as well. */
  method OddRegion() returns (m: MState, sys: System, ok: bool, mem: int)
    ensures fresh(m) && m.Valid() && ok && mem != 0
    ensures m.segs == [Segment(0x1_E001, 0x20ff)]
  {
    hide TagsOk, SegsOk, BinsInv, Known, Match, FootprintOk, GranularityAlign, ExtendSize, ExtraSize, SameLive, KeptOk;
    hide GoesAstray, Serves, Gives, Joins, LiveOf, StaysContiguous;
    m := OneSegment(0x2_0001, 0xff);
    sys := new System(0x1_E001, 0x2000);
    AtOddBreak(Asking(m, sys));
    ok, mem := SysAlloc(m, sys, 0x1000);
    JoinsBelow(m.segs);
  }

  lemma AtOddBreak(p: Position)
    requires p.segs == [Segment(0x2_0001, 0xff)] && p.topsize == 0xd0 && p.top != 0
    requires p.contiguous && p.footprintLimit == 0 && p.sys == Oracle(0x1_E001, 0x2000, [])
    ensures MayAsk(p, 0x1000) && Serves(p, 0x1000) && !GoesAstray(p, 0x1000)
    ensures Gives(p, 0x1000).region == Some(Segment(0x1_E001, 0x2000))
  {
    assert GranularityAlign(0x1030) == 0x2000;
    assert GranularityAlign(0xf60) == 0x1000;
    assert GranularityAlign(0x30) == 0x1000;
    hide GranularityAlign;
    assert p.segs[0].base == 0x1_E001 + 0x2000;
  }

  lemma JoinsBelow(segs: seq<Segment>)
    requires Joins([Segment(0x2_0001, 0xff)], segs, 0x1_E001, 0x2000)
    ensures segs == [Segment(0x1_E001, 0x20ff)]
  {
    assert [Segment(0x2_0001, 0xff)][0].base == 0x1_E001 + 0x2000;
  }

  lemma SuitsNotAstray(segs: seq<Segment>, topsize: nat, nb: nat, tbase: nat, tsize: nat)
    ensures Suits(segs, topsize, nb, tbase, tsize) ==> !Astray(segs, nb, tbase, tsize)
  {}

  lemma ObtainedFree(m: MState, sys: System, tbase: nat, tsize: nat)
    requires Obtained(m, sys, tbase, tsize)
    ensures sys.Free(m.segs) && sys.Free([Segment(tbase, tsize)] + m.segs) && FreshRange(m.segs, tbase, tbase + tsize)
  {
    var segs := [Segment(tbase, tsize)] + m.segs;
    assert forall i | 0 <= i < |m.segs| :: segs[i + 1] == m.segs[i];
  }
}
