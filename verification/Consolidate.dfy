/** insert_chunk, unlink_chunk and dispose_chunk. */
module Consolidate {
  import opened Words
  import opened Rings
  import opened Tries
  import opened Bins
  import opened Tiling
  import opened Segments
  import opened Coalesce
  import opened State
  import opened Keeping
  import SmallBins
  import TreeInsert
  import TreeRemove

  // ----- between the bins and the tiling

  /** The free chunks a merge takes out of the bins. */
  function Loose(g: Tags, p: int, dv: int): set<int>
    requires p in g.tiles
  {
    set q | q in RunOf(g, p) && q in g.tiles && !g.tiles[q].used && q != dv
  }

  lemma FreedBinMatch(g: Tags, p: int, sz: Sizes, dv: int, dvsize: nat)
    requires TagsOk(g) && Held(g, p) && Match(sz, g.tiles, dv, dvsize, Loose(g, p, dv)) && Fwd(g, p) != g.top
    ensures Back(g, p) < Fwd(g, p)
    ensures var b, e, r := Back(g, p), Fwd(g, p), RunOf(g, p);
            var c := FreedBin(g, b, e, r).tiles;
            if dv in r then Match(sz, c, b, e - b, {}) else Match(sz, c, dv, dvsize, {b})
  {
    hide TagsOk, Back, Fwd;
    RunOfOk(g, p);
    RunBounds(g, Back(g, p), Fwd(g, p), RunOf(g, p));
    RunTiles(g, p);
  }

  lemma RunTiles(g: Tags, p: int)
    requires TagsOk(g) && Held(g, p)
    ensures forall q | q in RunOf(g, p) :: q in g.tiles && q > 0
    ensures Back(g, p) in RunOf(g, p)
  {
    hide TagsOk, RunLinks, RunOf, Back, Fwd;
    RunOfOk(g, p);
    ShapesOf(g);
  }

  lemma FreedTopMatch(g: Tags, p: int, sz: Sizes, dv: int, dvsize: nat)
    requires TagsOk(g) && Held(g, p) && Match(sz, g.tiles, dv, dvsize, Loose(g, p, dv)) && Fwd(g, p) == g.top
    ensures var r := RunOf(g, p);
            if dv in r then Match(sz, g.tiles - r, 0, 0, {}) else Match(sz, g.tiles - r, dv, dvsize, {})
  {
    hide TagsOk, Back, Fwd;
    RunTiles(g, p);
    ShapesOf(g);
  }

  lemma FreedKnown(g: Tags, p: int, sz: Sizes, dv: int, dvsize: nat, h: Heads, least: int)
    requires TagsOk(g) && Held(g, p) && Match(sz, g.tiles, dv, dvsize, Loose(g, p, dv)) && Known(sz, g.head, least)
    requires forall a | a != Back(g, p) && (a != Fwd(g, p) || Fwd(g, p) == g.top) :: HeadAt(h, a) == HeadAt(g.head, a)
    ensures Known(sz, h, least)
  {
    hide TagsOk, Back, Fwd, FreeAfter;
    RunTiles(g, p);
    RunOfOk(g, p);
    forall a | a in sz ensures a != Back(g, p) && (a != Fwd(g, p) || Fwd(g, p) == g.top) {}
  }

  // ----- what callers keep

  /** Of a run only the chunk being freed is in use. */
  lemma RunUsed(g: Tags, p: int)
    requires TagsOk(g) && Held(g, p)
    ensures forall q | q in RunOf(g, p) :: q in g.tiles && (q == p || !g.tiles[q].used)
    ensures Back(g, p) in RunOf(g, p) && p in RunOf(g, p)
  {
    BackFacts(g, p);
    hide TagsOk, Back, Fwd;
  }

  /** Work on the bins touches free chunks only. */
  lemma BinsKept(k: Guard, c: Cells, g: Tags, m: BinMem, m': BinMem, sz: Sizes, dv: int, dvsize: nat, x: set<int>)
    requires KeptOk(k, c, g) && TagsOk(g) && Match(sz, g.tiles, dv, dvsize, x) && LinksIn(m, m', sz)
    requires c == WithLinks(c, m)
    ensures KeptOk(k, WithLinks(c, m'), g)
  {
    ShapesOf(g);
    assert Apart(g.tiles);
    hide TagsOk, KeptOk, LinksIn;
    LinksKept(k, c, g, m, m', sz);
  }

  lemma FreedStays(k: Guard, c: Cells, g: Tags, p0: int, g': Tags)
    requires KeptOk(k, c, g) && TagsOk(g) && Held(g, p0) && Freed(g, p0, g') && p0 !in k.kept
    ensures RecordsOk(g') && forall q | q in k.kept :: Held(g', q) && k.kept[q] <= g'.tiles[q].size
  {
    RunUsed(g, p0);
    RunOfOk(g, p0);
    hide TagsOk, Back, Fwd, RunOf, SameIn;
    forall q | q in k.kept ensures Held(g', q) && k.kept[q] <= g'.tiles[q].size { assert KeptOne(k, c, g, q); }
  }

  lemma FreedPlaces(g: Tags, p0: int, g': Tags)
    requires TagsOk(g) && Held(g, p0) && Freed(g, p0, g')
    ensures var b, e := Back(g, p0), Fwd(g, p0);
            && HeadPlace(g, b) && (e != g.top ==> HeadPlace(g, e) && FootPlace(g', e))
            && TagsIn(g, g', if e == g.top then iset{b} else iset{b, e}, if e == g.top then {} else {e})
  {
    RunTiles(g, p0);
    RunOfOk(g, p0);
    var b, e := Back(g, p0), Fwd(g, p0);
    hide TagsOk, Back, Fwd, RunOf, RunLinks;
    assert e != g.top ==> b in g'.tiles && !g'.tiles[b].used && End(g'.tiles, b) == e;
  }

  /** Freeing p0 touches the chunk that becomes free, and what tells its neighbours. */
  lemma FreedKept(k: Guard, c: Cells, g: Tags, p0: int, g': Tags)
    requires KeptOk(k, c, g) && c == WithTags(c, g) && TagsOk(g) && TagsOk(g') && Held(g, p0) && Freed(g, p0, g')
    requires p0 !in k.kept
    ensures KeptOk(k, WithTags(c, g'), g')
  {
    hide TagsOk, Back, Fwd, Freed, KeptOk, TagsIn, HeadPlace, FootPlace, Shapes, Apart, TopApart, RecordsOk;
    FreedStays(k, c, g, p0, g');
    FreedPlaces(g, p0, g');
    ShapesAll(g);
    ShapesAll(g');
    var b, e := Back(g, p0), Fwd(g, p0);
    if e == g.top { TagsKept(k, c, g, g', iset{b}, {}); } else { TagsKept(k, c, g, g', iset{b, e}, {e}); }
  }

  lemma ShapesAll(g: Tags)
    requires TagsOk(g)
    ensures Shapes(g.tiles) && Apart(g.tiles) && TopApart(g.tiles, g.top, g.topsize)
  {}

  // ----- relays to the bins

  /** unlink_chunk */
  method UnlinkChunk(m: MState, p: int, s: nat, ghost x: set<int>)
    requires m.Pending(x) && p in m.tiles && !m.tiles[p].used && p != m.dv && p !in x && s == m.tiles[p].size
    modifies m`smallmap, m`treemap, m`treebins, m`fd, m`bk, m`child, m`parent, m`v
    ensures m.Pending(x + {p})
  {
    hide BinsInv, TagsOk, SegsOk, FootprintOk, Known, RunOf, KeptOk, LinksIn;
    ghost var mem, sz := m.Mem(), m.v.sz;
    assert m.v.sz[p] == s;
    if s < MIN_LARGE_SIZE {
      SmallBins.UnlinkSmallChunk(m, p, s);
    } else {
      TreeRemove.UnlinkLargeChunk(m, p);
    }
    BinsKept(m.guard, old(m.Words()), m.G(), mem, m.Mem(), sz, m.dv, m.dvsize, x);
  }

  /** insert_chunk */
  method InsertChunk(m: MState, p: int, s: nat)
    requires m.Pending({p}) && p in m.tiles && !m.tiles[p].used && p != m.dv && s == m.tiles[p].size
    modifies m`smallmap, m`treemap, m`treebins, m`fd, m`bk, m`child, m`parent, m`index, m`v
    ensures m.Valid()
  {
    hide BinsInv, TagsOk, SegsOk, FootprintOk, Known, Match, KeptOk, LinksIn;
    ghost var mem := m.Mem();
    ChunkFacts(m.segs, m.least, m.G(), p);
    BinnedMatch(m.v.sz, m.tiles, m.dv, m.dvsize, p, s);
    if s < MIN_LARGE_SIZE {
      SmallBins.InsertSmallChunk(m, p, s);
    } else {
      TreeInsert.InsertLargeChunk(m, p, s);
      AddedSizes(old(m.v), m.v, p, s);
    }
    BinsKept(m.guard, old(m.Words()), m.G(), mem, m.Mem(), m.v.sz, m.dv, m.dvsize, {});
  }

  lemma BinnedMatch(sz: Sizes, c: Tiles, dv: int, dvsize: nat, p: int, s: nat)
    requires Match(sz, c, dv, dvsize, {p}) && p in c && !c[p].used && p != dv && s == c[p].size
    ensures p !in sz && Match(sz[p := s], c, dv, dvsize, {})
  {}

  lemma AddedSizes(v: BinView, v': BinView, x: int, s: nat)
    requires TreeInsert.LargeAdded(v, v', x, s)
    ensures v'.sz == v.sz[x := s]
  {}

  lemma ChunkFacts(segs: seq<Segment>, least: int, g: Tags, p: int)
    requires TagsOk(g) && SegsOk(segs, least, g) && p in g.tiles
    ensures p >= least && p > 0 && GoodSize(g.tiles[p].size) && HeadAt(g.head, p).size == g.tiles[p].size
    ensures HeadAt(g.head, p).cinuse == g.tiles[p].used
    ensures ChunkSize(g.head, p) == g.tiles[p].size
  {
    hide Apart, TopApart, Followed, UsedNext, FreeNext, PrevFree, TopTag;
    assert Inside(segs, p, p + g.tiles[p].size);
  }

  // ----- writing the tags of the merged chunk

  /** set_size_and_pinuse_of_free_chunk, after clear_pinuse(e) when the chunk at e was not yet told. */
  method CommitFree(m: MState, ghost p0: int, b: int, e: int, s: nat, clear: bool)
    requires TagsOk(m.G()) && SegsOk(m.segs, m.least, m.G()) && Held(m.G(), p0)
    requires b == Back(m.G(), p0) && e == Fwd(m.G(), p0) && e != m.top && s == e - b
    requires clear == !FreeAfter(m.tiles, p0) && KeptOk(m.guard, m.Words(), m.G()) && p0 !in m.guard.kept
    modifies m`head, m`foot, m`tiles
    ensures KeptOk(m.guard, m.Words(), m.G())
    ensures b < e && m.G() == FreedBin(old(m.G()), b, e, RunOf(old(m.G()), p0)) && Freed(old(m.G()), p0, m.G())
    ensures TagsOk(m.G()) && SegsOk(m.segs, m.least, m.G())
    ensures forall a | a != b && a != e :: HeadAt(m.head, a) == HeadAt(old(m.head), a)
  {
    hide TagsOk, SegsOk, Run, Back, Fwd, RunOf, KeptOk;
    ghost var g := m.G();
    FreeRun(m.segs, m.least, g, p0);
    EndHead(g, p0);
    if clear {
      m.head := m.head[e := HeadAt(m.head, e).(pinuse := false)];
    }
    m.head := m.head[b := Head(s, false, true)];
    m.foot := m.foot[e := s];
    m.tiles := MergeTiles(m.tiles, b, e, RunOf(g, p0), false);
    assert m.head == FreedBin(g, b, e, RunOf(g, p0)).head;
    FreedKept(m.guard, old(m.Words()), g, p0, m.G());
  }

  lemma EndHead(g: Tags, p: int)
    requires TagsOk(g) && Held(g, p) && Fwd(g, p) != g.top
    ensures FreeAfter(g.tiles, p) ==> Fwd(g, p) in g.head && !HeadAt(g.head, Fwd(g, p)).pinuse
  {
    AfterFacts(g, p);
    RunOfOk(g, p);
    HeadIn(g, Fwd(g, p));
  }

  /** The merged chunk joins top. */
  method CommitTop(m: MState, ghost p0: int, b: int, s: nat)
    requires TagsOk(m.G()) && SegsOk(m.segs, m.least, m.G()) && Held(m.G(), p0)
    requires b == Back(m.G(), p0) && Fwd(m.G(), p0) == m.top && s == m.top - b
    requires KeptOk(m.guard, m.Words(), m.G()) && p0 !in m.guard.kept
    modifies m`head, m`top, m`topsize, m`tiles
    ensures KeptOk(m.guard, m.Words(), m.G())
    ensures b < old(m.top) && m.tiles == old(m.tiles) - RunOf(old(m.G()), p0) && Freed(old(m.G()), p0, m.G())
    ensures TagsOk(m.G()) && SegsOk(m.segs, m.least, m.G())
    ensures forall a | a != b :: HeadAt(m.head, a) == HeadAt(old(m.head), a)
  {
    hide TagsOk, SegsOk, Run, Back, Fwd, RunOf, KeptOk;
    ghost var g := m.G();
    FreeRunTop(m.segs, m.least, g, p0);
    m.topsize := m.topsize + s;
    m.top := b;
    m.head := m.head[b := Head(m.topsize, false, true)];
    m.tiles := m.tiles - RunOf(g, p0);
    FreedKept(m.guard, old(m.Words()), g, p0, m.G());
  }

  // ----- dispose_chunk

  /** What freeing a held chunk makes of the tiling: see Coalesce. */
  ghost predicate Freed(g: Tags, p: int, g': Tags)
    requires p in g.tiles
  {
    if Fwd(g, p) == g.top then Back(g, p) <= g.top && g' == FreedTop(g, Back(g, p), RunOf(g, p))
    else Back(g, p) <= Fwd(g, p) && g' == FreedBin(g, Back(g, p), Fwd(g, p), RunOf(g, p))
  }

  /** The victim after p is freed: the chunk it has become part of, and none if that is top. */
  ghost predicate VictimFreed(g: Tags, p: int, dv: int, dvsize: nat, dv': int, dvsize': nat)
    requires p in g.tiles
  {
    if dv !in RunOf(g, p) then dv' == dv && dvsize' == dvsize
    else if Fwd(g, p) == g.top then dv' == 0 && dvsize' == 0
    else dv' == Back(g, p) && dv' + dvsize' == Fwd(g, p)
  }

  /** What dispose_chunk reads in the tags around p. */
  lemma Around(segs: seq<Segment>, least: int, g: Tags, p: int)
    requires TagsOk(g) && SegsOk(segs, least, g) && Held(g, p)
    ensures var n := End(g.tiles, p);
            && n >= least && n > 0 && HeadAt(g.head, n).pinuse
            && (n == g.top ==> Fwd(g, p) == g.top && !HeadAt(g.head, n).cinuse && !FreeAfter(g.tiles, p))
            && (n != g.top ==> n in g.tiles && Fwd(g, p) != g.top)
            && (n != g.top ==> HeadAt(g.head, n).cinuse == g.tiles[n].used && ChunkSize(g.head, n) == g.tiles[n].size)
            && (n != g.top ==> (FreeAfter(g.tiles, p) <==> !g.tiles[n].used))
    ensures var b := Back(g, p);
            && b in g.tiles && b >= least && p > 0 && (b != p ==> !g.tiles[b].used && g.tiles[b].size == At(g.foot, p))
            && (b != p <==> !HeadAt(g.head, p).pinuse)
  {
    hide SegsOk;
    AfterFacts(g, p);
    BackFacts(g, p);
    var n := End(g.tiles, p);
    ChunkFacts(segs, least, g, p);
    ChunkFacts(segs, least, g, Back(g, p));
    if n == g.top { TopTagOf(segs, least, g, p); } else {
      ChunkFacts(segs, least, g, n);
      TopNotTileOf(g);
    }
  }

  lemma TopTagOf(segs: seq<Segment>, least: int, g: Tags, p: int)
    requires TagsOk(g) && SegsOk(segs, least, g) && p in g.tiles
    ensures !HeadAt(g.head, g.top).cinuse && g.top >= least && g.top > 0
  {
    hide Apart, TopApart, Followed, UsedNext, FreeNext, PrevFree, HeadsOk;
  }

  /** Another victim, or none. */
  method NameDv(m: MState, p: int, s: nat)
    requires m.BinsOk() && TagsOk(m.G()) && SegsOk(m.segs, m.least, m.G()) && Match(m.v.sz, m.tiles, p, s, {})
    requires FootprintOk(m.segs, m.footprint, m.maxFootprint) && KeptOk(m.guard, m.Words(), m.G())
    modifies m`dv, m`dvsize
    ensures m.Valid() && m.dv == p && m.dvsize == s
  {
    hide BinsInv, TagsOk, SegsOk, FootprintOk, Known, Match, KeptOk;
    m.dvsize := s;
    m.dv := p;
  }

  /** The last step when the chunk reaches top. */
  method FinishTop(m: MState, ghost p0: int, b: int, s: nat)
    requires Held(m.G(), p0) && p0 !in m.guard.kept && m.Pending(Loose(m.G(), p0, m.dv))
    requires b == Back(m.G(), p0) && Fwd(m.G(), p0) == m.top && s == m.top - b
    requires m.dv in RunOf(m.G(), p0) ==> m.dv == b
    modifies m`head, m`top, m`topsize, m`tiles, m`dv, m`dvsize
    ensures m.Valid() && Freed(old(m.G()), p0, m.G())
    ensures VictimFreed(old(m.G()), p0, old(m.dv), old(m.dvsize), m.dv, m.dvsize)
  {
    hide BinsInv, TagsOk, SegsOk, FootprintOk, Known, Back, Fwd, RunOf, Match, Loose, KeptOk, Freed;
    ghost var g := m.G();
    FreedTopMatch(g, p0, m.v.sz, m.dv, m.dvsize);
    RunTiles(g, p0);
    CommitTop(m, p0, b, s);
    FreedKnown(g, p0, m.v.sz, m.dv, m.dvsize, m.head, m.least);
    if b == m.dv {
      NameDv(m, 0, 0);
    }
  }

  /** The last step when the designated victim takes part: the merged chunk is the new victim. */
  method FinishDv(m: MState, ghost p0: int, b: int, e: int, s: nat, clear: bool)
    requires Held(m.G(), p0) && p0 !in m.guard.kept && m.Pending(Loose(m.G(), p0, m.dv)) && m.dv in RunOf(m.G(), p0)
    requires b == Back(m.G(), p0) && e == Fwd(m.G(), p0) && e != m.top && s == e - b
    requires clear == !FreeAfter(m.tiles, p0)
    modifies m`head, m`foot, m`tiles, m`dv, m`dvsize
    ensures m.Valid() && Freed(old(m.G()), p0, m.G())
    ensures VictimFreed(old(m.G()), p0, old(m.dv), old(m.dvsize), m.dv, m.dvsize)
  {
    hide BinsInv, TagsOk, SegsOk, FootprintOk, Known, Back, Fwd, RunOf, Match, Loose, FreeAfter, KeptOk, Freed;
    ghost var g := m.G();
    FreedBinMatch(g, p0, m.v.sz, m.dv, m.dvsize);
    CommitFree(m, p0, b, e, s, clear);
    FreedKnown(g, p0, m.v.sz, m.dv, m.dvsize, m.head, m.least);
    NameDv(m, b, s);
  }

  /** The last step otherwise: the merged chunk goes into its bin. */
  method FinishBin(m: MState, ghost p0: int, b: int, e: int, s: nat, clear: bool)
    requires Held(m.G(), p0) && p0 !in m.guard.kept && m.Pending(Loose(m.G(), p0, m.dv)) && m.dv !in RunOf(m.G(), p0)
    requires b == Back(m.G(), p0) && e == Fwd(m.G(), p0) && e != m.top && s == e - b
    requires clear == !FreeAfter(m.tiles, p0)
    modifies m`smallmap, m`treemap, m`treebins, m`fd, m`bk, m`child, m`parent, m`index, m`v
    modifies m`head, m`foot, m`tiles
    ensures m.Valid() && Freed(old(m.G()), p0, m.G())
    ensures VictimFreed(old(m.G()), p0, old(m.dv), old(m.dvsize), m.dv, m.dvsize)
  {
    hide BinsInv, TagsOk, SegsOk, FootprintOk, Known, Back, Fwd, RunOf, Match, Loose, FreeAfter, KeptOk, Freed;
    hide VictimFreed;
    ghost var g := m.G();
    FreedBinMatch(g, p0, m.v.sz, m.dv, m.dvsize);
    RunTiles(g, p0);
    CommitFree(m, p0, b, e, s, clear);
    FreedKnown(g, p0, m.v.sz, m.dv, m.dvsize, m.head, m.least);
    VictimApart(g, p0, m.dv, m.dvsize);
    InsertChunk(m, b, s);
  }

  lemma VictimApart(g: Tags, p: int, dv: int, dvsize: nat)
    requires p in g.tiles && dv !in RunOf(g, p)
    ensures VictimFreed(g, p, dv, dvsize, dv, dvsize)
  {}

  lemma LooseIs(g: Tags, p: int, dv: int, dvsize: nat)
    requires TagsOk(g) && Held(g, p) && DvOk(g.tiles, dv, dvsize)
    ensures var b, n := Back(g, p), End(g.tiles, p);
            && Loose(g, p, dv) == (if b != p && b != dv then {b} else {})
                + (if FreeAfter(g.tiles, p) && n != dv then {n} else {})
            && (dv in RunOf(g, p) <==> (b != p && dv == b) || (FreeAfter(g.tiles, p) && n == dv))
            && (b != p && FreeAfter(g.tiles, p) ==> b != n)
  {
    RunTiles(g, p);
    BackFacts(g, p);
    hide TagsOk, Back;
  }

  /** dispose_chunk: consolidate and bin a chunk that is still tagged in use. */
  method DisposeChunk(m: MState, p0: int, s0: nat)
    requires m.Valid() && Held(m.G(), p0) && p0 !in m.guard.kept && s0 == m.tiles[p0].size
    modifies m`smallmap, m`treemap, m`treebins, m`fd, m`bk, m`child, m`parent, m`index, m`v
    modifies m`head, m`foot, m`tiles, m`top, m`topsize, m`dv, m`dvsize
    ensures m.Valid() && Freed(old(m.G()), p0, m.G())
    ensures VictimFreed(old(m.G()), p0, old(m.dv), old(m.dvsize), m.dv, m.dvsize)
  {
    hide BinsInv, TagsOk, SegsOk, FootprintOk, Known, Match, RunOf, Loose, FreeAfter, KeptOk, VictimFreed;
    ghost var g := m.G();
    Around(m.segs, m.least, g, p0);
    DvOf(m.v.sz, m.tiles, m.dv, m.dvsize, {});
    LooseIs(g, p0, m.dv, m.dvsize);
    var p, psize := p0, s0;
    var next := p + psize;
    ghost var x := {};
    if !HeadAt(m.head, p).pinuse {
      var prevsize := At(m.foot, p);
      var prev := p - prevsize;
      psize := psize + prevsize;
      p := prev;
      if prev >= m.least {
        if p != m.dv {
          UnlinkChunk(m, p, prevsize, x);
          assert x + {p} == {p};
          x := {p};
        } else if HeadAt(m.head, next).cinuse && HeadAt(m.head, next).pinuse {
          assert Loose(g, p0, m.dv) == {};
          FinishDv(m, p0, p, next, psize, true);
          return;
        }
      } else {
        assert false;
      }
    }
    assert p == Back(g, p0) && psize == next - p;
    ForwardFrom(m, p0, p, psize, next, x);
  }

  lemma DvOf(sz: Sizes, c: Tiles, dv: int, dvsize: nat, x: set<int>)
    requires Match(sz, c, dv, dvsize, x)
    ensures DvOk(c, dv, dvsize)
  {}

  /** The second half of dispose_chunk: consolidate forward. */
  method ForwardFrom(m: MState, ghost p0: int, p: int, psize0: nat, next: int, ghost x: set<int>)
    requires Held(m.G(), p0) && p0 !in m.guard.kept && m.Pending(x) && p == Back(m.G(), p0) && next == End(m.tiles, p0)
    requires psize0 == next - p
    requires x == if p != p0 && p != m.dv then {p} else {}
    requires p != p0 && p == m.dv ==> next == m.top || !m.tiles[next].used
    modifies m`smallmap, m`treemap, m`treebins, m`fd, m`bk, m`child, m`parent, m`index, m`v
    modifies m`head, m`foot, m`tiles, m`top, m`topsize, m`dv, m`dvsize
    ensures m.Valid() && Freed(old(m.G()), p0, m.G())
    ensures VictimFreed(old(m.G()), p0, old(m.dv), old(m.dvsize), m.dv, m.dvsize)
  {
    hide BinsInv, TagsOk, SegsOk, FootprintOk, Known, Match, RunOf, Loose, FreeAfter, Back, KeptOk, VictimFreed;
    ghost var g := m.G();
    Around(m.segs, m.least, g, p0);
    DvOf(m.v.sz, m.tiles, m.dv, m.dvsize, x);
    LooseIs(g, p0, m.dv, m.dvsize);
    var psize := psize0;
    if next >= m.least {
      if !HeadAt(m.head, next).cinuse {
        if next == m.top {
          assert x == Loose(g, p0, m.dv);
          FinishTop(m, p0, p, psize);
        } else if next == m.dv {
          psize := psize + m.dvsize;
          assert x == Loose(g, p0, m.dv);
          assert m.dvsize == m.tiles[next].size;
          FinishDv(m, p0, p, next + m.dvsize, psize, false);
        } else {
          var nsize := ChunkSize(m.head, next);
          psize := psize + nsize;
          UnlinkChunk(m, next, nsize, x);
          assert x + {next} == Loose(g, p0, m.dv);
          if p == m.dv {
            FinishDv(m, p0, p, next + nsize, psize, false);
          } else {
            FinishBin(m, p0, p, next + nsize, psize, false);
          }
        }
      } else {
        assert x == Loose(g, p0, m.dv);
        FinishBin(m, p0, p, next, psize, true);
      }
    } else {
      assert false;
    }
  }
}
