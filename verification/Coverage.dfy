/** Each segment is tiled exactly, and what callers hold determines the rest of the tiling. */
module Coverage {
  import opened Words
  import opened Rings
  import opened Bins
  import opened Tiling
  import opened Segments
  import opened SegOps
  import opened SysOps
  import opened SysSegs
  import opened Coalesce
  import opened AllocOps

  /** From a to z lie chunks end to end, the last one top with its foot, or a segment record with its fenceposts. */
  ghost predicate Tiled(g: Tags, a: int, z: int)
    decreases z - a
  {
    if a == g.top && g.top != 0 then a + g.topsize + TOP_FOOT_SIZE == z
    else
      && a in g.tiles && g.tiles[a].size > 0 && End(g.tiles, a) < z
      && if a in g.recs then z < End(g.tiles, a) + TOP_FOOT_SIZE else Tiled(g, End(g.tiles, a), z)
  }

  /** The chunks met on the way from a to z. */
  ghost function Walk(g: Tags, a: int, z: int): set<int>
    requires Tiled(g, a, z)
    decreases z - a
  {
    if a == g.top && g.top != 0 then {}
    else if a in g.recs then {a}
    else {a} + Walk(g, End(g.tiles, a), z)
  }

  /** a is where a chunk or top begins. */
  predicate Boundary(g: Tags, a: int) { a in g.tiles || (a == g.top && g.top != 0) }

  predicate InSegment(segs: seq<Segment>, i: nat, a: int) { i < |segs| && segs[i].base <= a < SegEnd(segs[i]) }

  lemma ChunkEnd(segs: seq<Segment>, least: int, g: Tags, i: nat, a: int)
    requires TagsOk(g) && SegsOk(segs, least, g) && InSegment(segs, i, a) && a in g.tiles
    ensures End(g.tiles, a) < SegEnd(segs[i]) && g.tiles[a].size > 0 && InSegment(segs, i, End(g.tiles, a))
    ensures a in g.recs ==> SegEnd(segs[i]) < End(g.tiles, a) + TOP_FOOT_SIZE
    ensures a !in g.recs ==> Boundary(g, End(g.tiles, a))
    ensures a != g.top
  {
    hide Apart, HeadsOk, UsedNext, FreeNext, PrevFree, TopTag, SegShape, SegFirst, SegTop;
    assert a != g.top && g.tiles[a].size > 0;
    var j := InsideAt(segs, g.tiles, a);
    OneHolder(segs, least, j, a, End(g.tiles, a), a);
    if a in g.recs { assert NearEnd(segs, a, a + g.tiles[a].size); }
    TopNonzero(segs, least, g);
  }

  lemma TopNonzero(segs: seq<Segment>, least: int, g: Tags)
    requires SegsOk(segs, least, g)
    ensures segs != [] ==> g.top != 0
  {}

  lemma TopEnds(segs: seq<Segment>, least: int, g: Tags, i: nat)
    requires SegsOk(segs, least, g) && g.top != 0 && InSegment(segs, i, g.top)
    ensures i == 0 && g.top + g.topsize + TOP_FOOT_SIZE == SegEnd(segs[i])
  {
    OneTop(segs, least, g, i);
  }

  lemma {:induction false} TiledFrom(segs: seq<Segment>, least: int, g: Tags, i: nat, a: int)
    requires TagsOk(g) && SegsOk(segs, least, g) && InSegment(segs, i, a) && Boundary(g, a)
    ensures Tiled(g, a, SegEnd(segs[i]))
    decreases SegEnd(segs[i]) - a
  {
    hide TagsOk, SegsOk;
    TopNotTileOf(g);
    if a == g.top {
      TopEnds(segs, least, g, i);
    } else {
      ChunkEnd(segs, least, g, i, a);
      if a !in g.recs { TiledFrom(segs, least, g, i, End(g.tiles, a)); }
    }
  }

  /** Nothing of a segment lies beyond top or beyond a record. */
  lemma NothingBeyond(segs: seq<Segment>, least: int, g: Tags, i: nat, a: int, q: int)
    requires TagsOk(g) && SegsOk(segs, least, g) && InSegment(segs, i, a) && q in g.tiles && a < q
    requires (a == g.top && g.top != 0) || a in g.recs
    ensures SegEnd(segs[i]) <= q
  {
    hide Apart, HeadsOk, UsedNext, FreeNext, PrevFree, SegShape, SegFirst, SegInside;
    if a in g.recs { assert Parted(segs, a, q); } else { TopEnds(segs, least, g, i); }
  }

  lemma NextChunk(g: Tags, a: int, q: int)
    requires TagsOk(g) && a in g.tiles && q in g.tiles && a < q
    ensures End(g.tiles, a) <= q
  {}

  lemma {:induction false} OnWalk(segs: seq<Segment>, least: int, g: Tags, i: nat, a: int, q: int)
    requires TagsOk(g) && SegsOk(segs, least, g) && InSegment(segs, i, a) && Boundary(g, a)
    requires q in g.tiles && a <= q < SegEnd(segs[i]) && Tiled(g, a, SegEnd(segs[i]))
    ensures q in Walk(g, a, SegEnd(segs[i]))
    decreases q - a
  {
    hide TagsOk, SegsOk;
    if a in g.tiles { ChunkEnd(segs, least, g, i, a); }
    if a < q {
      if a == g.top || a in g.recs {
        NothingBeyond(segs, least, g, i, a, q);
      } else {
        NextChunk(g, a, q);
        OnWalk(segs, least, g, i, End(g.tiles, a), q);
      }
    } else {
      TopNotTileOf(g);
    }
  }

  /** Every segment is filled end to end by chunks, and it holds no others. */
  lemma ExactTiling(segs: seq<Segment>, least: int, g: Tags, i: nat)
    requires TagsOk(g) && SegsOk(segs, least, g) && i < |segs|
    ensures Tiled(g, First(segs[i]), SegEnd(segs[i]))
    ensures forall q | q in g.tiles && InSegment(segs, i, q) :: q in Walk(g, First(segs[i]), SegEnd(segs[i]))
  {
    hide TagsOk, SegsOk, Tiled, Walk;
    FirstBoundary(segs, least, g, i);
    TiledFrom(segs, least, g, i, First(segs[i]));
    forall q | q in g.tiles && InSegment(segs, i, q) ensures q in Walk(g, First(segs[i]), SegEnd(segs[i])) {
      FirstBelow(segs, least, g, i, q);
      OnWalk(segs, least, g, i, First(segs[i]), q);
    }
  }

  lemma FirstBoundary(segs: seq<Segment>, least: int, g: Tags, i: nat)
    requires TagsOk(g) && SegsOk(segs, least, g) && i < |segs|
    ensures Boundary(g, First(segs[i])) && InSegment(segs, i, First(segs[i]))
  {
    hide Apart, HeadsOk, UsedNext, FreeNext, PrevFree, SegInside;
    TopNonzero(segs, least, g);
    assert segs[i].size >= 8;
  }

  lemma FirstBelow(segs: seq<Segment>, least: int, g: Tags, i: nat, q: int)
    requires TagsOk(g) && q in g.tiles && InSegment(segs, i, q)
    ensures First(segs[i]) <= q
  {
    assert q % 8 == 0;
  }

  // ----- what is in use determines what is free

  /** The chunks in use and the records among them are the same. */
  ghost predicate SameUsed(g: Tags, g': Tags) {
    && g'.recs == g.recs
    && (forall p | p in g.tiles && g.tiles[p].used :: p in g'.tiles && g'.tiles[p] == g.tiles[p])
    && (forall p | p in g'.tiles && g'.tiles[p].used :: p in g.tiles && g.tiles[p] == g'.tiles[p])
  }

  /** A free chunk is followed by a chunk in use. */
  lemma FreeEnd(g: Tags, a: int)
    requires TagsOk(g) && a in g.tiles && !g.tiles[a].used
    ensures End(g.tiles, a) in g.tiles && g.tiles[End(g.tiles, a)].used && a !in g.recs && g.tiles[a].size > 0
  {
    hide Apart, TopApart, HeadsOk, UsedNext, PrevFree, TopTag;
  }

  /** A free chunk is not where the other tiling has top. */
  lemma FreeNotTop(segs: seq<Segment>, least: int, g: Tags, g': Tags, i: nat, a: int)
    requires TagsOk(g) && TagsOk(g') && SegsOk(segs, least, g) && SegsOk(segs, least, g') && SameUsed(g, g')
    requires InSegment(segs, i, a) && a in g.tiles && !g.tiles[a].used
    ensures a != g'.top
  {
    hide TagsOk, SegsOk;
    FreeEnd(g, a);
    ChunkEnd(segs, least, g, i, a);
    var e := End(g.tiles, a);
    TopNonzero(segs, least, g');
    if a == g'.top { NothingBeyond(segs, least, g', i, a, e); }
  }

  /** Where both tilings have a boundary they have the same chunk, or both have top. */
  lemma SameHere(segs: seq<Segment>, least: int, g: Tags, g': Tags, i: nat, a: int)
    requires TagsOk(g) && TagsOk(g') && SegsOk(segs, least, g) && SegsOk(segs, least, g') && SameUsed(g, g')
    requires InSegment(segs, i, a) && Boundary(g, a) && Boundary(g', a)
    ensures a in g.tiles ==> a in g'.tiles && g'.tiles[a] == g.tiles[a]
    ensures a == g.top <==> a == g'.top
  {
    hide TagsOk, SegsOk;
    TopNotTileOf(g);
    TopNotTileOf(g');
    if a in g.tiles && !g.tiles[a].used {
      FreeNotTop(segs, least, g, g', i, a);
      FreeEnd(g, a);
      FreeEnd(g', a);
      SameSize(g, g', a);
    } else if a in g'.tiles && !g'.tiles[a].used {
      FreeNotTop(segs, least, g', g, i, a);
    }
  }

  lemma SameSize(g: Tags, g': Tags, a: int)
    requires TagsOk(g) && TagsOk(g') && a in g.tiles && a in g'.tiles
    requires End(g.tiles, a) in g'.tiles && End(g'.tiles, a) in g.tiles && g.tiles[a].size > 0 && g'.tiles[a].size > 0
    ensures g.tiles[a].size == g'.tiles[a].size
  {
    NextChunk(g, a, End(g'.tiles, a));
    NextChunk(g', a, End(g.tiles, a));
  }

  lemma {:induction false} SameWalk(segs: seq<Segment>, least: int, g: Tags, g': Tags, i: nat, a: int, q: int)
    requires TagsOk(g) && TagsOk(g') && SegsOk(segs, least, g) && SegsOk(segs, least, g') && SameUsed(g, g')
    requires InSegment(segs, i, a) && Boundary(g, a) && Boundary(g', a)
    requires a <= q < SegEnd(segs[i]) && Boundary(g, q)
    ensures Boundary(g', q)
    decreases q - a
  {
    hide TagsOk, SegsOk, SameUsed;
    if a < q {
      SameHere(segs, least, g, g', i, a);
      BeyondBoundary(segs, least, g, i, a, q);
      ChunkEnd(segs, least, g, i, a);
      assert a !in g'.recs by { SameRecs(g, g'); }
      ChunkEnd(segs, least, g', i, a);
      SameWalk(segs, least, g, g', i, End(g.tiles, a), q);
    }
  }

  lemma SameRecs(g: Tags, g': Tags)
    requires SameUsed(g, g')
    ensures g'.recs == g.recs
  {}

  lemma BeyondBoundary(segs: seq<Segment>, least: int, g: Tags, i: nat, a: int, q: int)
    requires TagsOk(g) && SegsOk(segs, least, g) && InSegment(segs, i, a) && Boundary(g, a) && Boundary(g, q)
    requires a < q < SegEnd(segs[i])
    ensures a in g.tiles && a !in g.recs && End(g.tiles, a) <= q
  {
    hide HeadsOk, UsedNext, FreeNext, PrevFree, SegsOk;
    if q in g.tiles {
      if a in g.recs || a !in g.tiles { NothingBeyond(segs, least, g, i, a, q); }
    } else if a in g.recs {
      RecordParts(segs, least, g, a, q);
    }
  }

  lemma RecordParts(segs: seq<Segment>, least: int, g: Tags, a: int, q: int)
    requires SegsOk(segs, least, g) && a in g.recs && (q in g.tiles || q == g.top) && a < q
    ensures Parted(segs, a, q)
  {}

  /** Two heaps over the same segments with the same chunks in use are the same: the free extents are determined. */
  lemma TilingDetermined(segs: seq<Segment>, least: int, g: Tags, g': Tags)
    requires TagsOk(g) && TagsOk(g') && SegsOk(segs, least, g) && SegsOk(segs, least, g') && SameUsed(g, g')
    ensures g'.tiles == g.tiles && g'.top == g.top && g'.topsize == g.topsize
  {
    hide TagsOk, SegsOk, SameUsed;
    SameUsedBack(g, g');
    forall q | q in g.tiles ensures q in g'.tiles && g'.tiles[q] == g.tiles[q] { SameChunk(segs, least, g, g', q); }
    forall q | q in g'.tiles ensures q in g.tiles && g.tiles[q] == g'.tiles[q] { SameChunk(segs, least, g', g, q); }
    SameTop(segs, least, g, g');
  }

  lemma SameUsedBack(g: Tags, g': Tags)
    requires SameUsed(g, g')
    ensures SameUsed(g', g)
  {}

  lemma SameChunk(segs: seq<Segment>, least: int, g: Tags, g': Tags, q: int)
    requires TagsOk(g) && TagsOk(g') && SegsOk(segs, least, g) && SegsOk(segs, least, g') && SameUsed(g, g')
    requires q in g.tiles
    ensures q in g'.tiles && g'.tiles[q] == g.tiles[q]
  {
    hide TagsOk, SegsOk, SameUsed;
    assert SegInside(segs, g.tiles) by { ChunksInside(segs, least, g); }
    var i := InsideAt(segs, g.tiles, q);
    FirstBoundary(segs, least, g, i);
    FirstBoundary(segs, least, g', i);
    assert InSegment(segs, i, q) by { PositiveSize(g, q); }
    FirstBelow(segs, least, g, i, q);
    SameWalk(segs, least, g, g', i, First(segs[i]), q);
    SameHere(segs, least, g, g', i, q);
  }

  lemma ChunksInside(segs: seq<Segment>, least: int, g: Tags)
    requires SegsOk(segs, least, g)
    ensures SegInside(segs, g.tiles)
  {}

  lemma PositiveSize(g: Tags, q: int)
    requires TagsOk(g) && q in g.tiles
    ensures g.tiles[q].size > 0
  {}

  lemma SameTop(segs: seq<Segment>, least: int, g: Tags, g': Tags)
    requires TagsOk(g) && TagsOk(g') && SegsOk(segs, least, g) && SegsOk(segs, least, g') && SameUsed(g, g')
    ensures g'.top == g.top && g'.topsize == g.topsize
  {
    hide TagsOk, SameUsed;
    if g.top != 0 {
      FirstBoundary(segs, least, g, 0);
      FirstBoundary(segs, least, g', 0);
      TopAboveFirst(segs, g);
      SameWalk(segs, least, g, g', 0, First(segs[0]), g.top);
      SameHere(segs, least, g, g', 0, g.top);
    } else {
      NoTopNoSize(g);
      NoTopNoSize(g');
    }
  }

  lemma TopAboveFirst(segs: seq<Segment>, g: Tags)
    requires TagsOk(g) && g.top != 0 && SegTop(segs, g.top, g.topsize)
    ensures segs != [] && First(segs[0]) <= g.top < SegEnd(segs[0])
  {
    hide Shapes, Apart, TopApart, Followed, HeadsOk, UsedNext, FreeNext, PrevFree;
  }

  lemma NoTopNoSize(g: Tags)
    requires TagsOk(g) && g.top == 0
    ensures g.topsize == 0
  {
    hide Shapes, Apart, TopApart, Followed, HeadsOk, UsedNext, FreeNext, PrevFree;
  }
}
