/** When a chunk can be resized where it is: the test the source makes, and what it means. */
module GrowRoom {
  import opened Words
  import opened Tiling
  import opened Segments
  import opened SegOps
  import opened SysOps
  import opened Coalesce
  import opened Morecore

  /** p is large enough, or what follows it is free and is. */
  ghost predicate CanResize(g: Tags, p: int, nb: nat)
    requires p in g.tiles
  {
    || g.tiles[p].size >= nb
    || (End(g.tiles, p) == g.top && g.tiles[p].size + g.topsize > nb)
    || (FreeAfter(g.tiles, p) && g.tiles[p].size + g.tiles[End(g.tiles, p)].size >= nb)
  }

  /** Both addresses lie in one segment. */
  ghost predicate Together(segs: seq<Segment>, a: int, b: int) {
    exists i | 0 <= i < |segs| :: SegmentHolds(segs[i], a) && SegmentHolds(segs[i], b)
  }

  /** In p's segment no chunk in use stands in the way of nb bytes from p on, and top, if it lies there, is not used
      up. */
  ghost predicate HasRoom(segs: seq<Segment>, g: Tags, p: int, nb: nat) {
    && (forall q | q in g.tiles && g.tiles[q].used && p < q && Together(segs, p, q) :: p + nb <= q)
    && (g.top != 0 && Together(segs, p, g.top) ==> p + nb < g.top + g.topsize)
  }

  /** The test of the source, which looks at one neighbour only, is exact. */
  lemma ResizeExact(segs: seq<Segment>, least: int, g: Tags, p: int, nb: nat)
    requires TagsOk(g) && SegsOk(segs, least, g) && Held(g, p)
    ensures CanResize(g, p, nb) <==> HasRoom(segs, g, p, nb)
  {
    hide Followed, HeadsOk, UsedNext, FreeNext, PrevFree, SegFirst, RecLast;
    var i := InsideAt(segs, g.tiles, p);
    TogetherIn(segs, least, i, p);
    TopIn(segs, least, g, i, p);
    hide SegShape, SegInside, Together, SegTop;
    if CanResize(g, p, nb) {
      forall q | q in g.tiles && g.tiles[q].used && p < q && SegmentHolds(segs[i], q) ensures p + nb <= q {
        UsedBeyond(segs, least, g, i, p, nb, q);
      }
      if g.top != 0 && SegmentHolds(segs[i], g.top) { TopBeyond(g, p, nb); }
    } else {
      InTheWay(segs, least, g, i, p, nb);
    }
  }

  lemma TogetherIn(segs: seq<Segment>, least: int, i: nat, p: int)
    requires SegShape(segs, least) && i < |segs| && SegmentHolds(segs[i], p)
    ensures forall q :: Together(segs, p, q) <==> SegmentHolds(segs[i], q)
  {
    forall q | Together(segs, p, q) ensures SegmentHolds(segs[i], q) {
      var j :| 0 <= j < |segs| && SegmentHolds(segs[j], p) && SegmentHolds(segs[j], q);
      OneHolder(segs, least, i, p, p, p);
      assert j == i;
    }
  }

  /** Top lies above all chunks of its segment, and in the most recent one. */
  lemma TopIn(segs: seq<Segment>, least: int, g: Tags, i: nat, p: int)
    requires SegShape(segs, least) && SegTop(segs, g.top, g.topsize) && TopApart(g.tiles, g.top, g.topsize)
    requires i < |segs| && p in g.tiles
    ensures g.top != 0 && SegmentHolds(segs[i], g.top) ==>
              forall q | q in g.tiles && SegmentHolds(segs[i], q) :: q + g.tiles[q].size <= g.top
  {
    if g.top != 0 && i != 0 { OtherSegment(segs, least, i); }
  }

  lemma UsedBeyond(segs: seq<Segment>, least: int, g: Tags, i: nat, p: int, nb: nat, q: int)
    requires Shapes(g.tiles) && Apart(g.tiles) && Held(g, p) && CanResize(g, p, nb) && i < |segs|
    requires q in g.tiles && g.tiles[q].used && p < q && SegmentHolds(segs[i], q)
    requires End(g.tiles, p) == g.top ==> q + g.tiles[q].size <= g.top
    ensures p + nb <= q
  {}

  lemma TopBeyond(g: Tags, p: int, nb: nat)
    requires Shapes(g.tiles) && Held(g, p) && CanResize(g, p, nb) && p + g.tiles[p].size <= g.top && g.topsize > 0
    requires FreeAfter(g.tiles, p) ==> End(g.tiles, p) + g.tiles[End(g.tiles, p)].size <= g.top
    ensures p + nb < g.top + g.topsize
  {}

  /** What stops the chunk from growing begins below p + nb. */
  lemma InTheWay(segs: seq<Segment>, least: int, g: Tags, i: nat, p: int, nb: nat)
    requires TagsOk(g) && SegsOk(segs, least, g) && Held(g, p) && !CanResize(g, p, nb)
    requires i < |segs| && Holds(segs[i], p, End(g.tiles, p))
    ensures || (g.top != 0 && SegmentHolds(segs[i], g.top) && p + nb >= g.top + g.topsize)
            || exists q :: q in g.tiles && g.tiles[q].used && p < q < p + nb && SegmentHolds(segs[i], q)
  {
    hide Apart, TopApart, HeadsOk, UsedNext, PrevFree, SegFirst, SegTop, RecLast, TopTag;
    var e := End(g.tiles, p);
    if e != g.top {
      assert e in g.tiles;
      if !g.tiles[e].used {
        EndInside(segs, least, g.tiles, i, p, e);
        assert SegmentHolds(segs[i], End(g.tiles, e));
      } else {
        assert SegmentHolds(segs[i], e);
      }
    }
  }

  /** The chunk after p ends in p's segment, too. */
  lemma EndInside(segs: seq<Segment>, least: int, c: Tiles, i: nat, p: int, e: int)
    requires SegShape(segs, least) && SegInside(segs, c) && i < |segs| && p in c && e in c && e == End(c, p)
    requires Holds(segs[i], p, e) && c[e].size > 0
    ensures Holds(segs[i], p, End(c, e))
  {
    var j := InsideAt(segs, c, e);
    OneHolder(segs, least, i, p, e, e);
  }
}
