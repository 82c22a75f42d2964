/** A chunk in use grows into top, or over the free chunk that follows it. */
module TopGrow {
  import opened Words
  import opened Rings
  import opened Tries
  import opened Bins
  import opened Tiling
  import opened TagOps
  import opened Segments
  import opened SegOps
  import opened Coalesce
  import opened State
  import opened Keeping
  import opened AllocOps

  // ----- into top

  ghost predicate CanGrowTop(g: Tags, p: int, nb: nat) {
    && Held(g, p) && End(g.tiles, p) == g.top && g.top != 0 && GoodSize(nb)
    && g.tiles[p].size < nb < g.tiles[p].size + g.topsize
  }

  function GrownTop(g: Tags, p: int, nb: nat): Tags
    requires p in g.tiles && nb <= g.tiles[p].size + g.topsize
  {
    var s := g.tiles[p].size + g.topsize - nb;
    g.(tiles := g.tiles[p := Chunk(nb, true)], top := p + nb, topsize := s,
       head := g.head[p := Head(nb, true, HeadAt(g.head, p).pinuse)][p + nb := Head(s, false, true)])
  }

  lemma GrowTopShape(g: Tags, p: int, nb: nat)
    requires Shapes(g.tiles) && Apart(g.tiles) && TopApart(g.tiles, g.top, g.topsize)
    requires Followed(g.tiles, g.recs, g.top)
    requires CanGrowTop(g, p, nb) && TopTag(g.tiles, g.top, g.topsize, g.head)
    ensures var g' := GrownTop(g, p, nb);
            && Shapes(g'.tiles) && Apart(g'.tiles) && TopApart(g'.tiles, g'.top, g'.topsize)
            && Followed(g'.tiles, g.recs, g'.top)
            && TopTag(g'.tiles, g'.top, g'.topsize, g'.head)
    ensures p + nb !in g.tiles
  {
    hide Followed, TopTag;
    GrowTopFollowed(g, p, nb);
    GrowTopTag(g, p, nb);
    GrowTopApart(g, p, nb);
    hide Apart, TopApart;
  }

  lemma GrowTopApart(g: Tags, p: int, nb: nat)
    requires Shapes(g.tiles) && Apart(g.tiles) && TopApart(g.tiles, g.top, g.topsize) && CanGrowTop(g, p, nb)
    ensures var g' := GrownTop(g, p, nb); Apart(g'.tiles) && TopApart(g'.tiles, g'.top, g'.topsize)
    ensures p + nb !in g.tiles
  {
    hide HeadAt;
  }

  lemma GrowTopTag(g: Tags, p: int, nb: nat)
    requires Shapes(g.tiles) && CanGrowTop(g, p, nb) && TopTag(g.tiles, g.top, g.topsize, g.head)
    ensures var g' := GrownTop(g, p, nb);
            TopTag(g'.tiles, g'.top, g'.topsize, g'.head) && p > 0 && p % 8 == 0 && p + nb <= TWO32
  {
    TopAligned(p, g.tiles[p].size, g.topsize, nb);
  }

  lemma GrowTopFollowed(g: Tags, p: int, nb: nat)
    requires Shapes(g.tiles) && Apart(g.tiles) && Followed(g.tiles, g.recs, g.top) && CanGrowTop(g, p, nb)
    ensures var g' := GrownTop(g, p, nb); Followed(g'.tiles, g.recs, g'.top)
  {
    var g' := GrownTop(g, p, nb);
    forall q | q in g'.tiles && q !in g.recs ensures End(g'.tiles, q) in g'.tiles || End(g'.tiles, q) == g'.top {
      if q != p { assert End(g'.tiles, q) == End(g.tiles, q); }
    }
  }

  lemma GrowTopHeads(g: Tags, p: int, nb: nat)
    requires CanGrowTop(g, p, nb) && p + nb !in g.tiles && HeadsOk(g.tiles, g.head)
    ensures HeadsOk(GrownTop(g, p, nb).tiles, GrownTop(g, p, nb).head)
  {
    hide GoodSize;
    var g' := GrownTop(g, p, nb);
    forall q | q in g.tiles && q != p ensures HeadAt(g'.head, q) == HeadAt(g.head, q) {}
  }

  lemma GrowTopNexts(g: Tags, p: int, nb: nat)
    requires Shapes(g.tiles) && Apart(g.tiles) && TopApart(g.tiles, g.top, g.topsize) && CanGrowTop(g, p, nb)
    requires p + nb !in g.tiles
    requires UsedNext(g.tiles, g.recs, g.head) && FreeNext(g.tiles, g.head, g.foot)
    ensures var g' := GrownTop(g, p, nb); UsedNext(g'.tiles, g.recs, g'.head) && FreeNext(g'.tiles, g'.head, g'.foot)
  {
    var g' := GrownTop(g, p, nb);
    forall q | q in g.tiles && q != p ensures End(g'.tiles, q) == End(g.tiles, q) && End(g.tiles, q) != p + nb {}
    GrowTopUsed(g, p, nb);
    GrowTopFree(g, p, nb);
    hide Shapes, Apart, TopApart, GoodSize, UsedNext, FreeNext;
  }

  lemma GrowTopUsed(g: Tags, p: int, nb: nat)
    requires CanGrowTop(g, p, nb) && UsedNext(g.tiles, g.recs, g.head)
    requires forall q | q in g.tiles && q != p :: End(g.tiles, q) != p + nb
    ensures var g' := GrownTop(g, p, nb); UsedNext(g'.tiles, g.recs, g'.head)
  {
    hide GoodSize;
    var g' := GrownTop(g, p, nb);
    forall q | q in g.tiles && q != p ensures End(g'.tiles, q) == End(g.tiles, q) {}
    assert End(g'.tiles, p) == p + nb;
  }

  lemma GrowTopFree(g: Tags, p: int, nb: nat)
    requires CanGrowTop(g, p, nb) && FreeNext(g.tiles, g.head, g.foot)
    requires forall q | q in g.tiles && q != p :: End(g.tiles, q) != p + nb
    ensures var g' := GrownTop(g, p, nb); FreeNext(g'.tiles, g'.head, g'.foot)
  {
    hide GoodSize;
    var g' := GrownTop(g, p, nb);
    forall q | q in g.tiles && q != p ensures End(g'.tiles, q) == End(g.tiles, q) {}
  }

  lemma GrowTopPrevs(g: Tags, p: int, nb: nat)
    requires CanGrowTop(g, p, nb) && p + nb !in g.tiles && PrevFree(g.tiles, g.head, g.foot)
    ensures PrevFree(GrownTop(g, p, nb).tiles, GrownTop(g, p, nb).head, g.foot)
  {
    hide GoodSize;
    var g' := GrownTop(g, p, nb);
    forall q | q in g'.tiles && !HeadAt(g'.head, q).pinuse
      ensures var r := q - At(g.foot, q); r in g'.tiles && !g'.tiles[r].used && g'.tiles[r].size == At(g.foot, q)
    {
      assert q in g.tiles && !HeadAt(g.head, q).pinuse;
    }
  }

  lemma GrowTop(g: Tags, p: int, nb: nat)
    requires TagsOk(g) && CanGrowTop(g, p, nb)
    ensures TagsOk(GrownTop(g, p, nb))
  {
    hide Shapes, Apart, TopApart, Followed, HeadsOk, UsedNext, FreeNext, PrevFree, TopTag;
    GrowTopShape(g, p, nb);
    GrowTopHeads(g, p, nb);
    GrowTopNexts(g, p, nb);
    GrowTopPrevs(g, p, nb);
  }

  lemma GrowTopRecs(segs: seq<Segment>, least: int, g: Tags, p: int, nb: nat)
    requires TagsOk(g) && SegsOk(segs, least, g) && CanGrowTop(g, p, nb)
    ensures RecLast(segs, GrownTop(g, p, nb).tiles, g.recs, p + nb)
  {
    hide HeadsOk, UsedNext, FreeNext, PrevFree, TopTag, SegShape, SegInside, SegFirst, SegTop;
    var c := GrownTop(g, p, nb).tiles;
    forall r, q | r in g.recs && (q in c || q == p + nb) && r < q ensures Parted(segs, r, q) {
      if q == p + nb {
        assert Parted(segs, r, p);
      } else {
        assert Parted(segs, r, q);
      }
    }
  }

  lemma GrowTopSegs(segs: seq<Segment>, least: int, g: Tags, p: int, nb: nat)
    requires TagsOk(g) && SegsOk(segs, least, g) && CanGrowTop(g, p, nb)
    ensures SegsOk(segs, least, GrownTop(g, p, nb))
  {
    hide Apart, TopApart, Followed, HeadsOk, UsedNext, FreeNext, PrevFree, TopTag, SegShape, SegInside, SegFirst;
    hide RecLast;
    GrowTopRecs(segs, least, g, p, nb);
    GrowTopFirst(segs, least, g, p, nb);
    EndsAtTop(segs, least, g, p);
    GrowTopInside(segs, g, p, nb);
  }

  lemma GrowTopFirst(segs: seq<Segment>, least: int, g: Tags, p: int, nb: nat)
    requires TagsOk(g) && SegsOk(segs, least, g) && CanGrowTop(g, p, nb)
    ensures SegFirst(segs, GrownTop(g, p, nb).tiles, p + nb)
  {
    NotFirst(segs, least, g, p);
    hide TagsOk, SegShape, SegInside, RecLast, SegTop, First, HeadAt;
  }

  lemma GrowTopInside(segs: seq<Segment>, g: Tags, p: int, nb: nat)
    requires CanGrowTop(g, p, nb) && SegInside(segs, g.tiles) && segs != [] && Holds(segs[0], p, p + nb)
    ensures SegInside(segs, GrownTop(g, p, nb).tiles)
  {
    var c := GrownTop(g, p, nb).tiles;
    assert Inside(segs, p, p + nb);
    forall q | q in c ensures Inside(segs, q, q + c[q].size) {
      if q != p { assert Inside(segs, q, q + g.tiles[q].size); }
    }
  }

  // ----- over the free chunk that follows

  /** p takes in the free chunk after it. */
  function Absorbed(g: Tags, p: int): Tags
    requires p in g.tiles && FreeAfter(g.tiles, p)
  {
    MergeTags(g, p, End(g.tiles, End(g.tiles, p)), {p, End(g.tiles, p)})
  }

  lemma NextRun(g: Tags, p: int)
    requires TagsOk(g) && Held(g, p) && FreeAfter(g.tiles, p)
    ensures var n := End(g.tiles, p);
            var e := End(g.tiles, n);
            && Run(g, p, e, {p, n}) && e in g.tiles && g.tiles[e].used && !HeadAt(g.head, e).pinuse && p < n < e
            && e in g.head && n !in g.recs
            && GoodSize(e - p)
  {
    hide Apart, TopApart, UsedNext, PrevFree, TopTag;
    AfterFacts(g, p);
    var e := End(g.tiles, End(g.tiles, p));
    HeadIn(g, e);
    assert e - p <= e <= TWO32;
  }

  lemma Absorb(segs: seq<Segment>, least: int, g: Tags, p: int)
    requires TagsOk(g) && SegsOk(segs, least, g) && Held(g, p) && FreeAfter(g.tiles, p)
    ensures TagsOk(Absorbed(g, p)) && SegsOk(segs, least, Absorbed(g, p))
    ensures LiveOf(Absorbed(g, p)) == LiveOf(g) && Held(Absorbed(g, p), p)
    ensures forall q | q in LiveOf(g) && q != p ::
              q in g.tiles && q in Absorbed(g, p).tiles && Absorbed(g, p).tiles[q] == g.tiles[q]
    ensures End(Absorbed(g, p).tiles, p) == End(g.tiles, End(g.tiles, p)) && Absorbed(g, p).recs == g.recs
  {
    hide TagsOk, SegsOk, Run;
    NextRun(g, p);
    OpenTags(g);
    var n := End(g.tiles, p);
    Merge(g, p, End(g.tiles, n), {p, n});
    MergeSegs(segs, least, g, p, End(g.tiles, n), {p, n});
  }

  /** The bins after the free chunk n after p is gone: it was between bins, or it was the victim. */
  lemma AbsorbMatch(sz: Sizes, g: Tags, dv: int, dvsize: nat, p: int)
    requires TagsOk(g) && Held(g, p) && FreeAfter(g.tiles, p)
    ensures var n := End(g.tiles, p);
            && (n != dv && Match(sz, g.tiles, dv, dvsize, {n}) ==> Match(sz, Absorbed(g, p).tiles, dv, dvsize, {}))
            && (n == dv && Match(sz, g.tiles, dv, dvsize, {}) ==> Match(sz, Absorbed(g, p).tiles, 0, 0, {}))
  {
    NextRun(g, p);
    ShapesOf(g);
    hide TagsOk, Run, GoodSize;
  }

  /** The bins after n is cut: its first bytes join p and the rest is the new victim. */
  lemma AbsorbCutMatch(sz: Sizes, g: Tags, dv: int, dvsize: nat, p: int, nb: nat)
    requires TagsOk(g) && Held(g, p) && FreeAfter(g.tiles, p) && dv == End(g.tiles, p)
    requires Match(sz, g.tiles, dv, dvsize, {})
    requires g.tiles[p].size < nb < g.tiles[p].size + dvsize && p + nb !in g.tiles
    ensures Match(sz, AbsorbedCut(g, p, nb).tiles, p + nb, g.tiles[p].size + dvsize - nb, {})
  {
    NextRun(g, p);
    hide TagsOk, Run, GoodSize;
  }

  function AbsorbedCut(g: Tags, p: int, nb: nat): Tags
    requires p in g.tiles && FreeAfter(g.tiles, p) && nb <= g.tiles[p].size + g.tiles[End(g.tiles, p)].size
  {
    FreeTags(SplitTags(Absorbed(g, p), p, nb), p + nb)
  }

  lemma AbsorbCut(segs: seq<Segment>, least: int, g: Tags, p: int, nb: nat)
    requires TagsOk(g) && SegsOk(segs, least, g) && Held(g, p) && FreeAfter(g.tiles, p)
    requires var s := g.tiles[p].size + g.tiles[End(g.tiles, p)].size;
             GoodSize(nb) && nb < s && GoodSize(s - nb) && g.tiles[p].size < nb
    ensures TagsOk(AbsorbedCut(g, p, nb)) && SegsOk(segs, least, AbsorbedCut(g, p, nb)) && p + nb !in g.tiles
  {
    hide TagsOk, SegsOk, Run, GoodSize;
    var n := End(g.tiles, p);
    var s := g.tiles[p].size + g.tiles[n].size;
    NextRun(g, p);
    Absorb(segs, least, g, p);
    var g1 := Absorbed(g, p);
    OpenTags(g1);
    SplitApart(g1, p, nb);
    Split(g1, p, nb);
    SplitSegs(segs, least, g1, p, nb);
    var g2 := SplitTags(g1, p, nb);
    CutRestFree(g, p, nb);
    Free(g2, p + nb);
    FreeSegs(segs, least, g2, p + nb);
    CutNotTile(g, p, nb);
  }

  lemma CutNotTile(g: Tags, p: int, nb: nat)
    requires TagsOk(g) && Held(g, p) && FreeAfter(g.tiles, p)
    requires g.tiles[p].size < nb < g.tiles[p].size + g.tiles[End(g.tiles, p)].size
    ensures p + nb !in g.tiles && p + nb !in g.recs
  {
    hide TopApart, HeadsOk, UsedNext, FreeNext, PrevFree, TopTag;
  }

  lemma CutRestFree(g: Tags, p: int, nb: nat)
    requires TagsOk(g) && Held(g, p) && FreeAfter(g.tiles, p)
    requires g.tiles[p].size < nb < g.tiles[p].size + g.tiles[End(g.tiles, p)].size
    ensures CanFree(SplitTags(Absorbed(g, p), p, nb), p + nb)
  {
    NextRun(g, p);
    CutNotTile(g, p, nb);
    hide TagsOk, Run, GoodSize;
  }

  /** The words written when the victim is cut. */
  lemma AbsorbedCutIs(g: Tags, p: int, nb: nat)
    requires TagsOk(g) && Held(g, p) && FreeAfter(g.tiles, p)
    requires g.tiles[p].size < nb < g.tiles[p].size + g.tiles[End(g.tiles, p)].size
    ensures var n := End(g.tiles, p);
            var e := End(g.tiles, n);
            var s := g.tiles[p].size + g.tiles[n].size - nb;
            && AbsorbedCut(g, p, nb).head
                == g.head[p := Head(nb, true, HeadAt(g.head, p).pinuse)][p + nb := Head(s, false, true)]
            && AbsorbedCut(g, p, nb).foot == g.foot[e := s]
            && AbsorbedCut(g, p, nb).tiles == (g.tiles - {n})[p := Chunk(nb, true)][p + nb := Chunk(s, false)]
            && AbsorbedCut(g, p, nb).recs == g.recs
  {
    NextRun(g, p);
    CutNotTile(g, p, nb);
    hide TagsOk, Run, GoodSize;
    AbsorbedCutTiles(g, p, nb);
    var s := g.tiles[p].size + g.tiles[End(g.tiles, p)].size - nb;
    assert AbsorbedCut(g, p, nb).head
        == g.head[p := Head(nb, true, HeadAt(g.head, p).pinuse)][p + nb := Head(s, false, true)];
  }

  lemma AbsorbedCutTiles(g: Tags, p: int, nb: nat)
    requires TagsOk(g) && Held(g, p) && FreeAfter(g.tiles, p)
    requires g.tiles[p].size < nb < g.tiles[p].size + g.tiles[End(g.tiles, p)].size
    ensures var n := End(g.tiles, p);
            var s := g.tiles[p].size + g.tiles[n].size - nb;
            AbsorbedCut(g, p, nb).tiles == (g.tiles - {n})[p := Chunk(nb, true)][p + nb := Chunk(s, false)]
  {
    NextRun(g, p);
    CutNotTile(g, p, nb);
    hide TagsOk, Run, GoodSize;
  }
}
