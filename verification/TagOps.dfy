/** The elementary changes to the tiling and what each does to the boundary tags. */
module TagOps {
  import opened Words
  import opened Rings
  import opened Bins
  import opened Tiling

  // ----- a chunk in use becomes free

  ghost predicate CanFree(g: Tags, p: int) {
    && p in g.tiles && g.tiles[p].used && p !in g.recs && HeadAt(g.head, p).pinuse
    && End(g.tiles, p) in g.tiles && g.tiles[End(g.tiles, p)].used
  }

  function FreeTags(g: Tags, p: int): Tags
    requires p in g.tiles
  {
    var s, e := g.tiles[p].size, End(g.tiles, p);
    g.(tiles := g.tiles[p := Chunk(s, false)],
       head := g.head[p := Head(s, false, true)][e := HeadAt(g.head, e).(pinuse := false)],
       foot := g.foot[e := s])
  }

  lemma FreeShape(g: Tags, p: int)
    requires Shapes(g.tiles) && Apart(g.tiles) && TopApart(g.tiles, g.top, g.topsize)
    requires Followed(g.tiles, g.recs, g.top)
    requires CanFree(g, p)
    ensures var c := FreeTags(g, p).tiles;
            Shapes(c) && Apart(c) && TopApart(c, g.top, g.topsize) && Followed(c, g.recs, g.top)
  {
    hide GoodSize;
    var c := FreeTags(g, p).tiles;
    assert forall q | q in c :: End(c, q) == End(g.tiles, q);
  }

  lemma FreeHeads(g: Tags, p: int)
    requires HeadsOk(g.tiles, g.head) && CanFree(g, p) && TopTag(g.tiles, g.top, g.topsize, g.head)
    requires Shapes(g.tiles) && TopApart(g.tiles, g.top, g.topsize)
    ensures HeadsOk(FreeTags(g, p).tiles, FreeTags(g, p).head)
    ensures TopTag(FreeTags(g, p).tiles, g.top, g.topsize, FreeTags(g, p).head)
  {
    var g' := FreeTags(g, p);
    forall q | q in g'.tiles
      ensures HeadAt(g'.head, q).size == g'.tiles[q].size && HeadAt(g'.head, q).cinuse == g'.tiles[q].used
    {
      assert HeadAt(g.head, q).size == g.tiles[q].size;
    }
  }

  lemma FreeNexts(g: Tags, p: int)
    requires Shapes(g.tiles) && Apart(g.tiles) && UsedNext(g.tiles, g.recs, g.head) && FreeNext(g.tiles, g.head, g.foot)
    requires CanFree(g, p)
    ensures var g' := FreeTags(g, p); UsedNext(g'.tiles, g.recs, g'.head) && FreeNext(g'.tiles, g'.head, g'.foot)
  {
    var g' := FreeTags(g, p);
    var e := End(g.tiles, p);
    forall q | q in g'.tiles && q != p ensures End(g'.tiles, q) == End(g.tiles, q) && End(g.tiles, q) != e {
      assert q in g.tiles && (q < p || p < q);
    }
    FreeUsedNext(g, p);
    FreeFreeNext(g, p);
    hide Shapes, Apart, GoodSize, UsedNext, FreeNext;
  }

  lemma FreeFreeNext(g: Tags, p: int)
    requires Shapes(g.tiles) && FreeNext(g.tiles, g.head, g.foot) && CanFree(g, p)
    requires var g' := FreeTags(g, p);
             forall q | q in g'.tiles && q != p ::
               End(g'.tiles, q) == End(g.tiles, q) && End(g.tiles, q) != End(g.tiles, p)
    ensures FreeNext(FreeTags(g, p).tiles, FreeTags(g, p).head, FreeTags(g, p).foot)
  {
    assert forall q | q in g.tiles && !g.tiles[q].used :: End(g.tiles, q) != p;
    hide Shapes, GoodSize;
  }

  lemma FreeUsedNext(g: Tags, p: int)
    requires UsedNext(g.tiles, g.recs, g.head) && CanFree(g, p)
    requires var g' := FreeTags(g, p);
             forall q | q in g'.tiles && q != p ::
               End(g'.tiles, q) == End(g.tiles, q) && End(g.tiles, q) != End(g.tiles, p)
    ensures UsedNext(FreeTags(g, p).tiles, g.recs, FreeTags(g, p).head)
  {
    hide GoodSize;
  }

  lemma FreePrevs(g: Tags, p: int)
    requires Shapes(g.tiles) && Apart(g.tiles) && PrevFree(g.tiles, g.head, g.foot) && CanFree(g, p)
    ensures var g' := FreeTags(g, p); PrevFree(g'.tiles, g'.head, g'.foot)
  {
    var g' := FreeTags(g, p);
    var e := End(g.tiles, p);
    forall a | a in g'.tiles && !HeadAt(g'.head, a).pinuse
      ensures var q := a - At(g'.foot, a); q in g'.tiles && !g'.tiles[q].used && g'.tiles[q].size == At(g'.foot, a)
    {
      if a != e { assert At(g'.foot, a) == At(g.foot, a); }
    }
  }

  lemma Free(g: Tags, p: int)
    requires TagsOk(g) && CanFree(g, p)
    ensures TagsOk(FreeTags(g, p))
  {
    hide Shapes, Apart, TopApart, Followed, HeadsOk, UsedNext, FreeNext, PrevFree, TopTag;
    FreeShape(g, p);
    FreeHeads(g, p);
    FreeNexts(g, p);
    FreePrevs(g, p);
  }

  // ----- a chunk in use is absorbed by top

  ghost predicate CanJoinTop(g: Tags, p: int) {
    && p in g.tiles && g.tiles[p].used && p !in g.recs && HeadAt(g.head, p).pinuse && End(g.tiles, p) == g.top
  }

  function JoinTopTags(g: Tags, p: int): Tags
    requires p in g.tiles
  {
    var s := g.topsize + g.tiles[p].size;
    g.(tiles := g.tiles - {p}, top := p, topsize := s, head := g.head[p := Head(s, false, true)])
  }

  lemma JoinTopShape(g: Tags, p: int)
    requires Shapes(g.tiles) && Apart(g.tiles) && TopApart(g.tiles, g.top, g.topsize)
    requires Followed(g.tiles, g.recs, g.top)
    requires CanJoinTop(g, p) && TopTag(g.tiles, g.top, g.topsize, g.head)
    ensures var g' := JoinTopTags(g, p);
            && Shapes(g'.tiles) && Apart(g'.tiles) && TopApart(g'.tiles, g'.top, g'.topsize)
            && Followed(g'.tiles, g.recs, g'.top)
            && TopTag(g'.tiles, g'.top, g'.topsize, g'.head)
  {
    hide Followed, TopTag;
    JoinTopFollowed(g, p);
    JoinTopTag(g, p);
  }

  lemma JoinTopTag(g: Tags, p: int)
    requires Shapes(g.tiles) && CanJoinTop(g, p) && TopTag(g.tiles, g.top, g.topsize, g.head)
    ensures var g' := JoinTopTags(g, p); TopTag(g'.tiles, g'.top, g'.topsize, g'.head)
  {
    TopAligned(p, g.tiles[p].size, g.topsize, 0);
  }

  /** Top's address and size stay aligned when it takes in s bytes and gives nb away. */
  lemma TopAligned(p: int, s: int, t: int, nb: int)
    requires p % 8 == 0 && s % 8 == 0 && t % 4 == 0 && nb % 8 == 0
    ensures (p + nb) % 8 == 0 && (s + t - nb) % 4 == 0 && (t + s - nb) % 4 == 0
  {}

  lemma JoinTopFollowed(g: Tags, p: int)
    requires Shapes(g.tiles) && Apart(g.tiles) && Followed(g.tiles, g.recs, g.top) && CanJoinTop(g, p)
    ensures var g' := JoinTopTags(g, p); Followed(g'.tiles, g.recs, g'.top)
  {
    var g' := JoinTopTags(g, p);
    forall q | q in g'.tiles && q !in g.recs ensures End(g'.tiles, q) in g'.tiles || End(g'.tiles, q) == p {
      assert End(g'.tiles, q) == End(g.tiles, q);
    }
  }

  lemma JoinTopTagsOk(g: Tags, p: int)
    requires Shapes(g.tiles) && Apart(g.tiles) && CanJoinTop(g, p)
    requires HeadsOk(g.tiles, g.head) && UsedNext(g.tiles, g.recs, g.head) && FreeNext(g.tiles, g.head, g.foot)
    requires PrevFree(g.tiles, g.head, g.foot)
    ensures var g' := JoinTopTags(g, p);
            && HeadsOk(g'.tiles, g'.head) && UsedNext(g'.tiles, g.recs, g'.head)
            && FreeNext(g'.tiles, g'.head, g'.foot) && PrevFree(g'.tiles, g'.head, g'.foot)
  {
    hide GoodSize, Shapes, Apart, HeadsOk, UsedNext, FreeNext, PrevFree;
    JoinTopHeads(g, p);
    JoinTopNexts(g, p);
    JoinTopPrevs(g, p);
  }

  lemma JoinTopHeads(g: Tags, p: int)
    requires CanJoinTop(g, p) && HeadsOk(g.tiles, g.head)
    ensures var g' := JoinTopTags(g, p); HeadsOk(g'.tiles, g'.head)
  {
    var g' := JoinTopTags(g, p);
    forall q | q in g'.tiles ensures HeadAt(g'.head, q) == HeadAt(g.head, q) {}
  }

  lemma JoinTopNexts(g: Tags, p: int)
    requires CanJoinTop(g, p) && UsedNext(g.tiles, g.recs, g.head) && FreeNext(g.tiles, g.head, g.foot)
    ensures var g' := JoinTopTags(g, p); UsedNext(g'.tiles, g.recs, g'.head) && FreeNext(g'.tiles, g'.head, g'.foot)
  {
    var g' := JoinTopTags(g, p);
    forall q | q in g'.tiles ensures End(g'.tiles, q) == End(g.tiles, q) {}
  }

  lemma JoinTopPrevs(g: Tags, p: int)
    requires CanJoinTop(g, p) && PrevFree(g.tiles, g.head, g.foot)
    ensures var g' := JoinTopTags(g, p); PrevFree(g'.tiles, g'.head, g'.foot)
  {
    var g' := JoinTopTags(g, p);
    forall q | q in g'.tiles && !HeadAt(g'.head, q).pinuse ensures q - At(g.foot, q) != p {
      assert HeadAt(g.head, q) == HeadAt(g'.head, q);
    }
  }

  lemma JoinTop(g: Tags, p: int)
    requires TagsOk(g) && CanJoinTop(g, p)
    ensures TagsOk(JoinTopTags(g, p))
  {
    hide Shapes, Apart, TopApart, Followed, HeadsOk, UsedNext, FreeNext, PrevFree, TopTag;
    JoinTopShape(g, p);
    JoinTopTagsOk(g, p);
  }

  // ----- a chunk in use is cut in two; of a segment record's chunk the upper part keeps the record

  ghost predicate CanSplit(g: Tags, p: int, nb: nat) {
    && p in g.tiles && g.tiles[p].used && GoodSize(nb) && nb < g.tiles[p].size && GoodSize(g.tiles[p].size - nb)
  }

  function SplitTags(g: Tags, p: int, nb: nat): Tags
    requires p in g.tiles && nb <= g.tiles[p].size
  {
    var s := g.tiles[p].size - nb;
    g.(tiles := g.tiles[p := Chunk(nb, true)][p + nb := Chunk(s, true)],
       recs := if p in g.recs then g.recs - {p} + {p + nb} else g.recs,
       head := g.head[p := Head(nb, true, HeadAt(g.head, p).pinuse)][p + nb := Head(s, true, true)])
  }

  lemma SplitApart(g: Tags, p: int, nb: nat)
    requires Shapes(g.tiles) && Apart(g.tiles) && CanSplit(g, p, nb)
    ensures p + nb !in g.tiles
    ensures Shapes(SplitTags(g, p, nb).tiles) && Apart(SplitTags(g, p, nb).tiles)
  {
    SplitFresh(g, p, nb);
    SplitShapes(g, p, nb);
    hide Shapes, GoodSize;
  }

  lemma SplitFresh(g: Tags, p: int, nb: nat)
    requires Shapes(g.tiles) && Apart(g.tiles) && CanSplit(g, p, nb)
    ensures p + nb !in g.tiles && 0 < nb < g.tiles[p].size
    ensures forall q | q in g.tiles && q < p :: q + g.tiles[q].size <= p
    ensures forall q | q in g.tiles && p < q :: p + g.tiles[p].size <= q
  {
    assert p + nb < p + g.tiles[p].size;
  }

  lemma SplitShapes(g: Tags, p: int, nb: nat)
    requires Shapes(g.tiles) && CanSplit(g, p, nb)
    ensures Shapes(SplitTags(g, p, nb).tiles)
  {
    TopAligned(p, 0, 0, nb);
  }

  lemma SplitFollowed(g: Tags, p: int, nb: nat)
    requires Followed(g.tiles, g.recs, g.top) && CanSplit(g, p, nb) && p + nb !in g.tiles
    ensures Followed(SplitTags(g, p, nb).tiles, SplitTags(g, p, nb).recs, g.top)
  {
    hide GoodSize;
    var c, recs := SplitTags(g, p, nb).tiles, SplitTags(g, p, nb).recs;
    forall q | q in c && q !in recs ensures End(c, q) in c || End(c, q) == g.top {
      if q != p && q != p + nb {
        assert End(c, q) == End(g.tiles, q);
      } else if q == p + nb {
        assert End(c, q) == End(g.tiles, p);
      }
    }
  }

  lemma SplitTop(g: Tags, p: int, nb: nat)
    requires Shapes(g.tiles) && TopApart(g.tiles, g.top, g.topsize) && CanSplit(g, p, nb)
    requires TopTag(g.tiles, g.top, g.topsize, g.head)
    ensures var g' := SplitTags(g, p, nb);
            TopApart(g'.tiles, g.top, g.topsize) && TopTag(g'.tiles, g.top, g.topsize, g'.head)
  {}

  lemma SplitHeads(g: Tags, p: int, nb: nat)
    requires HeadsOk(g.tiles, g.head) && CanSplit(g, p, nb) && p + nb !in g.tiles
    ensures HeadsOk(SplitTags(g, p, nb).tiles, SplitTags(g, p, nb).head)
    ensures forall q | q in g.tiles && q != p :: HeadAt(SplitTags(g, p, nb).head, q) == HeadAt(g.head, q)
  {
    hide GoodSize;
    var g' := SplitTags(g, p, nb);
    forall q | q in g.tiles && q != p ensures HeadAt(g'.head, q) == HeadAt(g.head, q) {}
  }

  lemma SplitNexts(g: Tags, p: int, nb: nat)
    requires Shapes(g.tiles) && Apart(g.tiles) && CanSplit(g, p, nb) && p + nb !in g.tiles
    requires UsedNext(g.tiles, g.recs, g.head) && FreeNext(g.tiles, g.head, g.foot)
    ensures var g' := SplitTags(g, p, nb); UsedNext(g'.tiles, g'.recs, g'.head) && FreeNext(g'.tiles, g'.head, g'.foot)
  {
    var g' := SplitTags(g, p, nb);
    forall q | q in g.tiles && q != p ensures End(g'.tiles, q) == End(g.tiles, q) && End(g.tiles, q) != p + nb {}
    assert End(g'.tiles, p + nb) == End(g.tiles, p);
    assert HeadAt(g'.head, p).pinuse == HeadAt(g.head, p).pinuse;
    SplitUsedNext(g, p, nb);
    SplitFreeNext(g, p, nb);
    hide Shapes, Apart, GoodSize, UsedNext, FreeNext;
  }

  /** Where the chunks end is as it was, but for the new boundary. */
  ghost predicate SameEnds(g: Tags, g': Tags, p: int, nb: nat) {
    && p in g.tiles && p + nb in g'.tiles && End(g'.tiles, p + nb) == End(g.tiles, p)
    && HeadAt(g'.head, p).pinuse == HeadAt(g.head, p).pinuse
    && forall q | q in g.tiles && q != p ::
         q in g'.tiles && End(g'.tiles, q) == End(g.tiles, q) && End(g.tiles, q) != p + nb
  }

  lemma SplitUsedNext(g: Tags, p: int, nb: nat)
    requires CanSplit(g, p, nb) && p + nb !in g.tiles && SameEnds(g, SplitTags(g, p, nb), p, nb)
    requires UsedNext(g.tiles, g.recs, g.head)
    ensures var g' := SplitTags(g, p, nb); UsedNext(g'.tiles, g'.recs, g'.head)
  {
    hide GoodSize;
  }

  lemma SplitFreeNext(g: Tags, p: int, nb: nat)
    requires CanSplit(g, p, nb) && p + nb !in g.tiles && SameEnds(g, SplitTags(g, p, nb), p, nb)
    requires FreeNext(g.tiles, g.head, g.foot)
    ensures var g' := SplitTags(g, p, nb); FreeNext(g'.tiles, g'.head, g'.foot)
  {
    hide GoodSize;
  }

  lemma SplitPrevs(g: Tags, p: int, nb: nat)
    requires CanSplit(g, p, nb) && p + nb !in g.tiles && PrevFree(g.tiles, g.head, g.foot)
    ensures PrevFree(SplitTags(g, p, nb).tiles, SplitTags(g, p, nb).head, g.foot)
  {
    hide GoodSize;
    var g' := SplitTags(g, p, nb);
    forall q | q in g'.tiles && !HeadAt(g'.head, q).pinuse
      ensures var r := q - At(g.foot, q); r in g'.tiles && !g'.tiles[r].used && g'.tiles[r].size == At(g.foot, q)
    {
      assert q in g.tiles && !HeadAt(g.head, q).pinuse;
    }
  }

  lemma Split(g: Tags, p: int, nb: nat)
    requires TagsOk(g) && CanSplit(g, p, nb)
    ensures TagsOk(SplitTags(g, p, nb))
  {
    hide Shapes, Apart, TopApart, Followed, HeadsOk, UsedNext, FreeNext, PrevFree, TopTag;
    SplitApart(g, p, nb);
    SplitFollowed(g, p, nb);
    SplitTop(g, p, nb);
    SplitHeads(g, p, nb);
    SplitNexts(g, p, nb);
    SplitPrevs(g, p, nb);
  }

  // ----- the bottom of top is given out

  ghost predicate CanTakeTop(g: Tags, nb: nat) { g.top != 0 && GoodSize(nb) && nb < g.topsize }

  function TakeTopTags(g: Tags, nb: nat): Tags
    requires nb <= g.topsize
  {
    var s := g.topsize - nb;
    g.(tiles := g.tiles[g.top := Chunk(nb, true)], top := g.top + nb, topsize := s,
       head := g.head[g.top + nb := Head(s, false, true)][g.top := Head(nb, true, true)])
  }

  lemma TakeTopShape(g: Tags, nb: nat)
    requires Shapes(g.tiles) && Apart(g.tiles) && TopApart(g.tiles, g.top, g.topsize)
    requires Followed(g.tiles, g.recs, g.top)
    requires CanTakeTop(g, nb) && TopTag(g.tiles, g.top, g.topsize, g.head)
    ensures var g' := TakeTopTags(g, nb);
            && g.top !in g.tiles && g.top + nb !in g.tiles
            && Shapes(g'.tiles) && Apart(g'.tiles) && TopApart(g'.tiles, g'.top, g'.topsize)
            && Followed(g'.tiles, g.recs, g'.top)
            && TopTag(g'.tiles, g'.top, g'.topsize, g'.head)
  {
    hide Followed, TopTag;
    TopNoTile(g, nb);
    TakeTopFollowed(g, nb);
    TakeTopTag(g, nb);
  }

  lemma TakeTopTag(g: Tags, nb: nat)
    requires CanTakeTop(g, nb) && TopTag(g.tiles, g.top, g.topsize, g.head)
    ensures var g' := TakeTopTags(g, nb);
            && TopTag(g'.tiles, g'.top, g'.topsize, g'.head)
            && g.top > 0 && g.top % 8 == 0 && g.top + g.topsize + TOP_FOOT_SIZE <= TWO32
  {
    TopAligned(g.top, 0, g.topsize, nb);
  }

  lemma TopNoTile(g: Tags, nb: nat)
    requires Shapes(g.tiles) && TopApart(g.tiles, g.top, g.topsize) && CanTakeTop(g, nb)
    ensures g.top !in g.tiles && g.top + nb !in g.tiles
  {
    forall q | q in g.tiles ensures q != g.top && q != g.top + nb {}
  }

  lemma TakeTopFollowed(g: Tags, nb: nat)
    requires Followed(g.tiles, g.recs, g.top) && g.top !in g.tiles && CanTakeTop(g, nb)
    ensures var g' := TakeTopTags(g, nb); Followed(g'.tiles, g.recs, g'.top)
  {
    var g' := TakeTopTags(g, nb);
    forall q | q in g'.tiles && q !in g.recs ensures End(g'.tiles, q) in g'.tiles || End(g'.tiles, q) == g'.top {
      if q != g.top { assert End(g'.tiles, q) == End(g.tiles, q); }
    }
  }

  lemma TakeTopHeads(g: Tags, nb: nat)
    requires CanTakeTop(g, nb) && g.top !in g.tiles && g.top + nb !in g.tiles && HeadsOk(g.tiles, g.head)
    ensures HeadsOk(TakeTopTags(g, nb).tiles, TakeTopTags(g, nb).head)
  {
    hide GoodSize;
    var g' := TakeTopTags(g, nb);
    forall q | q in g.tiles ensures HeadAt(g'.head, q) == HeadAt(g.head, q) {}
  }

  lemma TakeTopNexts(g: Tags, nb: nat)
    requires Shapes(g.tiles) && TopApart(g.tiles, g.top, g.topsize) && CanTakeTop(g, nb) && g.top !in g.tiles
    requires g.top + nb !in g.tiles
    requires UsedNext(g.tiles, g.recs, g.head) && FreeNext(g.tiles, g.head, g.foot)
    ensures var g' := TakeTopTags(g, nb); UsedNext(g'.tiles, g.recs, g'.head) && FreeNext(g'.tiles, g'.head, g'.foot)
  {
    var g' := TakeTopTags(g, nb);
    forall q | q in g.tiles ensures End(g'.tiles, q) == End(g.tiles, q) && End(g.tiles, q) != g.top + nb {}
    assert End(g'.tiles, g.top) == g.top + nb;
  }

  lemma TakeTopPrevs(g: Tags, nb: nat)
    requires CanTakeTop(g, nb) && g.top !in g.tiles && g.top + nb !in g.tiles && PrevFree(g.tiles, g.head, g.foot)
    ensures PrevFree(TakeTopTags(g, nb).tiles, TakeTopTags(g, nb).head, g.foot)
  {
    hide GoodSize;
    var g' := TakeTopTags(g, nb);
    forall q | q in g'.tiles && !HeadAt(g'.head, q).pinuse
      ensures var r := q - At(g.foot, q); r in g'.tiles && !g'.tiles[r].used && g'.tiles[r].size == At(g.foot, q)
    {
      assert q in g.tiles && !HeadAt(g.head, q).pinuse;
    }
  }

  lemma TakeTop(g: Tags, nb: nat)
    requires TagsOk(g) && CanTakeTop(g, nb)
    ensures TagsOk(TakeTopTags(g, nb))
  {
    hide Shapes, Apart, TopApart, Followed, HeadsOk, UsedNext, FreeNext, PrevFree, TopTag;
    TakeTopShape(g, nb);
    TakeTopHeads(g, nb);
    TakeTopNexts(g, nb);
    TakeTopPrevs(g, nb);
  }
}
