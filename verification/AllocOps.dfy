/** What handing out a free chunk, whole or in part, does to the tiling. */
module AllocOps {
  import opened Words
  import opened Rings
  import opened Tries
  import opened Bins
  import opened Tiling
  import opened TagOps
  import opened Segments
  import opened SegOps
  import opened Coalesce
  import opened State
  import opened Keeping

  predicate FreeChunk(g: Tags, p: int) { p in g.tiles && !g.tiles[p].used }

  function LiveOf(g: Tags): set<int> { set p | p in g.tiles && g.tiles[p].used && p !in g.recs }

  // ----- the whole chunk

  function TakenWhole(g: Tags, p: int): Tags
    requires p in g.tiles
  {
    var s, e := g.tiles[p].size, End(g.tiles, p);
    g.(tiles := g.tiles[p := Chunk(s, true)],
       head := g.head[p := Head(s, true, true)][e := HeadAt(g.head, e).(pinuse := true)])
  }

  lemma SingleRun(g: Tags, p: int)
    requires TagsOk(g) && p in g.tiles && p !in g.recs
    ensures Run(g, p, End(g.tiles, p), {p})
  {
    hide Apart, TopApart, HeadsOk, UsedNext, FreeNext, PrevFree, TopTag;
  }

  lemma FreeFacts(g: Tags, p: int)
    requires TagsOk(g) && FreeChunk(g, p)
    ensures p !in g.recs && HeadAt(g.head, p).pinuse && p > 0 && GoodSize(g.tiles[p].size)
    ensures var e := End(g.tiles, p);
            e in g.tiles && g.tiles[e].used && !HeadAt(g.head, e).pinuse && e in g.head && e != g.top
  {
    hide Apart, HeadsOk, UsedNext;
    NoTwoFree(g, p);
    HeadIn(g, End(g.tiles, p));
    TopNotTile(g);
  }

  lemma TakeWhole(segs: seq<Segment>, least: int, g: Tags, p: int)
    requires TagsOk(g) && SegsOk(segs, least, g) && FreeChunk(g, p)
    ensures TagsOk(TakenWhole(g, p)) && SegsOk(segs, least, TakenWhole(g, p))
  {
    hide TagsOk, SegsOk, Run;
    FreeFacts(g, p);
    SingleRun(g, p);
    OpenTags(g);
    Merge(g, p, End(g.tiles, p), {p});
    MergeSegs(segs, least, g, p, End(g.tiles, p), {p});
    WholeMaps(g, p);
  }

  lemma OpenTags(g: Tags)
    requires TagsOk(g)
    ensures Shapes(g.tiles) && Apart(g.tiles) && TopApart(g.tiles, g.top, g.topsize) && Followed(g.tiles, g.recs, g.top)
    ensures TopTag(g.tiles, g.top, g.topsize, g.head)
  {}

  lemma WholeMaps(g: Tags, p: int)
    requires p in g.tiles && HeadAt(g.head, p).pinuse && g.tiles[p].size > 0
    ensures MergeTags(g, p, End(g.tiles, p), {p}) == TakenWhole(g, p)
  {
    assert MergeTags(g, p, End(g.tiles, p), {p}).tiles == TakenWhole(g, p).tiles;
  }

  // ----- the first nb bytes; the rest stays free

  function TakenSplit(g: Tags, p: int, nb: nat): Tags
    requires p in g.tiles && nb <= g.tiles[p].size
  {
    var s, e := g.tiles[p].size - nb, End(g.tiles, p);
    g.(tiles := g.tiles[p := Chunk(nb, true)][p + nb := Chunk(s, false)],
       head := g.head[p := Head(nb, true, true)][p + nb := Head(s, false, true)],
       foot := g.foot[e := s])
  }

  ghost predicate CanCut(g: Tags, p: int, nb: nat) {
    FreeChunk(g, p) && GoodSize(nb) && nb < g.tiles[p].size && GoodSize(g.tiles[p].size - nb)
  }

  lemma TakeSplit(segs: seq<Segment>, least: int, g: Tags, p: int, nb: nat)
    requires TagsOk(g) && SegsOk(segs, least, g) && CanCut(g, p, nb)
    ensures TagsOk(TakenSplit(g, p, nb)) && SegsOk(segs, least, TakenSplit(g, p, nb)) && p + nb !in g.tiles
  {
    hide TagsOk, SegsOk, Run, Shapes, Apart, TopApart, Followed, TopTag, GoodSize;
    TakeWhole(segs, least, g, p);
    FreeFacts(g, p);
    var g1 := TakenWhole(g, p);
    OpenTags(g1);
    SplitApart(g1, p, nb);
    Split(g1, p, nb);
    SplitSegs(segs, least, g1, p, nb);
    var g2 := SplitTags(g1, p, nb);
    CutRest(g, p, nb);
    Free(g2, p + nb);
    FreeSegs(segs, least, g2, p + nb);
    SplitMaps(g, p, nb);
  }

  lemma CutRest(g: Tags, p: int, nb: nat)
    requires TagsOk(g) && CanCut(g, p, nb) && p + nb !in g.tiles
    ensures CanFree(SplitTags(TakenWhole(g, p), p, nb), p + nb)
  {
    FreeFacts(g, p);
    RecsIn(g);
    hide TagsOk;
  }

  lemma RecsIn(g: Tags)
    requires TagsOk(g)
    ensures forall p | p in g.recs :: p in g.tiles && g.tiles[p].used && g.tiles[p].size > 0
  {}

  lemma SplitMaps(g: Tags, p: int, nb: nat)
    requires CanCut(g, p, nb) && p + nb !in g.tiles && HeadAt(g.head, p).pinuse && p !in g.recs
    requires var e := End(g.tiles, p); e in g.head && !HeadAt(g.head, e).pinuse
    ensures FreeTags(SplitTags(TakenWhole(g, p), p, nb), p + nb) == TakenSplit(g, p, nb)
  {
    var g3 := FreeTags(SplitTags(TakenWhole(g, p), p, nb), p + nb);
    assert g3.head == TakenSplit(g, p, nb).head;
    assert g3.tiles == TakenSplit(g, p, nb).tiles;
  }

  // ----- none of it touches what callers keep

  lemma TakenStay(k: Guard, c: Cells, g: Tags, g': Tags)
    requires KeptOk(k, c, g) && g'.recs == g.recs
    requires forall q | q in g.tiles && g.tiles[q].used :: q in g'.tiles && g'.tiles[q] == g.tiles[q]
    requires forall r | r in g.recs && r in g.tiles :: g.tiles[r].used
    ensures RecordsOk(g') && forall q | q in k.kept :: Held(g', q) && k.kept[q] <= g'.tiles[q].size
  {
    hide SameIn;
    forall q | q in k.kept ensures Held(g', q) && k.kept[q] <= g'.tiles[q].size { assert KeptOne(k, c, g, q); }
  }

  lemma TakenWholeKept(k: Guard, c: Cells, g: Tags, p: int)
    requires KeptOk(k, c, g) && c == WithTags(c, g) && TagsOk(g) && FreeChunk(g, p) && TagsOk(TakenWhole(g, p))
    ensures KeptOk(k, WithTags(c, TakenWhole(g, p)), TakenWhole(g, p))
  {
    hide TagsOk, KeptOk;
    FreeFacts(g, p);
    RecsIn(g);
    TakenStay(k, c, g, TakenWhole(g, p));
    RetagKept(k, c, g, TakenWhole(g, p), iset{p, End(g.tiles, p)}, {});
  }

  lemma TakenSplitKept(k: Guard, c: Cells, g: Tags, p: int, nb: nat)
    requires KeptOk(k, c, g) && c == WithTags(c, g) && TagsOk(g) && CanCut(g, p, nb) && TagsOk(TakenSplit(g, p, nb))
    requires p + nb !in g.tiles
    ensures KeptOk(k, WithTags(c, TakenSplit(g, p, nb)), TakenSplit(g, p, nb))
  {
    hide TagsOk, KeptOk;
    var g' := TakenSplit(g, p, nb);
    RecsIn(g);
    TakenStay(k, c, g, g');
    assert End(g'.tiles, p + nb) == End(g.tiles, p);
    RetagKept(k, c, g, g', iset{p, p + nb}, {End(g.tiles, p)});
  }

  lemma TakeTopKept(k: Guard, c: Cells, g: Tags, nb: nat)
    requires KeptOk(k, c, g) && c == WithTags(c, g) && TagsOk(g) && CanTakeTop(g, nb) && TagsOk(TakeTopTags(g, nb))
    requires g.top !in g.tiles
    ensures KeptOk(k, WithTags(c, TakeTopTags(g, nb)), TakeTopTags(g, nb))
  {
    hide TagsOk, KeptOk, GoodSize;
    RecsIn(g);
    TakenStay(k, c, g, TakeTopTags(g, nb));
    RetagKept(k, c, g, TakeTopTags(g, nb), iset{g.top, g.top + nb}, {});
  }

  // ----- what a caller sees

  /** p has been handed out with nb bytes, or as it was with less than a chunk to spare; other held chunks are as
      before. */
  ghost predicate Allocated(g: Tags, g': Tags, p: int, nb: nat) {
    && p !in LiveOf(g) && LiveOf(g') == LiveOf(g) + {p} && p in g'.tiles
    && nb <= g'.tiles[p].size < nb + MIN_CHUNK_SIZE
    && (g'.tiles[p].size == nb || (p in g.tiles && g'.tiles[p].size == g.tiles[p].size))
    && (forall q | q in LiveOf(g) :: q in g.tiles && q in g'.tiles && g'.tiles[q] == g.tiles[q])
  }

  lemma TakenWholeAllocated(g: Tags, p: int, nb: nat)
    requires FreeChunk(g, p) && p !in g.recs && nb <= g.tiles[p].size < nb + MIN_CHUNK_SIZE
    ensures Allocated(g, TakenWhole(g, p), p, nb)
  {}

  lemma TakenSplitAllocated(g: Tags, p: int, nb: nat)
    requires FreeChunk(g, p) && p !in g.recs && 0 < nb < g.tiles[p].size && p + nb !in g.tiles && p + nb !in g.recs
    ensures Allocated(g, TakenSplit(g, p, nb), p, nb)
  {}

  lemma TakeTopAllocated(g: Tags, nb: nat)
    requires nb <= g.topsize && g.top !in g.tiles && g.top !in g.recs
    ensures Allocated(g, TakeTopTags(g, nb), g.top, nb)
  {}
}
