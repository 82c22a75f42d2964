/** What freeing a chunk does to the tiling: it becomes one with the free space on both sides. */
module Coalesce {
  import opened Words
  import opened Rings
  import opened Bins
  import opened Tiling
  import opened TagOps
  import opened Segments
  import opened SegOps

  /** A chunk a caller may hold. */
  predicate Held(g: Tags, p: int) { p in g.tiles && g.tiles[p].used && p !in g.recs }

  /** Where the free space below p starts: p itself when PINUSE is set. */
  function Back(g: Tags, p: int): int { if HeadAt(g.head, p).pinuse then p else p - At(g.foot, p) }

  predicate FreeAfter(c: Tiles, p: int)
    requires p in c
  {
    End(c, p) in c && !c[End(c, p)].used
  }

  /** Where the free space above p ends, top not counted. */
  function Fwd(g: Tags, p: int): int
    requires p in g.tiles
  {
    if FreeAfter(g.tiles, p) then End(g.tiles, End(g.tiles, p)) else End(g.tiles, p)
  }

  function RunOf(g: Tags, p: int): set<int>
    requires p in g.tiles
  {
    {Back(g, p), p} + if FreeAfter(g.tiles, p) then {End(g.tiles, p)} else {}
  }

  /** No two free chunks touch, so a free chunk's PINUSE bit is set. */
  lemma NoTwoFree(g: Tags, b: int)
    requires FreeNext(g.tiles, g.head, g.foot) && PrevFree(g.tiles, g.head, g.foot) && b in g.tiles && !g.tiles[b].used
    ensures HeadAt(g.head, b).pinuse
  {
    var q := b - At(g.foot, b);
    assert q in g.tiles && !g.tiles[q].used ==> g.tiles[End(g.tiles, q)].used;
  }

  lemma TopNotTile(g: Tags)
    requires Shapes(g.tiles) && TopApart(g.tiles, g.top, g.topsize)
    ensures g.top !in g.tiles
  {}

  lemma TopNotTileOf(g: Tags)
    requires TagsOk(g)
    ensures g.top !in g.tiles
  {
    TopNotTile(g);
  }

  lemma HeadIn(g: Tags, p: int)
    requires TagsOk(g) && p in g.tiles
    ensures p in g.head && HeadAt(g.head, p).size == g.tiles[p].size
  {
    hide Apart, TopApart, Followed, UsedNext, FreeNext, PrevFree, TopTag;
    assert HeadAt(g.head, p).size == g.tiles[p].size > 0;
  }

  lemma BackFacts(g: Tags, p: int)
    requires TagsOk(g) && p in g.tiles
    ensures var b := Back(g, p);
            && b in g.tiles && b <= p && HeadAt(g.head, b).pinuse
            && (b != p ==> !g.tiles[b].used && End(g.tiles, b) == p)
            && (b != p ==> b !in g.recs && g.tiles[b].size == At(g.foot, p))
            && (g.tiles[p].used && !HeadAt(g.head, p).pinuse ==> b != p)
  {
    hide Apart, TopApart, HeadsOk, UsedNext, TopTag;
    var b := Back(g, p);
    if b != p {
      assert At(g.foot, p) == p - b;
      NoTwoFree(g, b);
    }
  }

  lemma AfterFacts(g: Tags, p: int)
    requires TagsOk(g) && Held(g, p)
    ensures End(g.tiles, p) in g.tiles || End(g.tiles, p) == g.top
    ensures HeadAt(g.head, End(g.tiles, p)).pinuse
    ensures FreeAfter(g.tiles, p) ==> var n := End(g.tiles, p);
                                      && n !in g.recs && End(g.tiles, n) in g.tiles && g.tiles[End(g.tiles, n)].used
                                      && !HeadAt(g.head, End(g.tiles, n)).pinuse && n != g.top
    ensures End(g.tiles, p) == g.top ==> End(g.tiles, p) !in g.tiles
  {
    hide Apart, HeadsOk, PrevFree;
    var n := End(g.tiles, p);
    assert n in g.tiles ==> End(g.tiles, n) == n + g.tiles[n].size;
  }

  lemma RunOfOk(g: Tags, p: int)
    requires TagsOk(g) && Held(g, p)
    ensures Run(g, Back(g, p), Fwd(g, p), RunOf(g, p))
    ensures Fwd(g, p) != g.top ==> Fwd(g, p) in g.tiles && g.tiles[Fwd(g, p)].used
  {
    hide TagsOk, Back;
    BackFacts(g, p);
    AfterFacts(g, p);
    ShapesOf(g);
  }

  lemma ShapesOf(g: Tags)
    requires TagsOk(g)
    ensures Shapes(g.tiles)
  {}

  /** The run becomes one free chunk. */
  function FreedBin(g: Tags, b: int, e: int, r: set<int>): Tags
    requires b <= e
  {
    g.(tiles := MergeTiles(g.tiles, b, e, r, false),
       head := g.head[b := Head(e - b, false, true)][e := HeadAt(g.head, e).(pinuse := false)],
       foot := g.foot[e := e - b])
  }

  /** The run becomes the bottom of top. */
  function FreedTop(g: Tags, b: int, r: set<int>): Tags
    requires b <= g.top
  {
    var s := g.topsize + (g.top - b);
    g.(tiles := g.tiles - r, top := b, topsize := s, head := g.head[b := Head(s, false, true)])
  }

  lemma FreeRun(segs: seq<Segment>, least: int, g: Tags, p: int)
    requires TagsOk(g) && SegsOk(segs, least, g) && Held(g, p) && Fwd(g, p) != g.top
    ensures Back(g, p) < Fwd(g, p)
    ensures var g' := FreedBin(g, Back(g, p), Fwd(g, p), RunOf(g, p)); TagsOk(g') && SegsOk(segs, least, g')
  {
    hide Shapes, Apart, TopApart, Followed, HeadsOk, UsedNext, FreeNext, PrevFree, TopTag, Back, Fwd, RunOf, Run;
    hide SegsOk;
    var b, e, r := Back(g, p), Fwd(g, p), RunOf(g, p);
    RunOfOk(g, p);
    BackFacts(g, p);
    RunBounds(g, b, e, r);
    Merge(g, b, e, r);
    MergeSegs(segs, least, g, b, e, r);
    var g1 := MergeTags(g, b, e, r);
    EndNotInRun(g, b, e, r);
    Free(g1, b);
    FreeSegs(segs, least, g1, b);
    assert FreeTags(g1, b) == FreedBin(g, b, e, r) by { FreedBinMaps(g, b, e, r); }
  }

  lemma EndNotInRun(g: Tags, b: int, e: int, r: set<int>)
    requires Run(g, b, e, r) && b in r
    ensures e !in r && b !in g.recs
  {
    hide RunLinks;
  }

  lemma FreedBinMaps(g: Tags, b: int, e: int, r: set<int>)
    requires b < e && HeadAt(g.head, b).pinuse
    ensures FreeTags(MergeTags(g, b, e, r), b) == FreedBin(g, b, e, r)
  {
    var g1 := MergeTags(g, b, e, r);
    var g2 := FreeTags(g1, b);
    assert g2.head == FreedBin(g, b, e, r).head;
    assert g2.tiles == FreedBin(g, b, e, r).tiles;
  }

  lemma FreeRunTop(segs: seq<Segment>, least: int, g: Tags, p: int)
    requires TagsOk(g) && SegsOk(segs, least, g) && Held(g, p) && Fwd(g, p) == g.top
    ensures Back(g, p) < g.top && !FreeAfter(g.tiles, p)
    ensures var g' := FreedTop(g, Back(g, p), RunOf(g, p)); TagsOk(g') && SegsOk(segs, least, g')
  {
    hide Shapes, Apart, TopApart, Followed, HeadsOk, UsedNext, FreeNext, PrevFree, Back, Fwd, RunOf, Run, SegsOk;
    var b, e, r := Back(g, p), Fwd(g, p), RunOf(g, p);
    RunOfOk(g, p);
    BackFacts(g, p);
    RunBounds(g, b, e, r);
    TopNotFree(g, p);
    Merge(g, b, e, r);
    MergeSegs(segs, least, g, b, e, r);
    var g1 := MergeTags(g, b, e, r);
    EndNotInRun(g, b, e, r);
    JoinTop(g1, b);
    JoinTopSegs(segs, least, g1, b);
    assert JoinTopTags(g1, b) == FreedTop(g, b, r) by { FreedTopMaps(g, b, r); }
  }

  lemma TopNotFree(g: Tags, p: int)
    requires TagsOk(g) && Held(g, p) && Fwd(g, p) == g.top
    ensures !FreeAfter(g.tiles, p) && g.top > 0 && g.top !in g.tiles
  {
    AfterFacts(g, p);
    hide Apart, Followed, HeadsOk, UsedNext, PrevFree;
    TopNotTile(g);
  }

  lemma FreedTopMaps(g: Tags, b: int, r: set<int>)
    requires b < g.top && HeadAt(g.head, b).pinuse && b in r && HeadAt(g.head, g.top) == Head(g.topsize, false, true)
    requires g.topsize > 0
    ensures JoinTopTags(MergeTags(g, b, g.top, r), b) == FreedTop(g, b, r)
  {
    var g1 := MergeTags(g, b, g.top, r);
    var g2 := JoinTopTags(g1, b);
    assert g.top in g.head;
    assert g2.head == FreedTop(g, b, r).head;
    assert g2.tiles == FreedTop(g, b, r).tiles;
  }
}
