/** What memory from the system does to the tiling: top grows or shrinks, or a segment begins. */
module SysOps {
  import opened Words
  import opened Rings
  import opened Bins
  import opened Tiling
  import opened TagOps
  import opened Segments
  import opened SegOps
  import opened Coalesce
  import opened AllocOps

  /** The addresses [a, e) are usable memory that no segment holds. */
  predicate FreshRange(segs: seq<Segment>, a: nat, e: nat) {
    && 0 < a < e <= TWO32
    && forall i | 0 <= i < |segs| :: SegEnd(segs[i]) <= a || e <= segs[i].base
  }

  // ----- the first segment

  function FirstTop(g: Tags, top: int, topsize: nat): Tags {
    g.(top := top, topsize := topsize, head := g.head[top := Head(topsize, false, true)])
  }

  lemma StartTop(segs: seq<Segment>, least: int, g: Tags, tbase: nat, tsize: nat)
    requires TagsOk(g) && SegsOk(segs, least, g) && g.top == 0 && FreshRange(segs, tbase, tbase + tsize)
    requires (tbase + tsize) % 4 == 0
    requires TOP_FOOT_SIZE + 8 < tsize && least <= tbase
    ensures var o := AlignOffset(tbase);
            var g' := FirstTop(g, tbase + o, tsize - TOP_FOOT_SIZE - o);
            TagsOk(g') && SegsOk([Segment(tbase, tsize)], least, g') && LiveOf(g') == LiveOf(g) == {}
  {
    NoTiles(g);
    hide TagsOk, SegsOk;
    StartTags(g, tbase + AlignOffset(tbase), tsize - TOP_FOOT_SIZE - AlignOffset(tbase));
    StartSegs(segs, least, g, tbase, tsize);
  }

  lemma NoTiles(g: Tags)
    requires TagsOk(g) && g.top == 0
    ensures g.tiles == map[] && g.recs == {} && g.topsize == 0
  {
    hide Shapes, Apart, TopApart, HeadsOk, UsedNext, FreeNext, PrevFree;
    forall r | r in g.recs ensures r in g.tiles {}
    assert g.recs == {};
  }

  lemma StartTags(g: Tags, top: int, topsize: nat)
    requires g.tiles == map[] && g.recs == {}
    requires top > 0 && top % 8 == 0 && topsize > 0 && topsize % 4 == 0 && top + topsize + TOP_FOOT_SIZE <= TWO32
    ensures TagsOk(FirstTop(g, top, topsize))
  {}

  lemma StartSegs(segs: seq<Segment>, least: int, g: Tags, tbase: nat, tsize: nat)
    requires g.tiles == map[] && g.recs == {}
    requires FreshRange(segs, tbase, tbase + tsize) && TOP_FOOT_SIZE + 8 < tsize && least <= tbase
    ensures SegsOk([Segment(tbase, tsize)], least,
                   FirstTop(g, tbase + AlignOffset(tbase), tsize - TOP_FOOT_SIZE - AlignOffset(tbase)))
  {
    hide FreshRange;
    assert 0 < tbase && tbase + tsize <= TWO32 by { FreshBounds(segs, tbase, tbase + tsize); }
  }

  lemma FreshBounds(segs: seq<Segment>, a: nat, e: nat)
    requires FreshRange(segs, a, e)
    ensures 0 < a < e <= TWO32
  {}

  // ----- top grows or shrinks at its end

  function ResizedTop(g: Tags, topsize: nat): Tags {
    g.(topsize := topsize, head := g.head[g.top := Head(topsize, false, true)])
  }

  lemma ResizeTop(g: Tags, topsize: nat)
    requires TagsOk(g) && g.top != 0 && topsize > 0 && topsize % 4 == 0 && g.top + topsize + TOP_FOOT_SIZE <= TWO32
    requires TopApart(g.tiles, g.top, topsize)
    ensures TagsOk(ResizedTop(g, topsize)) && LiveOf(ResizedTop(g, topsize)) == LiveOf(g)
  {
    var g' := ResizedTop(g, topsize);
    TopNotTile(g);
    forall p | p in g.tiles ensures HeadAt(g'.head, p) == HeadAt(g.head, p) {}
    hide Shapes, Apart, TopApart, Followed;
    ResizeNexts(g, topsize);
  }

  lemma ResizeNexts(g: Tags, topsize: nat)
    requires TagsOk(g) && g.top != 0 && g.top !in g.tiles
    ensures var h := ResizedTop(g, topsize).head;
            && UsedNext(g.tiles, g.recs, h) && FreeNext(g.tiles, h, g.foot) && PrevFree(g.tiles, h, g.foot)
            && HeadsOk(g.tiles, h)
  {
    var h := ResizedTop(g, topsize).head;
    hide Shapes, Apart, TopApart, Followed;
    forall p | p in g.tiles ensures HeadAt(h, p) == HeadAt(g.head, p) {}
  }

  function ResizedSegs(segs: seq<Segment>, size: nat): seq<Segment>
    requires segs != []
  {
    segs[0 := Segment(segs[0].base, size)]
  }

  lemma OtherSegment(segs: seq<Segment>, least: int, i: nat)
    requires SegShape(segs, least) && 0 < i < |segs|
    ensures SegEnd(segs[0]) <= segs[i].base || SegEnd(segs[i]) <= segs[0].base
  {}

  /** A chunk of top's segment lies below top; one of another segment lies clear of top's new extent. */
  lemma ChunkClear(segs: seq<Segment>, least: int, g: Tags, topsize: nat, p: int)
    requires SegShape(segs, least) && SegInside(segs, g.tiles) && SegTop(segs, g.top, g.topsize)
    requires TopApart(g.tiles, g.top, g.topsize)
    requires Shapes(g.tiles) && g.top > 0 && p in g.tiles
    requires g.topsize < topsize ==>
               FreshRange(segs, g.top + g.topsize + TOP_FOOT_SIZE, g.top + topsize + TOP_FOOT_SIZE)
    ensures p + g.tiles[p].size <= g.top || g.top + topsize + TOP_FOOT_SIZE <= p
    ensures Holds(segs[0], p, p + g.tiles[p].size) ==> p + g.tiles[p].size <= g.top
  {
    var i := InsideAt(segs, g.tiles, p);
    hide SegInside, SegShape;
    if i != 0 { OtherSegment(segs, least, i); }
  }

  lemma ResizeApart(segs: seq<Segment>, least: int, g: Tags, topsize: nat)
    requires TagsOk(g) && SegsOk(segs, least, g) && g.top != 0
    requires g.topsize < topsize ==>
               FreshRange(segs, g.top + g.topsize + TOP_FOOT_SIZE, g.top + topsize + TOP_FOOT_SIZE)
    ensures TopApart(g.tiles, g.top, topsize)
    ensures segs != []
    ensures forall p | p in g.tiles && Holds(segs[0], p, p + g.tiles[p].size) :: p + g.tiles[p].size <= g.top
  {
    hide Shapes, Apart, TopApart, Followed, HeadsOk, UsedNext, FreeNext, PrevFree, SegShape, SegInside, FreshRange;
    forall p | p in g.tiles
      ensures p + g.tiles[p].size <= g.top || g.top + topsize + TOP_FOOT_SIZE <= p
      ensures Holds(segs[0], p, p + g.tiles[p].size) ==> p + g.tiles[p].size <= g.top
    {
      ChunkClear(segs, least, g, topsize, p);
    }
    TopApartIntro(g.tiles, g.top, topsize);
  }

  lemma TopApartIntro(c: Tiles, top: int, topsize: nat)
    requires forall p | p in c :: p + c[p].size <= top || top + topsize + TOP_FOOT_SIZE <= p
    ensures TopApart(c, top, topsize)
  {}

  lemma ResizeShape(segs: seq<Segment>, least: int, size: nat)
    requires SegShape(segs, least) && segs != [] && segs[0].base + size <= TWO32 && size >= 8
    requires segs[0].size < size ==> FreshRange(segs, SegEnd(segs[0]), segs[0].base + size)
    ensures SegShape(ResizedSegs(segs, size), least)
  {
    var segs' := ResizedSegs(segs, size);
    forall i, j | 0 <= i < j < |segs'| ensures SegEnd(segs'[i]) <= segs'[j].base || SegEnd(segs'[j]) <= segs'[i].base {
      assert SegEnd(segs[i]) <= segs[j].base || SegEnd(segs[j]) <= segs[i].base;
    }
  }

  lemma ResizeInside(segs: seq<Segment>, g: Tags, topsize: nat, size: nat)
    requires SegInside(segs, g.tiles) && segs != [] && g.top + topsize + TOP_FOOT_SIZE == segs[0].base + size
    requires forall p | p in g.tiles && Holds(segs[0], p, p + g.tiles[p].size) :: p + g.tiles[p].size <= g.top
    ensures SegInside(ResizedSegs(segs, size), g.tiles)
  {
    var segs' := ResizedSegs(segs, size);
    forall p | p in g.tiles ensures Inside(segs', p, p + g.tiles[p].size) {
      var i := InsideAt(segs, g.tiles, p);
      assert Holds(segs'[i], p, p + g.tiles[p].size);
    }
  }

  /** No record lies in top's segment, nor in memory about to join it. */
  lemma NoRecInHead(segs: seq<Segment>, least: int, g: Tags, size: nat, r: int)
    requires SegsOk(segs, least, g) && segs != [] && g.top != 0 && r in g.recs && r in g.tiles
    requires segs[0].size < size ==> FreshRange(segs, SegEnd(segs[0]), segs[0].base + size)
    requires Holds(segs[0], r, r + g.tiles[r].size) ==> r + g.tiles[r].size <= g.top && r < g.top
    ensures !(segs[0].base <= r < segs[0].base + size) || !(segs[0].base <= r < SegEnd(segs[0]) || segs[0].size < size)
  {
    hide SegFirst;
    var i := InsideAt(segs, g.tiles, r);
    if r < g.top {
      assert Parted(segs, r, g.top);
    }
    if i != 0 {
      OtherSegment(segs, least, i);
    }
  }

  lemma ResizeRecs(segs: seq<Segment>, least: int, g: Tags, size: nat)
    requires SegsOk(segs, least, g) && segs != [] && g.top != 0
    requires (forall r | r in g.recs :: r in g.tiles && g.tiles[r].size > 0)
    requires segs[0].size < size ==> FreshRange(segs, SegEnd(segs[0]), segs[0].base + size)
    requires forall p | p in g.tiles && Holds(segs[0], p, p + g.tiles[p].size) :: p + g.tiles[p].size <= g.top
    ensures RecLast(ResizedSegs(segs, size), g.tiles, g.recs, g.top)
  {
    hide SegFirst, SegInside, SegShape, FreshRange, SegTop, SegsOk;
    RecLastOf(segs, least, g);
    var segs' := ResizedSegs(segs, size);
    forall r | r in g.recs ensures !(segs'[0].base <= r < SegEnd(segs'[0])) { NoRecInHead(segs, least, g, size, r); }
    forall r, q | r in g.recs && (q in g.tiles || q == g.top) && r < q ensures Parted(segs', r, q) {
      assert Parted(segs, r, q);
    }
    forall r | r in g.recs ensures NearEnd(segs', r, r + g.tiles[r].size) {
      assert NearEnd(segs, r, r + g.tiles[r].size);
    }
  }

  lemma RecLastOf(segs: seq<Segment>, least: int, g: Tags)
    requires SegsOk(segs, least, g)
    ensures RecLast(segs, g.tiles, g.recs, g.top)
  {}

  lemma ResizeSegs(segs: seq<Segment>, least: int, g: Tags, topsize: nat, size: nat)
    requires SegsOk(segs, least, g) && g.top != 0 && segs != [] && segs[0].base + size <= TWO32 && size >= 8
    requires g.top + topsize + TOP_FOOT_SIZE == segs[0].base + size
    requires segs[0].size < size ==> FreshRange(segs, SegEnd(segs[0]), segs[0].base + size)
    requires forall p | p in g.tiles && Holds(segs[0], p, p + g.tiles[p].size) :: p + g.tiles[p].size <= g.top
    requires forall r | r in g.recs :: r in g.tiles && g.tiles[r].size > 0
    ensures SegsOk(ResizedSegs(segs, size), least, ResizedTop(g, topsize))
  {
    hide SegShape, SegInside, FreshRange, Holds, RecLast;
    ResizeRecs(segs, least, g, size);
    ResizeShape(segs, least, size);
    ResizeInside(segs, g, topsize, size);
    assert forall i | 0 <= i < |segs| :: First(ResizedSegs(segs, size)[i]) == First(segs[i]);
  }

  lemma SumResized(segs: seq<Segment>, size: nat)
    requires segs != []
    ensures SumSizes(ResizedSegs(segs, size)) == SumSizes(segs) - segs[0].size + size
  {
    assert ResizedSegs(segs, size)[1..] == segs[1..];
  }

  // ----- a chunk in fresh memory just below a segment

  function AddedChunk(g: Tags, p: int, s: nat): Tags {
    g.(tiles := g.tiles[p := Chunk(s, true)], head := g.head[p := Head(s, true, true)])
  }

  /** [p, p + s) touches no chunk and no top, and ends where a chunk or top begins. */
  ghost predicate CanAdd(g: Tags, p: int, s: nat) {
    && p > 0 && p % 8 == 0 && GoodSize(s) && p !in g.tiles && p != g.top && g.top != 0
    && (p + s in g.tiles || p + s == g.top) && HeadAt(g.head, p + s).pinuse
    && (forall q | q in g.tiles :: q + g.tiles[q].size <= p - 1 || p + s <= q)
    && (p + s <= g.top || g.top + g.topsize + TOP_FOOT_SIZE <= p)
  }

  lemma AddShape(g: Tags, p: int, s: nat)
    requires Shapes(g.tiles) && Apart(g.tiles) && TopApart(g.tiles, g.top, g.topsize)
    requires Followed(g.tiles, g.recs, g.top)
    requires TopTag(g.tiles, g.top, g.topsize, g.head) && CanAdd(g, p, s)
    ensures var g' := AddedChunk(g, p, s);
            && Shapes(g'.tiles) && Apart(g'.tiles) && TopApart(g'.tiles, g.top, g.topsize)
            && Followed(g'.tiles, g.recs, g.top)
            && TopTag(g'.tiles, g.top, g.topsize, g'.head)
  {
    var c := AddedChunk(g, p, s).tiles;
    assert p + s <= TWO32;
    forall q | q in c && q !in g.recs ensures End(c, q) in c || End(c, q) == g.top {
      if q != p { assert End(c, q) == End(g.tiles, q); }
    }
  }

  lemma AddElsewhere(g: Tags, p: int, s: nat)
    requires CanAdd(g, p, s)
    ensures forall q | q in g.tiles :: q != p && q + g.tiles[q].size != p
    ensures HeadAt(AddedChunk(g, p, s).head, p + s).pinuse && s > 0
  {}

  lemma AddHeads(g: Tags, p: int, s: nat)
    requires CanAdd(g, p, s) && HeadsOk(g.tiles, g.head)
    ensures HeadsOk(AddedChunk(g, p, s).tiles, AddedChunk(g, p, s).head)
  {
    AddElsewhere(g, p, s);
    hide CanAdd;
    var g' := AddedChunk(g, p, s);
    forall q | q in g.tiles ensures HeadAt(g'.head, q) == HeadAt(g.head, q) {}
  }

  lemma AddNexts(g: Tags, p: int, s: nat)
    requires CanAdd(g, p, s) && UsedNext(g.tiles, g.recs, g.head) && FreeNext(g.tiles, g.head, g.foot)
    ensures var g' := AddedChunk(g, p, s); UsedNext(g'.tiles, g.recs, g'.head) && FreeNext(g'.tiles, g'.head, g'.foot)
  {
    AddElsewhere(g, p, s);
    hide CanAdd;
    var g' := AddedChunk(g, p, s);
    forall q | q in g.tiles ensures End(g'.tiles, q) == End(g.tiles, q) && End(g.tiles, q) != p {}
    assert End(g'.tiles, p) == p + s;
  }

  lemma AddPrevs(g: Tags, p: int, s: nat)
    requires CanAdd(g, p, s) && PrevFree(g.tiles, g.head, g.foot)
    ensures PrevFree(AddedChunk(g, p, s).tiles, AddedChunk(g, p, s).head, g.foot)
  {
    AddElsewhere(g, p, s);
    hide CanAdd;
    var g' := AddedChunk(g, p, s);
    forall q | q in g'.tiles && !HeadAt(g'.head, q).pinuse
      ensures var r := q - At(g.foot, q); r in g'.tiles && !g'.tiles[r].used && g'.tiles[r].size == At(g.foot, q)
    {
      assert q in g.tiles && !HeadAt(g.head, q).pinuse;
    }
  }

  lemma AddChunk(g: Tags, p: int, s: nat)
    requires TagsOk(g) && CanAdd(g, p, s)
    ensures TagsOk(AddedChunk(g, p, s))
  {
    hide Shapes, Apart, TopApart, Followed, HeadsOk, UsedNext, FreeNext, PrevFree, TopTag;
    AddShape(g, p, s);
    AddHeads(g, p, s);
    AddNexts(g, p, s);
    AddPrevs(g, p, s);
  }

  // ----- top is retired and a new top begins elsewhere

  ghost predicate CanRetire(g: Tags, s: nat, top: int, topsize: nat) {
    && g.top != 0 && GoodSize(s) && s <= g.topsize + TOP_FOOT_SIZE
    && top > 0 && top % 8 == 0 && topsize > 0 && topsize % 4 == 0 && top + topsize + TOP_FOOT_SIZE <= TWO32
    && (forall q | q in g.tiles :: q + g.tiles[q].size < top || top + topsize + TOP_FOOT_SIZE <= q)
    && (g.top + s < top || top + topsize + TOP_FOOT_SIZE <= g.top)
  }

  /** The first s bytes of the old top become a record's chunk. */
  function Retired(g: Tags, s: nat, top: int, topsize: nat): Tags {
    Tags(g.tiles[g.top := Chunk(s, true)], g.recs + {g.top}, top, topsize,
         g.head[g.top := Head(s, true, true)][top := Head(topsize, false, true)], g.foot)
  }

  lemma RetireShape(g: Tags, s: nat, top: int, topsize: nat)
    requires Shapes(g.tiles) && Apart(g.tiles) && TopApart(g.tiles, g.top, g.topsize)
    requires Followed(g.tiles, g.recs, g.top)
    requires TopTag(g.tiles, g.top, g.topsize, g.head) && CanRetire(g, s, top, topsize)
    ensures var g' := Retired(g, s, top, topsize);
            && Shapes(g'.tiles) && Apart(g'.tiles) && TopApart(g'.tiles, top, topsize)
            && Followed(g'.tiles, g'.recs, top)
            && TopTag(g'.tiles, top, topsize, g'.head)
            && g.top !in g.tiles && top !in g.tiles && g.top != top
  {
    TopNotTile(g);
    RetireFollowed(g, s, top, topsize);
  }

  lemma RetireFollowed(g: Tags, s: nat, top: int, topsize: nat)
    requires Followed(g.tiles, g.recs, g.top) && g.top !in g.tiles
    ensures Followed(Retired(g, s, top, topsize).tiles, Retired(g, s, top, topsize).recs, top)
  {
    var g' := Retired(g, s, top, topsize);
    forall q | q in g'.tiles && q !in g'.recs ensures End(g'.tiles, q) in g'.tiles || End(g'.tiles, q) == top {
      assert End(g'.tiles, q) == End(g.tiles, q);
    }
  }

  lemma RetireHeads(g: Tags, s: nat, top: int, topsize: nat)
    requires CanRetire(g, s, top, topsize) && HeadsOk(g.tiles, g.head) && g.top !in g.tiles && top !in g.tiles
    requires top != g.top
    ensures HeadsOk(Retired(g, s, top, topsize).tiles, Retired(g, s, top, topsize).head)
  {
    hide CanRetire;
    var g' := Retired(g, s, top, topsize);
    forall q | q in g.tiles ensures HeadAt(g'.head, q) == HeadAt(g.head, q) {}
  }

  lemma RetireNexts(g: Tags, s: nat, top: int, topsize: nat)
    requires CanRetire(g, s, top, topsize) && UsedNext(g.tiles, g.recs, g.head) && FreeNext(g.tiles, g.head, g.foot)
    requires g.top !in g.tiles && top !in g.tiles && top != g.top
    ensures var g' := Retired(g, s, top, topsize);
            UsedNext(g'.tiles, g'.recs, g'.head) && FreeNext(g'.tiles, g'.head, g'.foot)
  {
    var g' := Retired(g, s, top, topsize);
    forall q | q in g.tiles ensures End(g'.tiles, q) == End(g.tiles, q) && End(g.tiles, q) != top {}
  }

  lemma RetirePrevs(g: Tags, s: nat, top: int, topsize: nat)
    requires CanRetire(g, s, top, topsize) && PrevFree(g.tiles, g.head, g.foot) && g.top !in g.tiles && top !in g.tiles
    requires top != g.top
    ensures PrevFree(Retired(g, s, top, topsize).tiles, Retired(g, s, top, topsize).head, g.foot)
  {
    hide CanRetire;
    var g' := Retired(g, s, top, topsize);
    forall q | q in g'.tiles && !HeadAt(g'.head, q).pinuse
      ensures var r := q - At(g.foot, q); r in g'.tiles && !g'.tiles[r].used && g'.tiles[r].size == At(g.foot, q)
    {
      assert q in g.tiles && !HeadAt(g.head, q).pinuse;
    }
  }

  lemma Retire(g: Tags, s: nat, top: int, topsize: nat)
    requires TagsOk(g) && CanRetire(g, s, top, topsize)
    ensures TagsOk(Retired(g, s, top, topsize)) && g.top !in g.tiles && top !in g.tiles && top != g.top
  {
    hide Shapes, Apart, TopApart, Followed, HeadsOk, UsedNext, FreeNext, PrevFree, TopTag, CanRetire;
    RetireShape(g, s, top, topsize);
    RetireHeads(g, s, top, topsize);
    RetireNexts(g, s, top, topsize);
    RetirePrevs(g, s, top, topsize);
  }

  /** Head words outside chunks and top, fenceposts and top's foot among them, mean nothing to the tiling. */
  lemma OtherHeads(g: Tags, h: Heads)
    requires TagsOk(g)
    requires forall q | q in g.tiles || q == g.top :: HeadAt(h, q) == HeadAt(g.head, q)
    ensures TagsOk(g.(head := h))
  {
    hide Shapes, Apart, TopApart;
    assert forall q {:trigger End(g.tiles, q)} | q in g.tiles && q !in g.recs ::
        HeadAt(h, End(g.tiles, q)) == HeadAt(g.head, End(g.tiles, q));
  }
}
