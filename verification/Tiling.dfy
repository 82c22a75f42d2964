/**
 Boundary tags.  The heap is a tiling of addresses by chunks; sizes, in-use bits and feet written in
 the heap words agree with it, and no two free chunks touch.
 */
module Tiling {
  import opened Words
  import opened Rings
  import opened Bins

  /** A head word: the size with its flag4 bit, CINUSE and PINUSE. */
  datatype Head = Head(size: nat, cinuse: bool, pinuse: bool)

  /** size | CINUSE | PINUSE as the word holds it. */
  function Packed(h: Head): nat {
    var w := h.size - h.size % 4;
    var flags := h.size % 4;
    w + (if flags / 2 == 1 || h.cinuse then 2 else 0) + (if flags % 2 == 1 || h.pinuse then 1 else 0)
  }

  function Unpacked(w: nat): Head { Head(w - w % 4, (w / 2) % 2 == 1, w % 2 == 1) }

  /** A head can be read back from its word exactly when the size leaves the two flag bits alone. */
  lemma PackRoundTrip(h: Head)
    ensures Unpacked(Packed(h)) == h <==> h.size % 4 == 0
  {
    var w, f := h.size / 4, h.size % 4;
    assert h.size == 4 * w + f;
    var c, p := (if f / 2 == 1 || h.cinuse then 1 else 0), (if f % 2 == 1 || h.pinuse then 1 else 0);
    assert Packed(h) == 4 * w + 2 * c + p;
    ThreeParts(w, c, p);
  }

  lemma ThreeParts(w: nat, c: nat, p: nat)
    requires c <= 1 && p <= 1
    ensures Unpacked(4 * w + 2 * c + p) == Head(4 * w, c == 1, p == 1)
  {}

  type Heads = map<int, Head>

  function HeadAt(h: Heads, a: int): Head { if a in h then h[a] else Head(0, false, false) }

  /** chunksize */
  function ChunkSize(h: Heads, a: int): nat { AlignDown(HeadAt(h, a).size) }

  datatype Chunk = Chunk(size: nat, used: bool)

  type Tiles = map<int, Chunk>

  /** The tiling, the chunks that hold segment records, top, and the tag words. */
  datatype Tags = Tags(tiles: Tiles, recs: set<int>, top: int, topsize: nat, head: Heads, foot: Ptrs)

  function End(c: Tiles, p: int): int
    requires p in c
  {
    p + c[p].size
  }

  // ----- the invariant, one clause at a time

  predicate Shapes(c: Tiles) {
    forall p | p in c :: p > 0 && p % 8 == 0 && GoodSize(c[p].size) && p + c[p].size <= TWO32
  }

  predicate Apart(c: Tiles) {
    forall p, q | p in c && q in c && p < q :: p + c[p].size <= q
  }

  predicate TopApart(c: Tiles, top: int, topsize: nat) {
    forall p | p in c :: p + c[p].size <= top || top + topsize + TOP_FOOT_SIZE <= p
  }

  /** A chunk is followed by a chunk or by top, unless it is a segment record. */
  predicate Followed(c: Tiles, recs: set<int>, top: int) {
    && (forall p {:trigger End(c, p)} | p in c && p !in recs :: End(c, p) in c || End(c, p) == top)
    && (forall p | p in recs :: p in c && c[p].used)
  }

  predicate HeadsOk(c: Tiles, h: Heads) {
    forall p {:trigger HeadAt(h, p)} | p in c :: HeadAt(h, p).size == c[p].size && HeadAt(h, p).cinuse == c[p].used
  }

  predicate UsedNext(c: Tiles, recs: set<int>, h: Heads) {
    forall p {:trigger End(c, p)} | p in c && c[p].used && p !in recs :: HeadAt(h, End(c, p)).pinuse
  }

  /** A free chunk is followed by a chunk in use that knows its size. */
  predicate FreeNext(c: Tiles, h: Heads, f: Ptrs) {
    forall p {:trigger End(c, p)} | p in c && !c[p].used ::
      End(c, p) in c && c[End(c, p)].used && !HeadAt(h, End(c, p)).pinuse && At(f, End(c, p)) == c[p].size
  }

  /** A clear PINUSE bit means the foot leads to a free chunk. */
  predicate PrevFree(c: Tiles, h: Heads, f: Ptrs) {
    forall p {:trigger At(f, p)} | p in c && !HeadAt(h, p).pinuse ::
      p - At(f, p) in c && !c[p - At(f, p)].used && c[p - At(f, p)].size == At(f, p)
  }

  predicate TopTag(c: Tiles, top: int, topsize: nat, h: Heads) {
    if top == 0 then c == map[] && topsize == 0
    else
      && HeadAt(h, top) == Head(topsize, false, true)
      && top > 0 && top % 8 == 0 && topsize > 0 && topsize % 4 == 0
      && top + topsize + TOP_FOOT_SIZE <= TWO32
  }

  ghost predicate TagsOk(g: Tags) {
    && Shapes(g.tiles)
    && Apart(g.tiles)
    && TopApart(g.tiles, g.top, g.topsize)
    && Followed(g.tiles, g.recs, g.top)
    && HeadsOk(g.tiles, g.head)
    && UsedNext(g.tiles, g.recs, g.head)
    && FreeNext(g.tiles, g.head, g.foot)
    && PrevFree(g.tiles, g.head, g.foot)
    && TopTag(g.tiles, g.top, g.topsize, g.head)
  }

  // ----- merging a run of chunks into one chunk in use

  /** Each chunk of r ends at e or where another chunk of r begins. */
  ghost predicate RunLinks(c: Tiles, e: int, r: set<int>)
    requires forall q | q in r :: q in c
  {
    forall q {:trigger End(c, q)} | q in r :: End(c, q) == e || End(c, q) in r
  }

  /** The chunks r are exactly those that lie in [b, e), and they fill it. */
  ghost predicate Run(g: Tags, b: int, e: int, r: set<int>) {
    && b in r && b < e
    && (forall q | q in r :: q in g.tiles && b <= q < e && q + g.tiles[q].size <= e && q !in g.recs)
    && RunLinks(g.tiles, e, r)
    && (e in g.tiles || e == g.top)
  }

  lemma RunLink(g: Tags, b: int, e: int, r: set<int>, q: int)
    requires Run(g, b, e, r) && q in r
    ensures q in g.tiles && (End(g.tiles, q) == e || End(g.tiles, q) in r)
  {}

  lemma RunExact(g: Tags, b: int, e: int, r: set<int>)
    requires Shapes(g.tiles) && Apart(g.tiles) && Run(g, b, e, r)
    ensures forall q | q in g.tiles && b <= q < e :: q in r
    ensures forall q | q in g.tiles && q !in r :: End(g.tiles, q) <= b || e <= q
  {
    forall q | q in g.tiles && b <= q < e ensures q in r { RunReaches(g, b, e, r, q, b); }
    hide RunLinks;
    forall q | q in g.tiles && q !in r ensures End(g.tiles, q) <= b || e <= q { assert b in g.tiles; }
  }

  lemma {:induction false} RunReaches(g: Tags, b: int, e: int, r: set<int>, q: int, p: int)
    requires Shapes(g.tiles) && Apart(g.tiles) && Run(g, b, e, r)
    requires q in g.tiles && p in r && p <= q < e
    ensures q in r
    decreases q - p
  {
    hide RunLinks;
    if p < q {
      assert End(g.tiles, p) <= q;
      RunLink(g, b, e, r, p);
      RunReaches(g, b, e, r, q, End(g.tiles, p));
    }
  }

  function MergeTiles(c: Tiles, b: int, e: int, r: set<int>, used: bool): Tiles
    requires b <= e
  {
    (c - r)[b := Chunk(e - b, used)]
  }

  function MergeTags(g: Tags, b: int, e: int, r: set<int>): Tags
    requires b <= e
  {
    g.(tiles := MergeTiles(g.tiles, b, e, r, true),
       head := g.head[b := Head(e - b, true, HeadAt(g.head, b).pinuse)][e := HeadAt(g.head, e).(pinuse := true)])
  }

  lemma MergeShape(g: Tags, b: int, e: int, r: set<int>)
    requires Shapes(g.tiles) && Apart(g.tiles) && TopApart(g.tiles, g.top, g.topsize)
    requires Followed(g.tiles, g.recs, g.top)
    requires TopTag(g.tiles, g.top, g.topsize, g.head) && Run(g, b, e, r)
    ensures var c := MergeTiles(g.tiles, b, e, r, true);
            Shapes(c) && Apart(c) && TopApart(c, g.top, g.topsize) && Followed(c, g.recs, g.top)
  {
    hide TopApart, Followed;
    RunExact(g, b, e, r);
    RunEnds(g, b, e, r);
    MergeFollowed(g, b, e, r);
    MergeTop(g, b, e, r);
  }

  lemma RunEnds(g: Tags, b: int, e: int, r: set<int>)
    requires Shapes(g.tiles) && Run(g, b, e, r) && TopTag(g.tiles, g.top, g.topsize, g.head)
    ensures b in g.tiles && GoodSize(e - b) && b > 0 && b % 8 == 0 && e <= TWO32 && e % 8 == 0
  {
    hide RunLinks;
    assert End(g.tiles, b) <= e;
  }

  lemma MergeFollowed(g: Tags, b: int, e: int, r: set<int>)
    requires Shapes(g.tiles) && Followed(g.tiles, g.recs, g.top) && Run(g, b, e, r)
    requires forall q | q in g.tiles && q !in r :: End(g.tiles, q) <= b || e <= q
    ensures Followed(MergeTiles(g.tiles, b, e, r, true), g.recs, g.top)
  {
    hide RunLinks, GoodSize;
    var c := MergeTiles(g.tiles, b, e, r, true);
    forall p | p in c && p !in g.recs ensures End(c, p) in c || End(c, p) == g.top {
      if p != b {
        assert End(c, p) == End(g.tiles, p);
      }
    }
  }

  lemma MergeTop(g: Tags, b: int, e: int, r: set<int>)
    requires TopApart(g.tiles, g.top, g.topsize) && Run(g, b, e, r) && Shapes(g.tiles) && Apart(g.tiles)
    requires TopTag(g.tiles, g.top, g.topsize, g.head)
    ensures TopApart(MergeTiles(g.tiles, b, e, r, true), g.top, g.topsize)
  {
    hide RunLinks;
    var c := MergeTiles(g.tiles, b, e, r, true);
    RunSide(g, b, e, r, b);
    forall p | p in c ensures End(c, p) <= g.top || g.top + g.topsize + TOP_FOOT_SIZE <= p {}
  }

  /** A run does not straddle top. */
  lemma {:induction false} RunSide(g: Tags, b: int, e: int, r: set<int>, p: int)
    requires TopApart(g.tiles, g.top, g.topsize) && Run(g, b, e, r) && Shapes(g.tiles) && p in r
    ensures e <= g.top || g.top + g.topsize + TOP_FOOT_SIZE <= p
    decreases e - p
  {
    hide RunLinks;
    RunLink(g, b, e, r, p);
    if End(g.tiles, p) != e { RunSide(g, b, e, r, End(g.tiles, p)); }
  }

  lemma MergeHeads(g: Tags, b: int, e: int, r: set<int>)
    requires HeadsOk(g.tiles, g.head) && Run(g, b, e, r)
    ensures HeadsOk(MergeTags(g, b, e, r).tiles, MergeTags(g, b, e, r).head)
  {
    hide RunLinks;
    var g' := MergeTags(g, b, e, r);
    forall p | p in g'.tiles
      ensures HeadAt(g'.head, p).size == g'.tiles[p].size && HeadAt(g'.head, p).cinuse == g'.tiles[p].used
    {
      assert p != b ==> HeadAt(g.head, p).size == g.tiles[p].size;
    }
  }

  lemma MergeNext(g: Tags, b: int, e: int, r: set<int>)
    requires Shapes(g.tiles) && UsedNext(g.tiles, g.recs, g.head) && FreeNext(g.tiles, g.head, g.foot)
    requires Run(g, b, e, r)
    requires forall q | q in g.tiles && q !in r :: End(g.tiles, q) <= b || e <= q
    ensures var g' := MergeTags(g, b, e, r); UsedNext(g'.tiles, g.recs, g'.head) && FreeNext(g'.tiles, g'.head, g.foot)
  {
    hide RunLinks, GoodSize;
    var g' := MergeTags(g, b, e, r);
    forall p | p in g'.tiles && !g'.tiles[p].used
      ensures var n := End(g'.tiles, p);
              n in g'.tiles && g'.tiles[n].used && !HeadAt(g'.head, n).pinuse && At(g.foot, n) == g'.tiles[p].size
    {
      var n := End(g.tiles, p);
      assert n in g.tiles && n != e;
    }
    forall p | p in g'.tiles && g'.tiles[p].used && p !in g.recs ensures HeadAt(g'.head, End(g'.tiles, p)).pinuse {
      if p != b {
        var n := End(g.tiles, p);
        assert HeadAt(g.head, n).pinuse;
      }
    }
  }

  lemma MergePrev(g: Tags, b: int, e: int, r: set<int>)
    requires Shapes(g.tiles) && PrevFree(g.tiles, g.head, g.foot) && Run(g, b, e, r)
    requires forall q | q in g.tiles && q !in r :: End(g.tiles, q) <= b || e <= q
    ensures var g' := MergeTags(g, b, e, r); PrevFree(g'.tiles, g'.head, g.foot)
  {
    hide RunLinks;
    var g' := MergeTags(g, b, e, r);
    forall p | p in g'.tiles && !HeadAt(g'.head, p).pinuse
      ensures var q := p - At(g.foot, p);
              q in g'.tiles && !g'.tiles[q].used && g'.tiles[q].size == At(g.foot, p)
    {
      var q := p - At(g.foot, p);
      assert !HeadAt(g.head, p).pinuse && p in g.tiles && p != e;
      assert q in g.tiles && End(g.tiles, q) == p;
      if q in r { RunLink(g, b, e, r, q); }
    }
  }

  /** Any run of chunks, free or not, may be turned into one chunk in use. */
  lemma Merge(g: Tags, b: int, e: int, r: set<int>)
    requires TagsOk(g) && Run(g, b, e, r)
    ensures TagsOk(MergeTags(g, b, e, r))
  {
    hide Shapes, Apart, TopApart, Followed, HeadsOk, UsedNext, FreeNext, PrevFree, Run;
    assert b < e && b in g.tiles by { RunEnds(g, b, e, r); RunBounds(g, b, e, r); }
    RunExact(g, b, e, r);
    MergeShape(g, b, e, r);
    MergeHeads(g, b, e, r);
    MergeNext(g, b, e, r);
    MergePrev(g, b, e, r);
    MergeTopTag(g, b, e, r);
  }

  lemma MergeTopTag(g: Tags, b: int, e: int, r: set<int>)
    requires Shapes(g.tiles) && TopApart(g.tiles, g.top, g.topsize) && TopTag(g.tiles, g.top, g.topsize, g.head)
    requires Run(g, b, e, r)
    ensures b < e && TopTag(MergeTags(g, b, e, r).tiles, g.top, g.topsize, MergeTags(g, b, e, r).head)
  {
    hide RunLinks;
    assert b in g.tiles;
  }

  lemma RunBounds(g: Tags, b: int, e: int, r: set<int>)
    requires Run(g, b, e, r)
    ensures b < e && b in g.tiles && b in r
  {}
}
