/** Which heap words the allocator changes: none that overlaps a block a caller keeps. */
module Keeping {
  import opened Words
  import opened Rings
  import opened Tries
  import opened Bins
  import opened Tiling
  import opened Coalesce

  /** The heap words, by field. */
  datatype Cells = Cells(head: Heads, foot: Ptrs, fd: Ptrs, bk: Ptrs, child: Kids, parent: Ptrs, index: map<int, int>)

  /** The words whose bytes meet [lo, hi) are the same: a chunk's fields lie at offsets 0, 4, 8, 12, 16, 20, 24 and
      28. */
  ghost predicate SameIn(c: Cells, c': Cells, lo: int, hi: int) {
    && (forall a | lo < a + 4 && a < hi :: At(c'.foot, a) == At(c.foot, a))
    && (forall a | lo < a + 8 && a + 4 < hi :: HeadAt(c'.head, a) == HeadAt(c.head, a))
    && (forall a | lo < a + 12 && a + 8 < hi :: At(c'.fd, a) == At(c.fd, a))
    && (forall a | lo < a + 16 && a + 12 < hi :: At(c'.bk, a) == At(c.bk, a))
    && (forall a, b: bool | lo < a + 24 && a + 16 < hi :: Kid(c'.child, a, b) == Kid(c.child, a, b))
    && (forall a | lo < a + 28 && a + 24 < hi :: At(c'.parent, a) == At(c.parent, a))
    && (forall a | lo < a + 32 && a + 28 < hi :: At(c'.index, a) == At(c.index, a))
  }

  /** The blocks callers keep, each with how much of its chunk, and the words as they were. */
  datatype Guard = Guard(kept: map<int, nat>, cells: Cells)

  /** Chunk q is still held, and no word has changed that overlaps what is kept of its memory. */
  ghost predicate KeptOne(k: Guard, c: Cells, g: Tags, q: int) {
    q in k.kept && Held(g, q) && k.kept[q] <= g.tiles[q].size && SameIn(k.cells, c, q + 8, q + k.kept[q] + 4)
  }

  /** How much a segment record takes in the heap. */
  const RECORD_SIZE := 24

  /** What the allocator keeps for itself: the chunks of the segment records, each as add_segment made it. */
  ghost predicate RecordsOk(g: Tags) { forall r | r in g.recs :: r in g.tiles && g.tiles[r].size == RECORD_SIZE }

  ghost predicate KeptOk(k: Guard, c: Cells, g: Tags) {
    RecordsOk(g) && forall q | q in k.kept :: KeptOne(k, c, g, q)
  }

  // ----- an operation, seen from outside

  /** Every chunk held in g but those in x is to be kept whole. */
  function GuardOf(g: Tags, c: Cells, x: set<int>): Guard {
    Guard(map q | q in g.tiles && Held(g, q) && q !in x :: g.tiles[q].size, c)
  }

  /** No word has changed that overlaps the memory of a chunk held in g, those in x excepted. */
  ghost predicate Spared(g: Tags, x: set<int>, c: Cells, c': Cells) {
    forall q | Held(g, q) && q !in x :: SameIn(c, c', q + 8, q + g.tiles[q].size + 4)
  }

  lemma GuardStarts(k: Guard, g: Tags, c: Cells, x: set<int>)
    requires KeptOk(k, c, g)
    ensures KeptOk(GuardOf(g, c, x), c, g)
  {}

  lemma SparedSelf(g: Tags, x: set<int>, c: Cells)
    ensures Spared(g, x, c, c)
  {}

  /** What is new is not kept. */
  lemma GuardNew(g: Tags, c: Cells, x: set<int>, q: int)
    requires !Held(g, q)
    ensures q !in GuardOf(g, c, x).kept
  {}

  lemma GuardSpares(g: Tags, x: set<int>, c: Cells, c': Cells, g': Tags)
    requires KeptOk(GuardOf(g, c, x), c', g')
    ensures Spared(g, x, c, c')
  {
    hide SameIn;
    var k := GuardOf(g, c, x);
    forall q | Held(g, q) && q !in x ensures SameIn(c, c', q + 8, q + g.tiles[q].size + 4) {
      assert q in k.kept;
      assert KeptOne(k, c', g', q);
    }
  }

  // ----- links

  /** Links have changed only in binned chunks and headers, and trie links only in large chunks. */
  ghost predicate LinksIn(m: BinMem, m': BinMem, sz: Sizes) {
    && (forall a | a >= 0 && a !in sz :: At(m'.fd, a) == At(m.fd, a) && At(m'.bk, a) == At(m.bk, a))
    && (forall a | !(a in sz && !IsSmall(sz[a])) ::
          At(m'.parent, a) == At(m.parent, a) && At(m'.index, a) == At(m.index, a))
    && (forall a, b: bool | !(a in sz && !IsSmall(sz[a])) :: Kid(m'.child, a, b) == Kid(m.child, a, b))
  }

  lemma LinksTrans(m: BinMem, m1: BinMem, m2: BinMem, sz: Sizes)
    requires LinksIn(m, m1, sz) && LinksIn(m1, m2, sz)
    ensures LinksIn(m, m2, sz)
  {}

  function WithLinks(c: Cells, m: BinMem): Cells { Cells(c.head, c.foot, m.fd, m.bk, m.child, m.parent, m.index) }

  /** A change of links in free chunks keeps what is kept. */
  lemma LinksKept(k: Guard, c: Cells, g: Tags, m: BinMem, m': BinMem, sz: Sizes)
    requires KeptOk(k, c, g) && Apart(g.tiles) && Shapes(g.tiles) && LinksIn(m, m', sz) && c == WithLinks(c, m)
    requires forall a | a in sz :: a in g.tiles && !g.tiles[a].used && g.tiles[a].size == sz[a]
    ensures KeptOk(k, WithLinks(c, m'), g)
  {
    forall q | q in k.kept ensures KeptOne(k, WithLinks(c, m'), g, q) { LinksKeptAt(k, c, g, m, m', sz, q); }
  }

  lemma LinksKeptAt(k: Guard, c: Cells, g: Tags, m: BinMem, m': BinMem, sz: Sizes, q: int)
    requires KeptOk(k, c, g) && Apart(g.tiles) && Shapes(g.tiles) && LinksIn(m, m', sz) && c == WithLinks(c, m)
    requires q in k.kept
    requires forall a | a in sz :: a in g.tiles && !g.tiles[a].used && g.tiles[a].size == sz[a]
    ensures KeptOne(k, WithLinks(c, m'), g, q)
  {
    hide Shapes, SameIn;
    assert KeptOne(k, c, g, q);
    LinksSame(c, g, m, m', sz, q, k.kept[q]);
    SameTrans(k.cells, c, WithLinks(c, m'), q + 8, q + k.kept[q] + 4);
  }

  lemma SameTrans(c0: Cells, c1: Cells, c2: Cells, lo: int, hi: int)
    requires SameIn(c0, c1, lo, hi) && SameIn(c1, c2, lo, hi)
    ensures SameIn(c0, c2, lo, hi)
  {}

  /** A binned chunk lies outside a chunk in use. */
  lemma BinnedOutside(g: Tags, sz: Sizes, q: int, a: int)
    requires Apart(g.tiles) && Shapes(g.tiles) && q in g.tiles && g.tiles[q].used
    requires a in sz && a in g.tiles && !g.tiles[a].used && g.tiles[a].size == sz[a]
    ensures q > 0 && a > 0 && (q + g.tiles[q].size <= a || a + 16 <= q)
    ensures (!IsSmall(sz[a]) ==> q + g.tiles[q].size <= a || a + 256 <= q)
  {}

  lemma LinksSame(c: Cells, g: Tags, m: BinMem, m': BinMem, sz: Sizes, q: int, n: nat)
    requires Apart(g.tiles) && Shapes(g.tiles) && LinksIn(m, m', sz) && c == WithLinks(c, m)
    requires forall a | a in sz :: a in g.tiles && !g.tiles[a].used && g.tiles[a].size == sz[a]
    requires q in g.tiles && g.tiles[q].used && n <= g.tiles[q].size
    ensures SameIn(c, WithLinks(c, m'), q + 8, q + n + 4)
  {
    assert q > 0;
    forall a | a in sz
      ensures q + g.tiles[q].size <= a || a + 16 <= q
      ensures !IsSmall(sz[a]) ==> q + g.tiles[q].size <= a || a + 256 <= q
    {
      BinnedOutside(g, sz, q, a);
    }
    hide Apart, Shapes;
  }

  // ----- heads and feet

  /** Where a head may be written: at a chunk, or anywhere in top and what is reserved behind it. */
  predicate HeadPlace(g: Tags, a: int) { a in g.tiles || g.top <= a < g.top + g.topsize + TOP_FOOT_SIZE }

  /** Heads have changed only in hs, feet only in fs. */
  ghost predicate TagsIn(g: Tags, g': Tags, hs: iset<int>, fs: set<int>) {
    && (forall a | a !in hs :: HeadAt(g'.head, a) == HeadAt(g.head, a))
    && (forall a | a !in fs :: At(g'.foot, a) == At(g.foot, a))
  }

  /** a is the end of a free chunk. */
  predicate FootPlace(g: Tags, a: int) { exists f | f in g.tiles :: !g.tiles[f].used && End(g.tiles, f) == a }

  function WithTags(c: Cells, g: Tags): Cells { c.(head := g.head, foot := g.foot) }

  lemma HeadOutside(g: Tags, q: int, a: int)
    requires Apart(g.tiles) && TopApart(g.tiles, g.top, g.topsize) && q in g.tiles && HeadPlace(g, a)
    ensures a <= q || q + g.tiles[q].size <= a
  {}

  lemma FootOutside(g: Tags, q: int, a: int)
    requires Apart(g.tiles) && Shapes(g.tiles) && q in g.tiles && g.tiles[q].used && FootPlace(g, a)
    ensures a <= q || q + g.tiles[q].size + 4 <= a
  {}

  /** Tags written where chunks, old or new, begin or free ones end, keep what is kept. */
  lemma TagsKept(k: Guard, c: Cells, g: Tags, g': Tags, hs: iset<int>, fs: set<int>)
    requires KeptOk(k, c, g) && c == WithTags(c, g) && TagsIn(g, g', hs, fs)
    requires Apart(g.tiles) && TopApart(g.tiles, g.top, g.topsize)
    requires Shapes(g'.tiles) && Apart(g'.tiles) && TopApart(g'.tiles, g'.top, g'.topsize)
    requires forall a | a in hs :: HeadPlace(g, a) || HeadPlace(g', a)
    requires forall a | a in fs :: FootPlace(g', a)
    requires forall q | q in k.kept :: Held(g', q) && k.kept[q] <= g'.tiles[q].size
    requires RecordsOk(g')
    ensures KeptOk(k, WithTags(c, g'), g')
  {
    forall q | q in k.kept ensures KeptOne(k, WithTags(c, g'), g', q) { TagsKeptAt(k, c, g, g', hs, fs, q); }
  }

  lemma TagsKeptAt(k: Guard, c: Cells, g: Tags, g': Tags, hs: iset<int>, fs: set<int>, q: int)
    requires KeptOk(k, c, g) && c == WithTags(c, g) && TagsIn(g, g', hs, fs) && q in k.kept
    requires Apart(g.tiles) && TopApart(g.tiles, g.top, g.topsize)
    requires Shapes(g'.tiles) && Apart(g'.tiles) && TopApart(g'.tiles, g'.top, g'.topsize)
    requires forall a | a in hs :: HeadPlace(g, a) || HeadPlace(g', a)
    requires forall a | a in fs :: FootPlace(g', a)
    requires Held(g', q) && k.kept[q] <= g'.tiles[q].size
    ensures KeptOne(k, WithTags(c, g'), g', q)
  {
    hide Shapes, SameIn, Apart, TopApart, HeadPlace, FootPlace, TagsIn;
    assert KeptOne(k, c, g, q);
    forall a | a in hs ensures a <= q || q + k.kept[q] <= a {
      if HeadPlace(g, a) { HeadOutside(g, q, a); } else { HeadOutside(g', q, a); }
    }
    forall a | a in fs ensures a <= q || q + k.kept[q] + 4 <= a { FootOutside(g', q, a); }
    TagsSame(c, g, g', hs, fs, q, k.kept[q]);
    SameTrans(k.cells, c, WithTags(c, g'), q + 8, q + k.kept[q] + 4);
  }

  lemma RetagKept(k: Guard, c: Cells, g: Tags, g': Tags, hs: iset<int>, fs: set<int>)
    requires KeptOk(k, c, g) && c == WithTags(c, g) && TagsIn(g, g', hs, fs) && TagsOk(g) && TagsOk(g')
    requires forall a | a in hs :: HeadPlace(g, a) || HeadPlace(g', a)
    requires forall a | a in fs :: FootPlace(g', a)
    requires forall q | q in k.kept :: Held(g', q) && k.kept[q] <= g'.tiles[q].size
    requires RecordsOk(g')
    ensures KeptOk(k, WithTags(c, g'), g')
  {
    hide KeptOk, HeadPlace, FootPlace, TagsIn, RecordsOk;
    TagsKept(k, c, g, g', hs, fs);
  }

  lemma TagsSame(c: Cells, g: Tags, g': Tags, hs: iset<int>, fs: set<int>, q: int, n: nat)
    requires c == WithTags(c, g) && TagsIn(g, g', hs, fs)
    requires forall a | a in hs :: a <= q || q + n <= a
    requires forall a | a in fs :: a <= q || q + n + 4 <= a
    ensures SameIn(c, WithTags(c, g'), q + 8, q + n + 4)
  {}

  /** Nothing is kept that is not held. */
  lemma NotKept(k: Guard, c: Cells, g: Tags, q: int)
    requires KeptOk(k, c, g) && !Held(g, q)
    ensures q !in k.kept
  {}

  /** In an empty heap nothing is kept. */
  lemma NoneKept(k: Guard, c: Cells, g: Tags, c': Cells, g': Tags)
    requires KeptOk(k, c, g) && g.tiles == map[] && g'.recs == g.recs
    ensures KeptOk(k, c', g')
  {
    assert forall q :: KeptOne(k, c, g, q) ==> false;
  }
}
