/**
 malloc_state and the heap it manages.

 Memory is kept by field: head, foot, fd, bk, child, parent and index map a chunk's address to the
 word a chunk at that address would hold.
 */
module State {
  import opened Words
  import opened BitMaps
  import opened Rings
  import opened Tries
  import opened Bins
  import opened Tiling
  import opened Segments
  import opened Keeping

  /** Chunks known to lie above least_addr, with the given sizes in their heads. */
  ghost predicate Known(sz: Sizes, h: Heads, least: int) {
    forall a | a in sz :: a > 0 && a >= least && HeadAt(h, a).size == sz[a] && sz[a] % 8 == 0
  }

  /** dv is a free chunk of size dvsize, or there is none. */
  predicate DvOk(c: Tiles, dv: int, dvsize: nat) {
    (dv == 0 && dvsize == 0) || (dv in c && !c[dv].used && c[dv].size == dvsize)
  }

  /** The binned chunks are the free ones other than dv, but for those in x, which are between bins. */
  ghost predicate Match(sz: Sizes, c: Tiles, dv: int, dvsize: nat, x: set<int>) {
    && DvOk(c, dv, dvsize)
    && (forall a :: a in sz <==> a in c && !c[a].used && a != dv && a !in x)
    && (forall a | a in sz && a in c :: sz[a] == c[a].size)
  }

  class MState {
    // malloc_state
    var smallmap: Word
    var treemap: Word
    var treebins: seq<int>
    var dvsize: nat
    var topsize: nat
    var least: int
    var dv: int
    var top: int
    var trimCheck: nat
    var footprint: nat
    var maxFootprint: nat
    var footprintLimit: nat
    var contiguous: bool
    var segs: seq<Segment>

    // heap words
    var head: Heads
    var foot: Ptrs
    var fd: Ptrs
    var bk: Ptrs
    var child: Kids
    var parent: Ptrs
    var index: map<int, int>

    // what they mean
    ghost var v: BinView
    ghost var tiles: Tiles
    ghost var recs: set<int>

    // what callers keep: see Keeping
    ghost var guard: Guard

    /** The zeroed static state. */
    constructor ()
      ensures Valid() && tiles == map[] && segs == [] && top == 0 && topsize == 0 && footprint == 0 && contiguous
      ensures footprintLimit == 0 && trimCheck == 0
    {
      smallmap, treemap := ZERO, ZERO;
      treebins := seq(32, i => 0);
      dvsize, topsize, least, dv, top := 0, 0, 0, 0, 0;
      trimCheck, footprint, maxFootprint, footprintLimit := 0, 0, 0, 0;
      contiguous := true;
      segs := [];
      head, foot, fd, bk, child, parent, index := map[], map[], map[], map[], map[], map[], map[];
      v := BinView(map[], map[], map[], map[]);
      tiles, recs := map[], {};
      guard := Guard(map[], Cells(map[], map[], map[], map[], map[], map[], map[]));
    }

    function Words(): Cells
      reads this
    {
      Cells(head, foot, fd, bk, child, parent, index)
    }

    ghost function Mem(): BinMem
      reads this
    {
      BinMem(smallmap, treemap, treebins, fd, bk, child, parent, index)
    }

    ghost function G(): Tags
      reads this
    {
      Tags(tiles, recs, top, topsize, head, foot)
    }

    ghost predicate BinsOk()
      reads this
    {
      BinsInv(Mem(), v) && Known(v.sz, head, least)
    }

    /** The heap invariant, while the free chunks of x are in no bin. */
    ghost predicate Pending(x: set<int>)
      reads this
    {
      && BinsOk()
      && TagsOk(G())
      && Match(v.sz, tiles, dv, dvsize, x)
      && SegsOk(segs, least, G())
      && FootprintOk(segs, footprint, maxFootprint)
      && KeptOk(guard, Words(), G())
    }

    /** What every operation keeps. */
    ghost predicate Valid()
      reads this
    {
      Pending({})
    }
  }
}
