/** What freeing does to the chunks callers hold, and the run around a chunk in the common cases. */
module Freeing {
  import opened Words
  import opened Rings
  import opened Tries
  import opened Bins
  import opened Tiling
  import opened Segments
  import opened Coalesce
  import opened State
  import opened Consolidate
  import opened AllocOps

  /** Freeing p ends p's life and no other's. */
  lemma FreedLive(g: Tags, p: int, g': Tags)
    requires TagsOk(g) && Held(g, p) && Freed(g, p, g')
    ensures LiveOf(g') == LiveOf(g) - {p} && g'.recs == g.recs
    ensures forall q | q in LiveOf(g) && q != p :: q in g.tiles && q in g'.tiles && g'.tiles[q] == g.tiles[q]
    ensures RecsKept(g, g')
  {
    hide TagsOk, Back, Fwd;
    RunUsed(g, p);
    RunOfOk(g, p);
    RecsIn(g);
  }

  /** The chunks of segment records are as before. */
  predicate RecsKept(g: Tags, g': Tags) {
    g'.recs == g.recs && forall q | q in g.recs :: q in g.tiles && q in g'.tiles && g'.tiles[q] == g.tiles[q]
  }

  /** Below p is a chunk in use and so is what follows it: p alone becomes the free chunk. */
  lemma PlainRun(g: Tags, p: int, dv: int, dvsize: nat)
    requires TagsOk(g) && Held(g, p) && HeadAt(g.head, p).pinuse && DvOk(g.tiles, dv, dvsize)
    requires End(g.tiles, p) in g.tiles && g.tiles[End(g.tiles, p)].used
    ensures Back(g, p) == p && Fwd(g, p) == End(g.tiles, p) && !FreeAfter(g.tiles, p) && Fwd(g, p) != g.top
    ensures Loose(g, p, dv) == {} && dv !in RunOf(g, p)
  {
    LooseIs(g, p, dv, dvsize);
    TopNotTileOf(g);
    hide TagsOk;
  }

  /** Freeing into a bin rewrites the head at each end of the run and no other. */
  lemma FreedHeads(g: Tags, p: int, g': Tags, a: int)
    requires p in g.tiles && Freed(g, p, g') && Fwd(g, p) != g.top && a != Back(g, p) && a != Fwd(g, p)
    ensures HeadAt(g'.head, a) == HeadAt(g.head, a) && g'.top == g.top && g'.topsize == g.topsize
  {}
}
