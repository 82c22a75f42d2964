/** prepend_alloc: a region that ends where a segment begins serves the request from its bottom. */
module SysPrepend {
  import opened Words
  import opened Rings
  import opened Tries
  import opened Bins
  import opened Tiling
  import opened TagOps
  import opened Segments
  import opened SegOps
  import opened SysOps
  import opened SysSegs
  import opened Coalesce
  import opened State
  import opened Keeping
  import opened Consolidate
  import opened AllocOps
  import opened Freeing
  import opened SysInstall

  /** The tags once p holds the request, the remainder above it still in use. */
  function Prepended(g: Tags, p: int, s: nat, nb: nat): Tags
    requires nb <= s
  {
    SplitTags(AddedChunk(g, p, s), p, nb)
  }

  function Lowered(segs: seq<Segment>, i: nat, tbase: nat, tsize: nat): seq<Segment>
    requires i < |segs|
  {
    segs[i := Segment(tbase, segs[i].size + tsize)]
  }

  lemma PrependSize(segs: seq<Segment>, i: nat, tbase: nat, tsize: nat, nb: nat)
    requires i < |segs| && tbase + tsize == segs[i].base && tsize >= nb + 48 && GoodSize(nb) && segs[i].base <= TWO32
    ensures var p, f := tbase + AlignOffset(tbase), First(segs[i]);
            && tbase <= p && p % 8 == 0 && f % 8 == 0 && f - p >= nb + MIN_CHUNK_SIZE && (f - p - nb) % 8 == 0
            && f <= TWO32
  {
    hide AlignOffset;
    var p, f := tbase + AlignOffset(tbase), First(segs[i]);
    Mod8(f, p);
    Mod8(f - p, nb);
    AlignedUp(segs[i].base);
  }

  /** Aligning up does not pass the end of the address space. */
  lemma AlignedUp(a: nat)
    requires a <= TWO32
    ensures a + AlignOffset(a) <= TWO32
  {}

  lemma PrependTagsOk(segs: seq<Segment>, least: int, g: Tags, i: nat, tbase: nat, tsize: nat, least': int, nb: nat)
    requires TagsOk(g) && SegsOk(segs, least, g) && i < |segs| && GoodSize(nb) && tsize >= nb + 48
    requires FreshRange(segs, tbase, tbase + tsize) && tbase + tsize == segs[i].base && least' <= least
    requires least' <= tbase
    ensures var p, f := tbase + AlignOffset(tbase), First(segs[i]);
            && tbase > 0 && tbase <= p && p % 8 == 0 && f - p >= nb + MIN_CHUNK_SIZE && g.top != 0 && p !in g.tiles
            && p + nb !in g.tiles
            && TagsOk(Prepended(g, p, f - p, nb))
            && SegsOk(Lowered(segs, i, tbase, tsize), least', Prepended(g, p, f - p, nb))
  {
    hide TagsOk, SegsOk, FreshRange, AlignOffset, First;
    var p, f := tbase + AlignOffset(tbase), First(segs[i]);
    PrependBase(segs, least, g, i, tbase, tsize);
    PrependSize(segs, i, tbase, tsize, nb);
    PrependCan(segs, least, g, i, tbase, tsize);
    RecsIn(g);
    PrependSegs(segs, least, g, i, tbase, tsize, least');
    AddChunk(g, p, f - p);
    var g1 := AddedChunk(g, p, f - p);
    Split(g1, p, nb);
    OpenTags(g1);
    SplitSegs(Lowered(segs, i, tbase, tsize), least', g1, p, nb);
    SplitApart(g1, p, nb);
  }

  lemma PrependBase(segs: seq<Segment>, least: int, g: Tags, i: nat, tbase: nat, tsize: nat)
    requires SegsOk(segs, least, g) && i < |segs| && FreshRange(segs, tbase, tbase + tsize)
    ensures 0 < tbase && tbase + tsize <= TWO32 && g.top != 0
  {}

  lemma PrependedMatch(sz: Sizes, g: Tags, dv: int, dvsize: nat, p: int, s: nat, nb: nat, least: int, least': int)
    requires Match(sz, g.tiles, dv, dvsize, {}) && Known(sz, g.head, least) && least' <= least
    requires 0 < nb < s && p !in g.tiles && p + nb !in g.tiles
    ensures var g' := Prepended(g, p, s, nb); Match(sz, g'.tiles, dv, dvsize, {}) && Known(sz, g'.head, least')
  {}

  lemma PrependedLive(g: Tags, p: int, s: nat, nb: nat)
    requires TagsOk(g) && 0 < nb < s && p !in g.tiles && p + nb !in g.tiles
    ensures var g', q := Prepended(g, p, s, nb), p + nb;
            && LiveOf(g') == LiveOf(g) + {p, q} && g'.recs == g.recs && Held(g', q) && HeadAt(g'.head, q).pinuse
            && g'.tiles[q].size == s - nb
            && g'.tiles[p].size == nb
            && p !in LiveOf(g) && q !in LiveOf(g)
            && forall a | a in LiveOf(g) :: a in g.tiles && a in g'.tiles && g'.tiles[a] == g.tiles[a]
  {
    RecsIn(g);
    hide TagsOk;
  }

  method WritePrepended(m: MState, p: int, qsize: nat, nb: nat)
    requires TagsOk(m.G()) && 0 < nb && 0 < qsize && p !in m.tiles && p + nb !in m.tiles
    modifies m`head, m`tiles
    ensures m.G() == Prepended(old(m.G()), p, qsize + nb, nb) && m.Words() == WithTags(old(m.Words()), m.G())
  {
    hide TagsOk, Prepended;
    PrependedIs(m.G(), p, qsize + nb, nb);
    m.head := m.head[p := Head(nb, true, true)][p + nb := Head(qsize, true, true)];
    m.tiles := m.tiles[p := Chunk(nb, true)][p + nb := Chunk(qsize, true)];
  }

  lemma FirstIs(s: Segment)
    ensures First(s) == s.base + AlignOffset(s.base)
  {}

  /** The segment and the tags of the new memory. */
  method PrependTags(m: MState, i: nat, tbase: nat, tsize: nat, nb: nat) returns (p: nat, oldfirst: nat)
    requires Charged(m, tsize) && GoodSize(nb) && tsize >= nb + 48 && m.least <= tbase
    requires i < |m.segs| && FreshRange(m.segs, tbase, tbase + tsize) && tbase + tsize == m.segs[i].base
    modifies m`segs, m`head, m`tiles
    ensures m.Valid() && m.segs == Lowered(old(m.segs), i, tbase, tsize)
    ensures p > 0 && p % 8 == 0 && oldfirst - p >= nb + MIN_CHUNK_SIZE && p !in old(m.tiles) && p + nb !in old(m.tiles)
    ensures m.G() == Prepended(old(m.G()), p, oldfirst - p, nb)
    ensures p == First(Segment(tbase, tsize)) && oldfirst == First(old(m.segs[i]))
  {
    FirstIs(Segment(tbase, tsize));
    hide TagsOk, SegsOk, FreshRange, AlignOffset, First, BinsInv, Known, Match, SumSizes, Prepended, KeptOk;
    ghost var g := m.G();
    PrependTagsOk(m.segs, m.least, g, i, tbase, tsize, m.least, nb);
    SumUpdated(m.segs, i, Segment(tbase, m.segs[i].size + tsize));
    p := tbase + AlignOffset(tbase);
    oldfirst := First(m.segs[i]);
    var qsize := oldfirst - p - nb;
    PrependedMatch(m.v.sz, g, m.dv, m.dvsize, p, oldfirst - p, nb, m.least, m.least);
    PrependedKept(m.guard, m.Words(), g, p, oldfirst - p, nb);
    m.segs := m.segs[i := Segment(tbase, m.segs[i].size + tsize)];
    WritePrepended(m, p, qsize, nb);
  }

  lemma PrependedKept(k: Guard, c: Cells, g: Tags, p: int, s: nat, nb: nat)
    requires KeptOk(k, c, g) && c == WithTags(c, g) && TagsOk(g) && 0 < nb < s && p !in g.tiles && p + nb !in g.tiles
    requires TagsOk(Prepended(g, p, s, nb))
    ensures KeptOk(k, WithTags(c, Prepended(g, p, s, nb)), Prepended(g, p, s, nb))
  {
    hide TagsOk, KeptOk, Prepended;
    var g' := Prepended(g, p, s, nb);
    PrependedIs(g, p, s, nb);
    RecsIn(g);
    TakenStay(k, c, g, g');
    RetagKept(k, c, g, g', iset{p, p + nb}, {});
  }

  lemma PrependedIs(g: Tags, p: int, s: nat, nb: nat)
    requires TagsOk(g) && 0 < nb < s && p !in g.tiles && p + nb !in g.tiles
    ensures Prepended(g, p, s, nb) == g.(
              tiles := g.tiles[p := Chunk(nb, true)][p + nb := Chunk(s - nb, true)],
              head := g.head[p := Head(nb, true, true)][p + nb := Head(s - nb, true, true)])
  {
    RecsIn(g);
    hide TagsOk;
    var g' := Prepended(g, p, s, nb);
    assert g'.tiles == g.tiles[p := Chunk(nb, true)][p + nb := Chunk(s - nb, true)];
    assert g'.head == g.head[p := Head(nb, true, true)][p + nb := Head(s - nb, true, true)];
  }

  /** Consolidating the remainder with the old first chunk. */
  method PrependRest(m: MState, q: int, qsize: nat, oldfirst: int)
    requires m.Valid() && Held(m.G(), q) && q !in m.guard.kept && HeadAt(m.head, q).pinuse && qsize == m.tiles[q].size
    requires oldfirst == q + qsize
    modifies m`smallmap, m`treemap, m`treebins, m`fd, m`bk, m`child, m`parent, m`index, m`v
    modifies m`head, m`foot, m`tiles, m`top, m`topsize, m`dv, m`dvsize
    ensures m.Valid() && Freed(old(m.G()), q, m.G())
    ensures VictimFreed(old(m.G()), q, old(m.dv), old(m.dvsize), m.dv, m.dvsize)
  {
    hide BinsInv, TagsOk, SegsOk, FootprintOk, Known, Match, RunOf, Loose, FreeAfter, KeptOk, VictimFreed;
    ghost var g := m.G();
    Around(m.segs, m.least, g, q);
    DvOf(m.v.sz, m.tiles, m.dv, m.dvsize, {});
    LooseIs(g, q, m.dv, m.dvsize);
    if oldfirst == m.top {
      assert Loose(g, q, m.dv) == {};
      FinishTop(m, q, q, qsize);
    } else if oldfirst == m.dv {
      assert Loose(g, q, m.dv) == {};
      assert m.dvsize == m.tiles[oldfirst].size;
      FinishDv(m, q, q, oldfirst + m.dvsize, qsize + m.dvsize, false);
    } else if !HeadAt(m.head, oldfirst).cinuse {
      var nsize := ChunkSize(m.head, oldfirst);
      UnlinkChunk(m, oldfirst, nsize, {});
      assert {} + {oldfirst} == Loose(g, q, m.dv);
      FinishBin(m, q, q, oldfirst + nsize, qsize + nsize, false);
    } else {
      assert Loose(g, q, m.dv) == {};
      FinishBin(m, q, q, oldfirst, qsize, true);
    }
  }

  /** The victim after a region was put below chunk f: it grows downwards if it is that chunk. */
  ghost predicate VictimLowered(f: int, dv: int, dvsize: nat, q: int, dv': int, dvsize': nat) {
    if dv == f then dv' == q && dv' + dvsize' == dv + dvsize else dv' == dv && dvsize' == dvsize
  }

  lemma FreedLowers(g: Tags, q: int, dv: int, dvsize: nat, dv': int, dvsize': nat)
    requires TagsOk(g) && Held(g, q) && HeadAt(g.head, q).pinuse && DvOk(g.tiles, dv, dvsize) && q != dv
    requires VictimFreed(g, q, dv, dvsize, dv', dvsize')
    ensures VictimLowered(End(g.tiles, q), dv, dvsize, q, dv', dvsize')
  {
    ShapesOf(g);
    TopNotTileOf(g);
    AfterFacts(g, q);
    hide TagsOk;
  }

  /** The victim before and after tags were added. */
  lemma VictimThen(m: MState)
    requires m.Valid()
    ensures DvOk(m.tiles, m.dv, m.dvsize)
  {
    hide SegsOk, BinsInv, Known, FootprintOk, KeptOk, TagsOk;
  }

  /** prepend_alloc */
  method PrependAlloc(m: MState, i: nat, tbase: nat, tsize: nat, nb: nat) returns (mem: int)
    requires Charged(m, tsize) && GoodSize(nb) && tsize >= nb + 48 && m.least <= tbase
    requires i < |m.segs| && FreshRange(m.segs, tbase, tbase + tsize) && tbase + tsize == m.segs[i].base
    modifies m`smallmap, m`treemap, m`treebins, m`fd, m`bk, m`child, m`parent, m`index, m`v
    modifies m`head, m`foot, m`tiles, m`top, m`topsize, m`dv, m`dvsize, m`segs
    ensures m.Valid() && mem > 8 && mem % 8 == 0
    ensures Allocated(old(m.G()), m.G(), mem - 8, nb) && m.segs == Lowered(old(m.segs), i, tbase, tsize)
    ensures mem - 8 == First(Segment(tbase, tsize))
    ensures VictimLowered(First(old(m.segs[i])), old(m.dv), old(m.dvsize), mem - 8 + nb, m.dv, m.dvsize)
  {
    hide TagsOk, SegsOk, BinsInv, Known, Match, SumSizes, FreshRange, FootprintOk, LiveOf, Freed, First, Prepended;
    hide KeptOk, VictimFreed, VictimLowered;
    ghost var g := m.G();
    var p, oldfirst := PrependTags(m, i, tbase, tsize, nb);
    PrependedLive(g, p, oldfirst - p, nb);
    NotKept(m.guard, old(m.Words()), g, p + nb);
    ghost var g1, dv, dvsize := m.G(), m.dv, m.dvsize;
    VictimThen(m);
    PrependRest(m, p + nb, oldfirst - p - nb, oldfirst);
    FreedLive(g1, p + nb, m.G());
    FreedLowers(g1, p + nb, dv, dvsize, m.dv, m.dvsize);
    return p + 8;
  }
}
