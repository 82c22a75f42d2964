/** try_realloc_chunk and dlrealloc. */
module Realloc {
  import opened Words
  import opened Rings
  import opened Tries
  import opened Bins
  import opened Tiling
  import opened TagOps
  import opened Segments
  import opened SegOps
  import opened Coalesce
  import opened State
  import opened Keeping
  import opened Consolidate
  import opened AllocOps
  import opened Freeing
  import opened TopGrow
  import opened GrowRoom
  import opened Sbrk
  import opened Morecore
  import opened Heap
  import opened SysInstall
  import opened SysAsk
  import opened SysAlloc
  import opened Payloads
  import Malloc

  // ----- set_inuse

  function InuseHeads(h: Heads, p: int, s: nat): Heads {
    var h1 := h[p := Head(s, true, HeadAt(h, p).pinuse)];
    h1[p + s := HeadAt(h1, p + s).(pinuse := true)]
  }

  /** set_inuse: the size and CINUSE here, PINUSE in the next head. */
  method SetInuse(m: MState, p: int, s: nat)
    modifies m`head
    ensures m.head == InuseHeads(old(m.head), p, s)
  {
    m.head := m.head[p := Head(s, true, HeadAt(m.head, p).pinuse)];
    m.head := m.head[p + s := HeadAt(m.head, p + s).(pinuse := true)];
  }

  lemma NextHead(g: Tags, p: int)
    requires TagsOk(g) && Held(g, p)
    ensures End(g.tiles, p) in g.head && HeadAt(g.head, End(g.tiles, p)).pinuse && g.tiles[p].size > 0
  {
    hide Apart, TopApart, FreeNext, PrevFree;
    AfterFacts(g, p);
    if End(g.tiles, p) in g.tiles { HeadIn(g, End(g.tiles, p)); }
  }

  // ----- what callers keep

  /** A chunk may change its size as long as what is kept of it stays inside. */
  lemma ResizeStay(k: Guard, c: Cells, g: Tags, g': Tags, p: int)
    requires KeptOk(k, c, g) && Held(g', p) && (p in k.kept ==> k.kept[p] <= g'.tiles[p].size)
    requires forall q | Held(g, q) && q != p :: Held(g', q) && g'.tiles[q] == g.tiles[q]
    requires g'.recs == g.recs && forall r | r in g.recs && r in g.tiles :: r in g'.tiles && g'.tiles[r] == g.tiles[r]
    ensures RecordsOk(g') && forall q | q in k.kept :: Held(g', q) && k.kept[q] <= g'.tiles[q].size
  {
    hide SameIn;
    forall q | q in k.kept ensures Held(g', q) && k.kept[q] <= g'.tiles[q].size { assert KeptOne(k, c, g, q); }
  }

  lemma KeptSize(k: Guard, c: Cells, g: Tags, p: int)
    requires KeptOk(k, c, g) && p in k.kept
    ensures Held(g, p) && k.kept[p] <= g.tiles[p].size
  {
    hide SameIn;
    assert KeptOne(k, c, g, p);
  }

  lemma CutKept(k: Guard, c: Cells, g: Tags, p: int, nb: nat)
    requires KeptOk(k, c, g) && c == WithTags(c, g) && TagsOk(g) && CanSplit(g, p, nb) && TagsOk(SplitTags(g, p, nb))
    requires p + nb !in g.tiles && Held(g, p) && nb > 0 && (p in k.kept ==> k.kept[p] <= nb)
    ensures KeptOk(k, WithTags(c, SplitTags(g, p, nb)), SplitTags(g, p, nb))
  {
    hide TagsOk, KeptOk;
    ResizeStay(k, c, g, SplitTags(g, p, nb), p);
    RetagKept(k, c, g, SplitTags(g, p, nb), iset{p, p + nb}, {});
  }

  lemma GrownTopKept(k: Guard, c: Cells, g: Tags, p: int, nb: nat)
    requires KeptOk(k, c, g) && c == WithTags(c, g) && TagsOk(g) && CanGrowTop(g, p, nb) && TagsOk(GrownTop(g, p, nb))
    ensures KeptOk(k, WithTags(c, GrownTop(g, p, nb)), GrownTop(g, p, nb))
  {
    hide TagsOk, KeptOk, GoodSize;
    if p in k.kept { KeptSize(k, c, g, p); }
    ResizeStay(k, c, g, GrownTop(g, p, nb), p);
    RetagKept(k, c, g, GrownTop(g, p, nb), iset{p, p + nb}, {});
  }

  lemma AbsorbedKept(k: Guard, c: Cells, g: Tags, p: int)
    requires KeptOk(k, c, g) && c == WithTags(c, g) && TagsOk(g) && Held(g, p) && FreeAfter(g.tiles, p)
    requires TagsOk(Absorbed(g, p))
    ensures KeptOk(k, WithTags(c, Absorbed(g, p)), Absorbed(g, p))
  {
    hide TagsOk, KeptOk, Run, GoodSize;
    NextRun(g, p);
    if p in k.kept { KeptSize(k, c, g, p); }
    ResizeStay(k, c, g, Absorbed(g, p), p);
    RetagKept(k, c, g, Absorbed(g, p), iset{p, End(g.tiles, End(g.tiles, p))}, {});
  }

  lemma AbsorbedCutKept(k: Guard, c: Cells, g: Tags, p: int, nb: nat)
    requires KeptOk(k, c, g) && c == WithTags(c, g) && TagsOk(g) && Held(g, p) && FreeAfter(g.tiles, p)
    requires g.tiles[p].size < nb < g.tiles[p].size + g.tiles[End(g.tiles, p)].size && TagsOk(AbsorbedCut(g, p, nb))
    ensures KeptOk(k, WithTags(c, AbsorbedCut(g, p, nb)), AbsorbedCut(g, p, nb))
  {
    hide TagsOk, KeptOk, Run, GoodSize, AbsorbedCut;
    var g' := AbsorbedCut(g, p, nb);
    NextRun(g, p);
    AbsorbedCutIs(g, p, nb);
    CutNotTile(g, p, nb);
    if p in k.kept { KeptSize(k, c, g, p); }
    ResizeStay(k, c, g, g', p);
    var e := End(g.tiles, End(g.tiles, p));
    assert End(g'.tiles, p + nb) == e && !g'.tiles[p + nb].used;
    RetagKept(k, c, g, g', iset{p, p + nb}, {e});
  }

  // ----- cutting a chunk in use

  lemma CutWords(h: Heads, p: int, nb: nat, rsize: nat)
    requires nb > 0 && rsize > 0 && p + nb + rsize in h && HeadAt(h, p + nb + rsize).pinuse
    ensures InuseHeads(InuseHeads(h, p, nb), p + nb, rsize)
        == h[p := Head(nb, true, HeadAt(h, p).pinuse)][p + nb := Head(rsize, true, true)]
  {}

  lemma CutMatch(sz: Sizes, g: Tags, dv: int, dvsize: nat, p: int, nb: nat, least: int)
    requires Match(sz, g.tiles, dv, dvsize, {}) && Known(sz, g.head, least) && Held(g, p) && nb <= g.tiles[p].size
    requires p + nb !in g.tiles
    ensures Match(sz, SplitTags(g, p, nb).tiles, dv, dvsize, {}) && Known(sz, SplitTags(g, p, nb).head, least)
  {}

  method WriteCut(m: MState, p: int, nb: nat, rsize: nat)
    requires p in m.tiles && p !in m.recs && 0 < nb < m.tiles[p].size && rsize == m.tiles[p].size - nb
    requires p + nb + rsize in m.head && HeadAt(m.head, p + nb + rsize).pinuse
    modifies m`head, m`tiles
    ensures m.G() == SplitTags(old(m.G()), p, nb) && m.Words() == WithTags(old(m.Words()), m.G())
  {
    CutWords(m.head, p, nb, rsize);
    SetInuse(m, p, nb);
    SetInuse(m, p + nb, rsize);
    m.tiles := m.tiles[p := Chunk(nb, true)][p + nb := Chunk(rsize, true)];
  }

  /** The same chunk in two pieces, both in use. */
  method CutInUse(m: MState, p: int, nb: nat, rsize: nat)
    requires m.Valid() && Held(m.G(), p) && CanSplit(m.G(), p, nb) && rsize == m.tiles[p].size - nb
    requires p in m.guard.kept ==> m.guard.kept[p] <= nb
    modifies m`head, m`tiles
    ensures m.Valid() && m.G() == SplitTags(old(m.G()), p, nb) && p + nb !in old(m.tiles) && p + nb !in m.recs
  {
    hide TagsOk, SegsOk, BinsInv, Known, Match, FootprintOk, GoodSize, InuseHeads, KeptOk;
    ghost var g := m.G();
    CutOk(m.segs, m.least, g, p, nb);
    CutKept(m.guard, m.Words(), g, p, nb);
    NextHead(g, p);
    CutMatch(m.v.sz, g, m.dv, m.dvsize, p, nb, m.least);
    WriteCut(m, p, nb, rsize);
  }

  lemma CutOk(segs: seq<Segment>, least: int, g: Tags, p: int, nb: nat)
    requires TagsOk(g) && SegsOk(segs, least, g) && CanSplit(g, p, nb)
    ensures TagsOk(SplitTags(g, p, nb)) && SegsOk(segs, least, SplitTags(g, p, nb)) && p + nb !in g.tiles
    ensures p + nb !in g.recs
    ensures g.tiles[p].size > nb > 0
  {
    hide TagsOk, SegsOk;
    OpenTags(g);
    RecsIn(g);
    SplitApart(g, p, nb);
    Split(g, p, nb);
    SplitSegs(segs, least, g, p, nb);
  }

  /** s bytes are all there is for p: its chunk as it was, or with the free chunk after it. */
  predicate WholeRoom(g: Tags, p: int, s: nat)
    requires p in g.tiles
  {
    s == g.tiles[p].size || (FreeAfter(g.tiles, p) && s == g.tiles[p].size + g.tiles[End(g.tiles, p)].size)
  }

  /** p now has nb bytes, or all there are if what is left over would make no chunk; who holds what is otherwise
      unchanged. */
  ghost predicate Resized(g: Tags, g': Tags, p: int, nb: nat) {
    && LiveOf(g') == LiveOf(g) && g'.recs == g.recs && p in g'.tiles && nb <= g'.tiles[p].size < nb + MIN_CHUNK_SIZE
    && p in g.tiles && (g'.tiles[p].size == nb || WholeRoom(g, p, g'.tiles[p].size))
    && forall q | q in LiveOf(g) && q != p :: q in g.tiles && q in g'.tiles && g'.tiles[q] == g.tiles[q]
  }

  /** The victim after p is resized: if it follows p it is what is left of it above p, or none; else it stays. */
  ghost predicate VictimResized(g: Tags, g': Tags, p: int, dv: int, dvsize: nat, dv': int, dvsize': nat)
    requires p in g.tiles && p in g'.tiles
  {
    if dv != End(g.tiles, p) then dv' == dv && dvsize' == dvsize
    else if End(g'.tiles, p) == dv + dvsize then dv' == 0 && dvsize' == 0
    else dv' == End(g'.tiles, p) && dv' + dvsize' == dv + dvsize
  }

  /** p's chunk has its new size where it is, and the victim has made room for it. */
  ghost predicate ResizedHere(g: Tags, g': Tags, p: int, nb: nat, dv: int, dvsize: nat, dv': int, dvsize': nat) {
    Resized(g, g', p, nb) && VictimResized(g, g', p, dv, dvsize, dv', dvsize')
  }

  /** Unless the victim follows p, it stays. */
  lemma VictimStays(g: Tags, g': Tags, p: int, dv: int, dvsize: nat)
    requires p in g.tiles && p in g'.tiles && (dv != End(g.tiles, p) || g'.tiles[p] == g.tiles[p])
    requires DvOk(g.tiles, dv, dvsize) && p > 0 && (dv in g.tiles ==> g.tiles[dv].size > 0)
    ensures VictimResized(g, g', p, dv, dvsize, dv, dvsize)
  {}

  /** A cut leaves the victim alone, or lets it grow down to the cut. */
  lemma CutVictim(g: Tags, p: int, nb: nat, g': Tags, dv: int, dvsize: nat, dv': int, dvsize': nat)
    requires Held(g, p) && 0 < nb < g.tiles[p].size && p + nb !in g.tiles && p + nb !in g.recs && p > 0
    requires TagsOk(SplitTags(g, p, nb)) && DvOk(g.tiles, dv, dvsize) && p in g'.tiles && g'.tiles[p].size == nb
    requires VictimFreed(SplitTags(g, p, nb), p + nb, dv, dvsize, dv', dvsize')
    ensures VictimResized(g, g', p, dv, dvsize, dv', dvsize')
  {
    hide TagsOk;
    var g1 := SplitTags(g, p, nb);
    assert Held(g1, p + nb) && Back(g1, p + nb) == p + nb && End(g1.tiles, p + nb) == End(g.tiles, p);
    if dv == End(g.tiles, p) {
      assert FreeAfter(g1.tiles, p + nb);
      AfterFacts(g1, p + nb);
      TopNotTileOf(g1);
    }
  }

  /** What holds after a cut and the release of the upper piece. */
  lemma CutReleased(g: Tags, p: int, nb: nat, g': Tags)
    requires Held(g, p) && nb <= g.tiles[p].size && p + nb !in g.tiles && p + nb !in g.recs && nb > 0
    requires TagsOk(SplitTags(g, p, nb)) && Freed(SplitTags(g, p, nb), p + nb, g')
    ensures Resized(g, g', p, nb) && g'.tiles[p].size == nb
  {
    hide TagsOk, Freed, GoodSize, SplitTags, WholeRoom;
    CutLive(g, p, nb);
    FreedLive(SplitTags(g, p, nb), p + nb, g');
  }

  lemma CutLive(g: Tags, p: int, nb: nat)
    requires Held(g, p) && nb <= g.tiles[p].size && p + nb !in g.tiles && p + nb !in g.recs && nb > 0
    ensures var g1 := SplitTags(g, p, nb);
            && LiveOf(g1) == LiveOf(g) + {p + nb} && g1.recs == g.recs && Held(g1, p + nb) && p in LiveOf(g)
            && p + nb !in LiveOf(g)
            && p in g1.tiles && g1.tiles[p].size == nb && g1.tiles[p + nb].size == g.tiles[p].size - nb
            && forall q | q in LiveOf(g) && q != p :: q in g.tiles && q in g1.tiles && g1.tiles[q] == g.tiles[q]
  {}

  /** Shrinking: the remainder, if it makes a chunk, goes back. */
  method Shrink(m: MState, p: int, nb: nat)
    requires m.Valid() && Held(m.G(), p) && GoodSize(nb) && nb <= m.tiles[p].size
    requires (p in m.guard.kept ==> m.guard.kept[p] <= nb)
    modifies m`smallmap, m`treemap, m`treebins, m`fd, m`bk, m`child, m`parent, m`index, m`v
    modifies m`head, m`foot, m`tiles, m`top, m`topsize, m`dv, m`dvsize
    ensures m.Valid() && Resized(old(m.G()), m.G(), p, nb)
    ensures m.tiles[p].size == nb || m.tiles[p].size == old(m.tiles[p].size)
    ensures p in m.tiles && VictimResized(old(m.G()), m.G(), p, old(m.dv), old(m.dvsize), m.dv, m.dvsize)
  {
    hide TagsOk, SegsOk, BinsInv, Known, Match, FootprintOk, Freed, KeptOk, VictimFreed, VictimResized;
    ghost var g, dv, dvsize := m.G(), m.dv, m.dvsize;
    ChunkFacts(m.segs, m.least, g, p);
    VictimOf(m, p);
    var rsize := ChunkSize(m.head, p) - nb;
    if rsize >= MIN_CHUNK_SIZE {
      ghost var c := m.Words();
      CutInUse(m, p, nb, rsize);
      NotKept(m.guard, c, g, p + nb);
      DisposeChunk(m, p + nb, rsize);
      CutReleased(g, p, nb, m.G());
      CutVictim(g, p, nb, m.G(), dv, dvsize, m.dv, m.dvsize);
    }
  }

  lemma VictimOf(m: MState, p: int)
    requires m.Valid() && Held(m.G(), p)
    ensures DvOk(m.tiles, m.dv, m.dvsize) && VictimResized(m.G(), m.G(), p, m.dv, m.dvsize, m.dv, m.dvsize)
  {
    hide SegsOk, BinsInv, Known, FootprintOk, KeptOk, TagsOk;
    ShapesOf(m.G());
    VictimStays(m.G(), m.G(), p, m.dv, m.dvsize);
  }

  // ----- growing in place

  lemma GrownTopMatch(sz: Sizes, g: Tags, dv: int, dvsize: nat, p: int, nb: nat, least: int)
    requires TagsOk(g) && Match(sz, g.tiles, dv, dvsize, {}) && Known(sz, g.head, least) && CanGrowTop(g, p, nb)
    ensures Match(sz, GrownTop(g, p, nb).tiles, dv, dvsize, {}) && Known(sz, GrownTop(g, p, nb).head, least)
    ensures Resized(g, GrownTop(g, p, nb), p, nb)
  {
    OpenTags(g);
    GrowTopShape(g, p, nb);
    GrownTopResized(g, p, nb);
    hide TagsOk, Shapes, Apart, TopApart, Followed, TopTag, GoodSize, Resized;
  }

  lemma GrownTopResized(g: Tags, p: int, nb: nat)
    requires CanGrowTop(g, p, nb) && p + nb !in g.tiles
    ensures Resized(g, GrownTop(g, p, nb), p, nb)
  {
    hide GoodSize, HeadAt;
  }

  /** The words of that. */
  method CommitGrowTop(m: MState, p: int, nb: nat)
    requires TagsOk(m.G()) && SegsOk(m.segs, m.least, m.G()) && KeptOk(m.guard, m.Words(), m.G())
    requires CanGrowTop(m.G(), p, nb)
    modifies m`head, m`tiles, m`top, m`topsize
    ensures TagsOk(m.G()) && SegsOk(m.segs, m.least, m.G()) && KeptOk(m.guard, m.Words(), m.G())
    ensures m.G() == GrownTop(old(m.G()), p, nb)
  {
    hide TagsOk, SegsOk, GoodSize, GrownTop, InuseHeads, KeptOk;
    ghost var g := m.G();
    GrownTopWords(g, p, nb);
    GrowTop(g, p, nb);
    GrownTopKept(m.guard, m.Words(), g, p, nb);
    GrowTopSegs(m.segs, m.least, g, p, nb);
    ChunkFacts(m.segs, m.least, g, p);
    var newsize := ChunkSize(m.head, p) + m.topsize;
    var newtopsize := newsize - nb;
    var newtop := p + nb;
    SetInuse(m, p, nb);
    m.head := m.head[newtop := Head(newtopsize, false, true)];
    m.top := newtop;
    m.topsize := newtopsize;
    m.tiles := m.tiles[p := Chunk(nb, true)];
  }

  /** Extending into top. */
  method GrowIntoTop(m: MState, p: int, nb: nat)
    requires m.Valid() && CanGrowTop(m.G(), p, nb)
    modifies m`head, m`tiles, m`top, m`topsize
    ensures m.Valid() && Resized(old(m.G()), m.G(), p, nb)
    ensures p in m.tiles && VictimResized(old(m.G()), m.G(), p, m.dv, m.dvsize, m.dv, m.dvsize)
  {
    hide TagsOk, SegsOk, BinsInv, Known, Match, FootprintOk, GoodSize, Resized, GrownTop, KeptOk, VictimResized;
    BeforeTop(m, p, nb);
    GrownTopWords(m.G(), p, nb);
    GrownTopMatch(m.v.sz, m.G(), m.dv, m.dvsize, p, nb, m.least);
    CommitGrowTop(m, p, nb);
  }

  lemma BeforeTop(m: MState, p: int, nb: nat)
    requires m.Valid() && CanGrowTop(m.G(), p, nb)
    ensures p in m.tiles && forall g': Tags | p in g'.tiles ::
              VictimResized(m.G(), g', p, m.dv, m.dvsize, m.dv, m.dvsize)
  {
    hide SegsOk, BinsInv, Known, FootprintOk, KeptOk, TagsOk, GoodSize;
    ShapesOf(m.G());
    TopNotTileOf(m.G());
  }

  lemma GrownTopWords(g: Tags, p: int, nb: nat)
    requires CanGrowTop(g, p, nb)
    ensures GrownTop(g, p, nb).head
        == InuseHeads(g.head, p, nb)[p + nb := Head(g.tiles[p].size + g.topsize - nb, false, true)]
    ensures var g' := GrownTop(g, p, nb);
            && g'.tiles == g.tiles[p := Chunk(nb, true)] && g'.top == p + nb
            && g'.topsize == g.tiles[p].size + g.topsize - nb
            && g'.recs == g.recs && g'.foot == g.foot
  {}

  lemma AbsorbedKnown(sz: Sizes, g: Tags, h: Heads, dv: int, dvsize: nat, x: set<int>, least: int, p: int)
    requires TagsOk(g) && Held(g, p) && FreeAfter(g.tiles, p) && Match(sz, g.tiles, dv, dvsize, x)
    requires Known(sz, g.head, least)
    requires forall q | q in g.tiles && q != p && q != End(g.tiles, End(g.tiles, p)) ::
               HeadAt(h, q) == HeadAt(g.head, q)
    ensures Known(sz, h, least)
  {
    NextRun(g, p);
    hide TagsOk, Run, GoodSize;
  }

  lemma AbsorbedResized(g: Tags, g': Tags, p: int, nb: nat)
    requires Held(g, p) && FreeAfter(g.tiles, p) && LiveOf(g') == LiveOf(g) && g'.recs == g.recs
    requires g' == Absorbed(g, p)
    requires forall q | q in LiveOf(g) && q != p :: q in g.tiles && q in g'.tiles && g'.tiles[q] == g.tiles[q]
    requires nb <= g.tiles[p].size + g.tiles[End(g.tiles, p)].size < nb + MIN_CHUNK_SIZE
    ensures Resized(g, g', p, nb)
  {}

  /** The free chunk after p, in no bin or the victim, joins p. */
  method TakeNext(m: MState, p: int, newsize: nat)
    requires TagsOk(m.G()) && SegsOk(m.segs, m.least, m.G()) && Held(m.G(), p) && FreeAfter(m.tiles, p)
    requires newsize == m.tiles[p].size + m.tiles[End(m.tiles, p)].size && KeptOk(m.guard, m.Words(), m.G())
    modifies m`head, m`tiles
    ensures KeptOk(m.guard, m.Words(), m.G())
    ensures m.G() == Absorbed(old(m.G()), p) && TagsOk(m.G()) && SegsOk(m.segs, m.least, m.G())
    ensures forall q | q in old(m.tiles) && q != p && q != p + newsize :: HeadAt(m.head, q) == HeadAt(old(m.head), q)
  {
    hide TagsOk, SegsOk, KeptOk;
    ghost var g := m.G();
    Absorb(m.segs, m.least, g, p);
    AbsorbedKept(m.guard, m.Words(), g, p);
    SetInuse(m, p, newsize);
    m.tiles := Absorbed(g, p).tiles;
    assert m.head == Absorbed(g, p).head;
  }

  /** The whole victim is absorbed. */
  method GrowExhaustDv(m: MState, p: int, nb: nat)
    requires m.Valid() && Held(m.G(), p) && FreeAfter(m.tiles, p) && End(m.tiles, p) == m.dv
    requires nb <= m.tiles[p].size + m.dvsize < nb + MIN_CHUNK_SIZE
    modifies m`head, m`tiles, m`dv, m`dvsize
    ensures m.Valid() && Resized(old(m.G()), m.G(), p, nb)
    ensures p in m.tiles && m.dv == 0 && m.dvsize == 0 && End(m.tiles, p) == old(m.dv) + old(m.dvsize)
  {
    hide TagsOk, SegsOk, BinsInv, Known, Match, FootprintOk, Resized, Absorbed, LiveOf, KeptOk;
    AbsorbedSize(m.G(), p);
    ghost var g := m.G();
    DvOf(m.v.sz, m.tiles, m.dv, m.dvsize, {});
    NextRun(g, p);
    AbsorbMatch(m.v.sz, g, m.dv, m.dvsize, p);
    Absorb(m.segs, m.least, g, p);
    ChunkFacts(m.segs, m.least, g, p);
    var newsize := ChunkSize(m.head, p) + m.dvsize;
    ghost var dv, dvsize := m.dv, m.dvsize;
    TakeNext(m, p, newsize);
    AbsorbedKnown(m.v.sz, g, m.head, dv, dvsize, {}, m.least, p);
    AbsorbedResized(g, m.G(), p, nb);
    m.dvsize := 0;
    m.dv := 0;
  }

  /** What cutting the victim for p leaves. */
  lemma SplitDvOk(segs: seq<Segment>, least: int, g: Tags, p: int, nb: nat, dsize: nat, sz: Sizes, dv: int, dvsize: nat)
    requires TagsOk(g) && SegsOk(segs, least, g) && Match(sz, g.tiles, dv, dvsize, {})
    requires Held(g, p) && FreeAfter(g.tiles, p) && End(g.tiles, p) == dv && GoodSize(nb)
    requires g.tiles[p].size < nb && nb + dsize == g.tiles[p].size + dvsize && dsize >= MIN_CHUNK_SIZE
    ensures dvsize == g.tiles[dv].size
    ensures TagsOk(AbsorbedCut(g, p, nb)) && SegsOk(segs, least, AbsorbedCut(g, p, nb))
    ensures Match(sz, AbsorbedCut(g, p, nb).tiles, p + nb, dsize, {})
    ensures Resized(g, AbsorbedCut(g, p, nb), p, nb)
  {
    hide TagsOk, SegsOk, Match, Resized, AbsorbedCut;
    DvOf(sz, g.tiles, dv, dvsize, {});
    NextRun(g, p);
    ChunkFacts(segs, least, g, p);
    ChunkFacts(segs, least, g, dv);
    CutNotTile(g, p, nb);
    AbsorbCut(segs, least, g, p, nb);
    AbsorbCutMatch(sz, g, dv, dvsize, p, nb);
    AbsorbedCutResized(g, p, nb);
  }

  lemma AbsorbedCutResized(g: Tags, p: int, nb: nat)
    requires TagsOk(g) && Held(g, p) && FreeAfter(g.tiles, p) && nb > 0
    requires g.tiles[p].size < nb < g.tiles[p].size + g.tiles[End(g.tiles, p)].size
    ensures Resized(g, AbsorbedCut(g, p, nb), p, nb)
  {
    AbsorbedCutIs(g, p, nb);
    CutNotTile(g, p, nb);
    hide TagsOk, AbsorbedCut;
  }

  lemma AbsorbedCutSize(g: Tags, p: int, nb: nat)
    requires TagsOk(g) && Held(g, p) && FreeAfter(g.tiles, p) && nb > 0
    requires g.tiles[p].size < nb < g.tiles[p].size + g.tiles[End(g.tiles, p)].size
    ensures p in AbsorbedCut(g, p, nb).tiles && AbsorbedCut(g, p, nb).tiles[p].size == nb
  {
    AbsorbedCutIs(g, p, nb);
    hide TagsOk, AbsorbedCut;
  }

  /** The victim loses its first bytes. */
  method GrowSplitDv(m: MState, p: int, nb: nat, dsize: nat)
    requires m.Valid() && Held(m.G(), p) && FreeAfter(m.tiles, p) && End(m.tiles, p) == m.dv && GoodSize(nb)
    requires m.tiles[p].size < nb && nb + dsize == m.tiles[p].size + m.dvsize && dsize >= MIN_CHUNK_SIZE
    modifies m`head, m`foot, m`tiles, m`dv, m`dvsize
    ensures m.Valid() && Resized(old(m.G()), m.G(), p, nb) && m.tiles[p].size == nb
    ensures p in m.tiles && m.dv == p + nb && m.dvsize == dsize
  {
    hide TagsOk, SegsOk, BinsInv, Known, Match, FootprintOk, Resized, LiveOf, AbsorbedCut, KeptOk, GoodSize, HeadAt;
    ghost var g := m.G();
    SplitDvOk(m.segs, m.least, g, p, nb, dsize, m.v.sz, m.dv, m.dvsize);
    AbsorbedCutSize(g, p, nb);
    WriteSplitDv(m, p, nb, dsize);
    AbsorbedKnown(m.v.sz, g, m.head, old(m.dv), old(m.dvsize), {}, m.least, p);
    m.dvsize := dsize;
    m.dv := p + nb;
  }

  /** set_inuse(p, nb), the remainder's tags, and clear_pinuse of what follows it. */
  method WriteSplitDv(m: MState, p: int, nb: nat, dsize: nat)
    requires TagsOk(m.G()) && Held(m.G(), p) && FreeAfter(m.tiles, p) && dsize > 0
    requires m.tiles[p].size < nb && nb + dsize == m.tiles[p].size + m.tiles[End(m.tiles, p)].size
    requires KeptOk(m.guard, m.Words(), m.G()) && TagsOk(AbsorbedCut(m.G(), p, nb))
    modifies m`head, m`foot, m`tiles
    ensures KeptOk(m.guard, m.Words(), m.G())
    ensures m.G() == AbsorbedCut(old(m.G()), p, nb)
    ensures forall q | q in old(m.tiles) && q != p && q != p + nb + dsize :: HeadAt(m.head, q) == HeadAt(old(m.head), q)
  {
    hide TagsOk, AbsorbedCut, Run, GoodSize, KeptOk;
    ghost var g := m.G();
    AbsorbedCutKept(m.guard, m.Words(), g, p, nb);
    NextRun(g, p);
    CutNotTile(g, p, nb);
    AbsorbedCutIs(g, p, nb);
    AbsorbedCutTop(g, p, nb);
    var r := p + nb;
    var n := r + dsize;
    SetInuse(m, p, nb);
    m.head := m.head[r := Head(dsize, false, true)];
    m.foot := m.foot[n := dsize];
    m.head := m.head[n := HeadAt(m.head, n).(pinuse := false)];
    m.tiles := AbsorbedCut(g, p, nb).tiles;
    assert m.head == AbsorbedCut(g, p, nb).head;
  }

  lemma AbsorbedCutTop(g: Tags, p: int, nb: nat)
    requires p in g.tiles && FreeAfter(g.tiles, p) && nb <= g.tiles[p].size + g.tiles[End(g.tiles, p)].size
    requires End(Absorbed(g, p).tiles, p) == End(g.tiles, End(g.tiles, p))
    ensures AbsorbedCut(g, p, nb).top == g.top && AbsorbedCut(g, p, nb).topsize == g.topsize
  {}

  /** Extending into the next free chunk, which leaves its bin; what p does not need goes back. */
  method GrowOverFree(m: MState, p: int, nb: nat)
    requires m.Valid() && Held(m.G(), p) && FreeAfter(m.tiles, p) && End(m.tiles, p) != m.dv && GoodSize(nb)
    requires m.tiles[p].size < nb <= m.tiles[p].size + m.tiles[End(m.tiles, p)].size
    modifies m`smallmap, m`treemap, m`treebins, m`fd, m`bk, m`child, m`parent, m`index, m`v
    modifies m`head, m`foot, m`tiles, m`top, m`topsize, m`dv, m`dvsize
    ensures m.Valid() && Resized(old(m.G()), m.G(), p, nb)
    ensures p in m.tiles && VictimResized(old(m.G()), m.G(), p, old(m.dv), old(m.dvsize), m.dv, m.dvsize)
  {
    hide TagsOk, SegsOk, BinsInv, Known, Match, FootprintOk, Resized, Absorbed, LiveOf, KeptOk, VictimResized;
    VictimOf(m, p);
    ghost var g := m.G();
    AfterAbsorb(g, p, m.dv, m.dvsize);
    NextRun(g, p);
    ChunkFacts(m.segs, m.least, g, p);
    var oldsize := ChunkSize(m.head, p);
    var next := p + oldsize;
    ChunkFacts(m.segs, m.least, g, next);
    var nextsize := ChunkSize(m.head, next);
    Absorb(m.segs, m.least, g, p);
    UnlinkChunk(m, next, nextsize, {});
    assert {} + {next} == {next};
    AbsorbMatch(m.v.sz, g, m.dv, m.dvsize, p);
    TakeNext(m, p, oldsize + nextsize);
    AbsorbedKnown(m.v.sz, g, m.head, m.dv, m.dvsize, {next}, m.least, p);
    AbsorbedSize(g, p);
    ghost var g1 := m.G();
    if p in m.guard.kept { KeptSize(m.guard, old(m.Words()), g, p); }
    Shrink(m, p, nb);
    ResizedOver(g, g1, m.G(), p, nb);
    VictimOver(g, g1, m.G(), p, old(m.dv), old(m.dvsize), m.dv, m.dvsize);
  }

  lemma AbsorbedSize(g: Tags, p: int)
    requires TagsOk(g) && Held(g, p) && FreeAfter(g.tiles, p)
    ensures p in Absorbed(g, p).tiles && Absorbed(g, p).tiles[p].size == g.tiles[p].size + g.tiles[End(g.tiles, p)].size
  {
    NextRun(g, p);
    hide TagsOk, Run;
  }

  /** What follows p then is in use, and not the victim. */
  lemma AfterAbsorb(g: Tags, p: int, dv: int, dvsize: nat)
    requires TagsOk(g) && Held(g, p) && FreeAfter(g.tiles, p) && DvOk(g.tiles, dv, dvsize)
    ensures p in Absorbed(g, p).tiles && dv != End(Absorbed(g, p).tiles, p)
  {
    AbsorbedSize(g, p);
    AfterFacts(g, p);
    ShapesOf(g);
    hide TagsOk, Absorbed;
  }

  lemma ResizedOver(g: Tags, g1: Tags, g2: Tags, p: int, nb: nat)
    requires LiveOf(g1) == LiveOf(g) && g1.recs == g.recs && Resized(g1, g2, p, nb)
    requires p in g.tiles && WholeRoom(g, p, g1.tiles[p].size)
    requires g2.tiles[p].size == nb || g2.tiles[p].size == g1.tiles[p].size
    requires forall q | q in LiveOf(g) && q != p :: q in g.tiles && q in g1.tiles && g1.tiles[q] == g.tiles[q]
    ensures Resized(g, g2, p, nb)
  {
    hide WholeRoom;
  }

  lemma VictimOver(g: Tags, g1: Tags, g2: Tags, p: int, dv: int, dvsize: nat, dv': int, dvsize': nat)
    requires p in g.tiles && p in g1.tiles && p in g2.tiles && dv != End(g.tiles, p) && dv != End(g1.tiles, p)
    requires VictimResized(g1, g2, p, dv, dvsize, dv', dvsize')
    ensures VictimResized(g, g2, p, dv, dvsize, dv', dvsize')
  {}

  /** Growing over the victim. */
  method GrowOverDv(m: MState, p: int, nb: nat)
    requires m.Valid() && Held(m.G(), p) && FreeAfter(m.tiles, p) && End(m.tiles, p) == m.dv && GoodSize(nb)
    requires m.tiles[p].size < nb <= m.tiles[p].size + m.dvsize
    modifies m`head, m`foot, m`tiles, m`dv, m`dvsize
    ensures m.Valid() && Resized(old(m.G()), m.G(), p, nb)
    ensures p in m.tiles && VictimResized(old(m.G()), m.G(), p, old(m.dv), old(m.dvsize), m.dv, m.dvsize)
  {
    hide TagsOk, SegsOk, BinsInv, Known, Match, FootprintOk, Resized, KeptOk;
    ChunkFacts(m.segs, m.least, m.G(), p);
    var dsize := ChunkSize(m.head, p) + m.dvsize - nb;
    if dsize >= MIN_CHUNK_SIZE {
      GrowSplitDv(m, p, nb, dsize);
    } else {
      GrowExhaustDv(m, p, nb);
    }
  }

  // ----- try_realloc_chunk

  lemma ReallocFacts(m: MState, p: int)
    requires m.Valid() && Held(m.G(), p)
    ensures var next := End(m.tiles, p);
            && p >= m.least && HeadAt(m.head, p).cinuse && ChunkSize(m.head, p) == m.tiles[p].size && p < next
            && HeadAt(m.head, next).pinuse
            && (next == m.top ==> !FreeAfter(m.tiles, p) && m.top != 0)
            && (next == m.dv ==> FreeAfter(m.tiles, p) && m.dvsize == m.tiles[next].size)
            && (next != m.top ==> HeadAt(m.head, next).cinuse == !FreeAfter(m.tiles, p))
            && (FreeAfter(m.tiles, p) ==> ChunkSize(m.head, next) == m.tiles[next].size)
  {
    hide SegsOk, BinsInv, Known, FootprintOk, TagsOk, KeptOk;
    Around(m.segs, m.least, m.G(), p);
    ChunkFacts(m.segs, m.least, m.G(), p);
    NextHead(m.G(), p);
  }

  /** try_realloc_chunk: in place whenever p and the free space after it allow it; otherwise nothing happens. */
  method TryReallocChunk(m: MState, p: int, nb: nat) returns (newp: int)
    requires m.Valid() && Held(m.G(), p) && GoodSize(nb) && (p in m.guard.kept ==> m.guard.kept[p] <= nb)
    modifies m`smallmap, m`treemap, m`treebins, m`fd, m`bk, m`child, m`parent, m`index, m`v
    modifies m`head, m`foot, m`tiles, m`top, m`topsize, m`dv, m`dvsize
    ensures m.Valid() && (newp == 0 || newp == p) && p > 0
    ensures newp != 0 <==> CanResize(old(m.G()), p, nb)
    ensures newp != 0 <==> HasRoom(old(m.segs), old(m.G()), p, nb)
    ensures newp == 0 ==> m.G() == old(m.G()) && m.Words() == old(m.Words())
    ensures newp != 0 ==> Resized(old(m.G()), m.G(), p, nb)
    ensures p in m.tiles && VictimResized(old(m.G()), m.G(), p, old(m.dv), old(m.dvsize), m.dv, m.dvsize)
  {
    hide TagsOk, SegsOk, BinsInv, Known, Match, FootprintOk, Resized, LiveOf, GoodSize, KeptOk, VictimResized;
    VictimOf(m, p);
    ResizeExact(m.segs, m.least, m.G(), p, nb);
    hide HasRoom;
    ReallocFacts(m, p);
    ChunkFacts(m.segs, m.least, m.G(), p);
    newp := 0;
    var oldsize := ChunkSize(m.head, p);
    var next := p + oldsize;
    if !(p >= m.least && HeadAt(m.head, p).cinuse && p < next && HeadAt(m.head, next).pinuse) {
      assert false;
    } else if oldsize >= nb {
      Shrink(m, p, nb);
      newp := p;
    } else if next == m.top {
      if oldsize + m.topsize > nb {
        GrowIntoTop(m, p, nb);
        newp := p;
      }
    } else if next == m.dv {
      if oldsize + m.dvsize >= nb {
        GrowOverDv(m, p, nb);
        newp := p;
      }
    } else if !HeadAt(m.head, next).cinuse {
      if oldsize + ChunkSize(m.head, next) >= nb {
        GrowOverFree(m, p, nb);
        newp := p;
      }
    }
  }

  /** try_realloc_chunk, with what it leaves alone: all that other callers keep, and p's memory up to the smaller
      size. */
  method ReallocChunk(m: MState, p: int, nb: nat) returns (newp: int)
    requires m.Valid() && Held(m.G(), p) && GoodSize(nb)
    modifies m`smallmap, m`treemap, m`treebins, m`fd, m`bk, m`child, m`parent, m`index, m`v
    modifies m`head, m`foot, m`tiles, m`top, m`topsize, m`dv, m`dvsize, m`guard
    ensures m.Valid() && (newp == 0 || newp == p) && p > 0
    ensures newp != 0 <==> CanResize(old(m.G()), p, nb)
    ensures newp != 0 <==> HasRoom(old(m.segs), old(m.G()), p, nb)
    ensures newp == 0 ==> m.G() == old(m.G()) && m.Words() == old(m.Words())
    ensures newp != 0 ==> Resized(old(m.G()), m.G(), p, nb)
    ensures p in m.tiles && VictimResized(old(m.G()), m.G(), p, old(m.dv), old(m.dvsize), m.dv, m.dvsize)
    ensures Spared(old(m.G()), {p}, old(m.Words()), m.Words())
    ensures SameIn(old(m.Words()), m.Words(), p + 8, p + Min(old(m.tiles[p].size), nb) + 4)
  {
    hide HasRoom;
    hide TagsOk, SegsOk, BinsInv, Known, Match, FootprintOk, Resized, LiveOf, GoodSize, KeptOk, CanResize, Spared;
    hide SameIn, GuardWith, VictimResized;
    ghost var g, c := m.G(), m.Words();
    m.guard := GuardWith(g, c, p, Min(m.tiles[p].size, nb));
    GuardWithStarts(old(m.guard), g, c, p, Min(m.tiles[p].size, nb));
    newp := TryReallocChunk(m, p, nb);
    GuardWithSpares(g, c, p, Min(g.tiles[p].size, nb), m.Words(), m.G());
  }

  /** Everything is to be kept, of p's chunk the first n bytes. */
  function GuardWith(g: Tags, c: Cells, p: int, n: nat): Guard {
    GuardOf(g, c, {p}).(kept := GuardOf(g, c, {p}).kept[p := n])
  }

  lemma GuardWithStarts(k: Guard, g: Tags, c: Cells, p: int, n: nat)
    requires KeptOk(k, c, g) && Held(g, p) && n <= g.tiles[p].size
    ensures KeptOk(GuardWith(g, c, p, n), c, g) && GuardWith(g, c, p, n).kept[p] == n
  {}

  lemma GuardWithSpares(g: Tags, c: Cells, p: int, n: nat, c': Cells, g': Tags)
    requires KeptOk(GuardWith(g, c, p, n), c', g')
    ensures Spared(g, {p}, c, c') && SameIn(c, c', p + 8, p + n + 4)
  {
    hide SameIn;
    var k := GuardWith(g, c, p, n);
    forall q | Held(g, q) && q != p ensures SameIn(c, c', q + 8, q + g.tiles[q].size + 4) {
      assert q in k.kept;
      assert KeptOne(k, c', g', q);
    }
    assert KeptOne(k, c', g', p);
  }

  function Min(a: nat, b: nat): (c: nat)
    ensures c <= a && c <= b && (c == a || c == b)
  {
    if a < b then a else b
  }

  // ----- moving a block

  /** A new chunk's bytes are nobody else's. */
  lemma PayloadApart(g: Tags, g': Tags, p: int, nb: nat, q: int, a: int)
    requires TagsOk(g') && Allocated(g, g', p, nb) && q in LiveOf(g) && q in g.tiles && Within(g, q, a)
    ensures p in g'.tiles && (a < p + 8 || p + 8 + (nb - CHUNK_OVERHEAD) <= a)
  {}

  lemma NewApart(g: Tags, g': Tags, p: int, nb: nat, n: nat, b: map<int, int>, b': map<int, int>)
    requires TagsOk(g') && Allocated(g, g', p, nb) && n + CHUNK_OVERHEAD <= nb
    requires forall a | a < p + 8 || p + 8 + n <= a :: Byte(b', a) == Byte(b, a)
    ensures BytesKept(g, 0, b, b')
  {
    hide TagsOk, Allocated;
    forall q, a | q in LiveOf(g) && q != 0 && q in g.tiles && Within(g, q, a) ensures Byte(b', a) == Byte(b, a) {
      PayloadApart(g, g', p, nb, q, a);
    }
  }

  /** The old and the new block of a copy do not overlap. */
  lemma CopyApart(g: Tags, g': Tags, p: int, nb: nat, oldp: int, n: nat)
    requires TagsOk(g) && TagsOk(g') && Allocated(g, g', p, nb) && oldp in LiveOf(g) && n + CHUNK_OVERHEAD <= nb
    requires n + CHUNK_OVERHEAD <= g.tiles[oldp].size
    ensures (p + 8) + n <= oldp + 8 || (oldp + 8) + n <= p + 8
  {}

  /** oldp's block has become p's: at least bytes long, starting with the old contents; other blocks are untouched. */
  ghost predicate BlockMoved(g: Tags, g': Tags, oldp: int, p: int, bytes: nat, b: map<int, int>, b': map<int, int>) {
    && oldp in g.tiles && p in g'.tiles && LiveOf(g') == LiveOf(g) - {oldp} + {p} && (p != oldp ==> p !in LiveOf(g))
    && g'.tiles[p].size >= bytes + CHUNK_OVERHEAD
    && g.tiles[oldp].size >= CHUNK_OVERHEAD
    && (forall a | p + 8 <= a < p + 8 + bytes && a < p + 8 + g.tiles[oldp].size - CHUNK_OVERHEAD ::
          Byte(b', a) == Byte(b, a - p + oldp))
    && (forall q | q in LiveOf(g) && q != oldp :: q in g.tiles && q in g'.tiles && g'.tiles[q] == g.tiles[q])
    && BytesKept(g, oldp, b, b')
  }

  /** The block has room for bytes, or its chunk can grow where it is. */
  ghost predicate InPlace(g: Tags, mem: int, bytes: nat) {
    mem - 8 in LiveOf(g) && mem - 8 in g.tiles && bytes < MAX_REQUEST && CanResize(g, mem - 8, Request2Size(bytes))
  }

  /** What a move makes of the position: an allocation, then the old block is freed. */
  ghost predicate MovedTo(g: Tags, p: Position, bytes: nat, x: int, y: int, p': Position) {
    exists g1: Tags, p1: Position ::
      && Coherent(g1, p1) && Allocated(g, g1, y, Request2Size(bytes)) && MallocBy(g, p, bytes, p1)
      && x in g1.tiles && FreedBy(g1, x, p1, p')
  }

  lemma MovedOn(g: Tags, p: Position, bytes: nat, x: int, y: int, g1: Tags, p1: Position, p': Position)
    requires Coherent(g1, p1) && Allocated(g, g1, y, Request2Size(bytes)) && MallocBy(g, p, bytes, p1)
    requires x in g1.tiles && FreedBy(g1, x, p1, p')
    ensures MovedTo(g, p, bytes, x, y, p')
  {
    hide Coherent, Allocated, MallocBy, FreedBy;
  }

  /** What dlrealloc makes of the position. */
  ghost predicate ReallocBy(g: Tags, p: Position, oldmem: int, bytes: nat, mem: int, p': Position) {
    if InPlace(g, oldmem, bytes) || (oldmem != 0 && bytes >= MAX_REQUEST) then SameTerms(p, p')
    else if oldmem == 0 || mem == 0 then MallocBy(g, p, bytes, p')
    else MovedTo(g, p, bytes, oldmem - 8, mem - 8, p')
  }

  /** Allocate, copy, free. */
  method MoveBlock(m: MState, sys: System, ram: Payload, oldmem: int, bytes: nat) returns (ok: bool, mem: int)
    requires m.Valid() && sys.Free(m.segs) && oldmem - 8 in LiveOf(m.G()) && bytes < MAX_REQUEST
    modifies m, sys, ram`bytes
    ensures m.Valid() && sys.Free(m.segs)
    ensures ok <==> !Strays(old(m.G()), old(Asking(m, sys)), bytes)
    ensures mem != 0 <==> Granted(old(m.G()), old(Asking(m, sys)), bytes)
    ensures if mem == 0 then MallocBy(old(m.G()), old(Asking(m, sys)), bytes, Asking(m, sys))
            else MovedTo(old(m.G()), old(Asking(m, sys)), bytes, oldmem - 8, mem - 8, Asking(m, sys))
    ensures mem == 0 && !TakesShort(old(m.G()), old(Asking(m, sys)), bytes) ==> m.G() == old(m.G())
    ensures mem != oldmem || mem == 0
    ensures mem == 0 ==> SameLive(old(m.G()), m.G()) && BytesKept(old(m.G()), 0, old(ram.bytes), ram.bytes)
    ensures mem != 0 ==>
              && mem > 8 && mem % 8 == 0
              && BlockMoved(old(m.G()), m.G(), oldmem - 8, mem - 8, bytes, old(ram.bytes), ram.bytes)
  {
    hide TagsOk, SegsOk, BinsInv, Known, Match, FootprintOk, LiveOf, Request2Size, Allocated, Released, BytesKept;
    hide Spare, NothingFits, KeptOk;
    hide SameLive, Spared, Picked, GuardOf, Touched, BlockMoved, StaysSmall, Copied;
    hide MallocBy, FreedBy, MovedTo, Coherent, Granted, Strays, TakesShort, Asking;
    ghost var g, b := m.G(), ram.bytes;
    var oldp, c := oldmem - 8, m.Words();
    ok, mem := Dlmalloc(m, sys, bytes);
    Overwrite(ram, c, m.Words());
    AllSpared(g, c, m.Words(), b, ram.bytes);
    if mem != 0 {
      ghost var g1, b1, p := m.G(), ram.bytes, mem - 8;
      OldStays(m, g, g1, p, Request2Size(bytes), oldp);
      ghost var a1 := Asking(m, sys);
      CoherentNow(m, sys);
      var oc := ChunkSize(m.head, oldp) - CHUNK_OVERHEAD;
      Request2SizeTight(bytes);
      var n := if oc < bytes then oc else bytes;
      CopyApart(g, g1, p, Request2Size(bytes), oldp, n);
      Memcpy(ram, mem, oldmem, n);
      ghost var b2 := ram.bytes;
      c := m.Words();
      Dlfree(m, sys, oldmem);
      Overwrite(ram, c, m.Words());
      SparedBytes(g1, oldp, c, m.Words(), b2, ram.bytes);
      MovedBytes(g, g1, p, Request2Size(bytes), oldp, n, b, b1, b2, ram.bytes);
      MovedOn(g, old(Asking(m, sys)), bytes, oldp, p, g1, a1, Asking(m, sys));
      MovedBy(g, g1, m.G(), oldp, p, bytes, b, ram.bytes);
    }
  }

  lemma AllSpared(g: Tags, c: Cells, c': Cells, b: map<int, int>, b': map<int, int>)
    requires Spared(g, {}, c, c') && forall a | !Touched(c, c', a) :: Byte(b', a) == Byte(b, a)
    ensures BytesKept(g, 0, b, b')
  {
    hide SameIn, Touched, Byte, BytesKept, Spared;
    SparedMore(g, {}, {0}, c, c');
    SparedBytes(g, 0, c, c', b, b');
  }

  /** The bytes of a move: the allocator's stores, the copy, the allocator's stores. */
  lemma MovedBytes(g: Tags, g1: Tags, p: int, nb: nat, oldp: int, n: nat, b: map<int, int>, b1: map<int, int>,
                   b2: map<int, int>, b3: map<int, int>)
    requires TagsOk(g) && TagsOk(g1) && Allocated(g, g1, p, nb) && oldp in LiveOf(g) && n + CHUNK_OVERHEAD <= nb
    requires oldp in g.tiles && n + CHUNK_OVERHEAD <= g.tiles[oldp].size
    requires BytesKept(g, 0, b, b1) && Copied(b1, oldp + 8, b2, p + 8, n) && BytesKept(g1, oldp, b2, b3)
    requires forall a | a < p + 8 || p + 8 + n <= a :: Byte(b2, a) == Byte(b1, a)
    ensures BytesKept(g, oldp, b, b3) && Copied(b, oldp + 8, b3, p + 8, n)
  {
    NewApart(g, g1, p, nb, n, b1, b2);
    StaysLive(g, g1, p, nb);
    ZeroNotLive(g);
    hide TagsOk, Allocated, LiveOf;
    BytesTrans(g, 0, g, 0, b, b1, b2);
    BytesTrans(g, oldp, g1, oldp, b, b2, b3);
    forall a | p + 8 <= a < p + 8 + n ensures Byte(b3, a) == Byte(b, a - (p + 8) + (oldp + 8)) {
      assert Within(g1, p, a);
      assert Within(g, oldp, a - (p + 8) + (oldp + 8));
    }
  }

  lemma ZeroNotLive(g: Tags)
    requires TagsOk(g)
    ensures 0 !in LiveOf(g)
  {}

  lemma StaysLive(g: Tags, g1: Tags, p: int, nb: nat)
    requires Allocated(g, g1, p, nb)
    ensures p in LiveOf(g1) && p !in LiveOf(g) && p in g1.tiles && g1.tiles[p].size >= nb
    ensures forall q | q in LiveOf(g) :: q in g.tiles && q in LiveOf(g1) && q in g1.tiles && g1.tiles[q] == g.tiles[q]
  {}

  lemma OldStays(m: MState, g: Tags, g1: Tags, p: int, nb: nat, oldp: int)
    requires m.Valid() && m.G() == g1 && TagsOk(g) && Allocated(g, g1, p, nb) && oldp in LiveOf(g)
    ensures p != oldp
    ensures oldp > 0 && oldp in g.tiles && oldp in LiveOf(g1) && oldp in g1.tiles
    ensures ChunkSize(m.head, oldp) == g.tiles[oldp].size >= MIN_CHUNK_SIZE
  {
    hide SegsOk, BinsInv, Known, Match, FootprintOk, TagsOk, KeptOk;
    ChunkFacts(m.segs, m.least, g1, oldp);
  }

  lemma MovedBy(g: Tags, g1: Tags, g2: Tags, oldp: int, p: int, bytes: nat, b: map<int, int>, b': map<int, int>)
    requires Allocated(g, g1, p, Request2Size(bytes)) && Released(g1, g2, {oldp}) && oldp in LiveOf(g)
    requires bytes < MAX_REQUEST
    requires BytesKept(g, oldp, b, b')
    requires oldp in g.tiles && g.tiles[oldp].size >= MIN_CHUNK_SIZE
    requires Copied(b, oldp + 8, b', p + 8, Min(g.tiles[oldp].size - CHUNK_OVERHEAD, bytes))
    ensures BlockMoved(g, g2, oldp, p, bytes, b, b')
  {
    hide BytesKept;
    Request2SizeTight(bytes);
  }

  lemma ResizedMoves(g: Tags, g': Tags, p: int, bytes: nat, c: Cells, c': Cells, b: map<int, int>, b': map<int, int>)
    requires Resized(g, g', p, Request2Size(bytes)) && p in LiveOf(g) && p in g.tiles
    requires g.tiles[p].size >= MIN_CHUNK_SIZE && bytes < MAX_REQUEST
    requires Spared(g, {p}, c, c') && SameIn(c, c', p + 8, p + Min(g.tiles[p].size, Request2Size(bytes)) + 4)
    requires forall a | !Touched(c, c', a) :: Byte(b', a) == Byte(b, a)
    ensures BlockMoved(g, g', p, p, bytes, b, b')
  {
    hide Spared, SameIn, Touched, Byte;
    Request2SizeTight(bytes);
    SparedBytes(g, p, c, c', b, b');
    var n := Min(g.tiles[p].size - CHUNK_OVERHEAD, bytes);
    forall a | p + 8 <= a < p + 8 + n ensures Byte(b', a) == Byte(b, a) {
      SameUntouched(c, c', p + 8, p + Min(g.tiles[p].size, Request2Size(bytes)) + 4, a);
    }
  }

  /** dlrealloc: in place if possible, else by moving; 0 leaves the old block and everything else alone. Not ok means
      that sys_alloc goes astray. */
  method Dlrealloc(m: MState, sys: System, ram: Payload, oldmem: int, bytes: nat) returns (ok: bool, mem: int)
    requires m.Valid() && sys.Free(m.segs) && bytes < TWO32
    requires oldmem == 0 || oldmem - 8 in LiveOf(m.G())
    modifies m, sys, ram`bytes
    ensures m.Valid() && sys.Free(m.segs) && (mem == 0 || (mem > 8 && mem % 8 == 0))
    ensures ok <==> InPlace(old(m.G()), oldmem, bytes) || !Strays(old(m.G()), old(Asking(m, sys)), bytes)
    ensures mem != 0 <==> InPlace(old(m.G()), oldmem, bytes) || Granted(old(m.G()), old(Asking(m, sys)), bytes)
    ensures InPlace(old(m.G()), oldmem, bytes) ==> mem == oldmem
    ensures oldmem != 0 && bytes < MAX_REQUEST ==>
              (mem == oldmem <==> HasRoom(old(m.segs), old(m.G()), oldmem - 8, Request2Size(bytes)))
    ensures ReallocBy(old(m.G()), old(Asking(m, sys)), oldmem, bytes, mem, Asking(m, sys))
    ensures mem == 0 && !TakesShort(old(m.G()), old(Asking(m, sys)), bytes) ==> m.G() == old(m.G())
    ensures mem == 0 ==> SameLive(old(m.G()), m.G()) && BytesKept(old(m.G()), 0, old(ram.bytes), ram.bytes)
    ensures mem != 0 && oldmem == 0 ==>
              && Allocated(old(m.G()), m.G(), mem - 8, Request2Size(bytes))
              && BytesKept(old(m.G()), 0, old(ram.bytes), ram.bytes)
    ensures mem != 0 && oldmem != 0 ==>
              BlockMoved(old(m.G()), m.G(), oldmem - 8, mem - 8, bytes, old(ram.bytes), ram.bytes)
    ensures mem != 0 && mem == oldmem ==>
              ResizedHere(old(m.G()), m.G(), mem - 8, Request2Size(bytes), old(m.dv), old(m.dvsize), m.dv, m.dvsize)
  {
    hide MallocBy, MovedTo;
    hide TagsOk, SegsOk, BinsInv, Known, Match, FootprintOk, Request2Size, Resized, BlockMoved, Allocated, NothingFits;
    hide Spare, CanResize, KeptOk;
    hide SameLive, Spared, Strays, Granted, TakesShort, Picked, GuardOf, Touched, BytesKept, SameIn, InPlace;
    hide ResizedHere;
    ghost var g, b := m.G(), ram.bytes;
    SameTiles(g, g);
    NotInPlace(g, oldmem, bytes);
    if oldmem != 0 && bytes < MAX_REQUEST { RoomInPlace(m.segs, m.least, g, oldmem, bytes); }
    hide HasRoom;
    GrantedMeans(g, Asking(m, sys), bytes);
    NothingTouched(g, b);
    ok, mem := true, 0;
    if oldmem == 0 {
      var c := m.Words();
      ok, mem := Dlmalloc(m, sys, bytes);
      Overwrite(ram, c, m.Words());
      AllSpared(g, c, m.Words(), b, ram.bytes);
    } else if bytes < MAX_REQUEST {
      var nb := if bytes < MIN_REQUEST then MIN_CHUNK_SIZE else PadRequest(bytes);
      SizeOf(bytes, nb);
      ok, mem := ReallocOrMove(m, sys, ram, oldmem, bytes, nb);
    }
  }

  lemma NotInPlace(g: Tags, mem: int, bytes: nat)
    requires TagsOk(g)
    ensures mem == 0 || bytes >= MAX_REQUEST ==> !InPlace(g, mem, bytes)
  {
    hide CanResize;
  }

  lemma RoomInPlace(segs: seq<Segment>, least: int, g: Tags, mem: int, bytes: nat)
    requires TagsOk(g) && SegsOk(segs, least, g) && mem - 8 in LiveOf(g) && bytes < MAX_REQUEST
    ensures InPlace(g, mem, bytes) <==> HasRoom(segs, g, mem - 8, Request2Size(bytes))
  {
    hide TagsOk, SegsOk, HasRoom, Request2Size;
    ResizeExact(segs, least, g, mem - 8, Request2Size(bytes));
  }

  lemma GrantedMeans(g: Tags, p: Position, bytes: nat)
    ensures bytes >= MAX_REQUEST ==> !Granted(g, p, bytes) && !Strays(g, p, bytes)
  {}

  lemma NothingTouched(g: Tags, b: map<int, int>)
    ensures BytesKept(g, 0, b, b)
  {}

  /** The attempt to stay where the block is. */
  method ReallocHere(m: MState, ghost sys: System, ram: Payload, oldmem: int, bytes: nat, nb: nat) returns (mem: int)
    requires m.Valid() && bytes < MAX_REQUEST && nb == Request2Size(bytes) && GoodSize(nb)
    requires oldmem - 8 in LiveOf(m.G())
    modifies m`smallmap, m`treemap, m`treebins, m`fd, m`bk, m`child, m`parent, m`index, m`v
    modifies m`head, m`foot, m`tiles, m`top, m`topsize, m`dv, m`dvsize, m`guard, ram`bytes
    ensures m.Valid() && oldmem != 0 && (mem == 0 || (mem == oldmem && mem > 8 && mem % 8 == 0))
    ensures mem != 0 <==> InPlace(old(m.G()), oldmem, bytes)
    ensures mem == 0 ==>
              m.G() == old(m.G()) && Asking(m, sys) == old(Asking(m, sys)) && ram.bytes == old(ram.bytes)
    ensures mem != 0 ==>
              && SameTerms(old(Asking(m, sys)), Asking(m, sys))
              && BlockMoved(old(m.G()), m.G(), oldmem - 8, mem - 8, bytes, old(ram.bytes), ram.bytes)
    ensures mem != 0 ==>
              ResizedHere(old(m.G()), m.G(), mem - 8, nb, old(m.dv), old(m.dvsize), m.dv, m.dvsize)
  {
    hide TagsOk, SegsOk, BinsInv, Known, Match, FootprintOk, Request2Size, Resized, BlockMoved, CanResize, KeptOk;
    hide Spared, GuardOf, Touched, SameIn, HeadAt, ChunkSize, VictimResized;
    var oldp, c := oldmem - 8, m.Words();
    ghost var g, b := m.G(), ram.bytes;
    ChunkFacts(m.segs, m.least, g, oldp);
    TileAligned(g, oldp);
    var newp := ReallocChunk(m, oldp, nb);
    mem := 0;
    if newp != 0 {
      Overwrite(ram, c, m.Words());
      ResizedMoves(g, m.G(), oldp, bytes, c, m.Words(), b, ram.bytes);
      mem := newp + 8;
    }
  }

  method ReallocOrMove(m: MState, sys: System, ram: Payload, oldmem: int, bytes: nat, nb: nat)
    returns (ok: bool, mem: int)
    requires m.Valid() && sys.Free(m.segs) && bytes < MAX_REQUEST && nb == Request2Size(bytes) && GoodSize(nb)
    requires oldmem - 8 in LiveOf(m.G())
    modifies m, sys, ram`bytes
    ensures m.Valid() && sys.Free(m.segs) && (mem == 0 || (mem > 8 && mem % 8 == 0))
    ensures ok <==> InPlace(old(m.G()), oldmem, bytes) || !Strays(old(m.G()), old(Asking(m, sys)), bytes)
    ensures mem != 0 <==> InPlace(old(m.G()), oldmem, bytes) || Granted(old(m.G()), old(Asking(m, sys)), bytes)
    ensures InPlace(old(m.G()), oldmem, bytes) <==> mem == oldmem
    ensures ReallocBy(old(m.G()), old(Asking(m, sys)), oldmem, bytes, mem, Asking(m, sys))
    ensures mem == 0 && !TakesShort(old(m.G()), old(Asking(m, sys)), bytes) ==> m.G() == old(m.G())
    ensures mem == 0 ==> SameLive(old(m.G()), m.G()) && BytesKept(old(m.G()), 0, old(ram.bytes), ram.bytes)
    ensures mem != 0 ==> BlockMoved(old(m.G()), m.G(), oldmem - 8, mem - 8, bytes, old(ram.bytes), ram.bytes)
    ensures mem == oldmem ==>
              ResizedHere(old(m.G()), m.G(), mem - 8, nb, old(m.dv), old(m.dvsize), m.dv, m.dvsize)
  {
    hide TagsOk, SegsOk, BinsInv, Known, Match, FootprintOk, Request2Size, BlockMoved, NothingFits, InPlace, Asking;
    hide Spare, KeptOk, MallocBy, MovedTo, SameLive, Strays, Granted, TakesShort, BytesKept, SameTerms, ResizedHere;
    ok := true;
    mem := ReallocHere(m, sys, ram, oldmem, bytes, nb);
    if mem == 0 {
      ok, mem := MoveBlock(m, sys, ram, oldmem, bytes);
    }
  }

  lemma SizeOf(bytes: nat, nb: nat)
    requires bytes < MAX_REQUEST && nb == if bytes < MIN_REQUEST then MIN_CHUNK_SIZE else PadRequest(bytes)
    ensures nb == Request2Size(bytes) && GoodSize(nb)
  {
    Request2SizeTight(bytes);
  }
}
