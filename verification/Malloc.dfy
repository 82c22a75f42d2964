/** tmalloc_large, tmalloc_small and the part of dlmalloc that needs no memory from the system. */
module Malloc {
  import opened Words
  import opened BitMaps
  import opened Rings
  import opened Tries
  import opened Bins
  import opened Tiling
  import opened TagOps
  import opened Segments
  import opened SegOps
  import opened Coalesce
  import opened State
  import opened Keeping
  import opened Consolidate
  import opened AllocOps
  import opened TreeSearch
  import SmallBins
  import TreeRemove

  // ----- the bins and dv after part of a free chunk is handed out

  lemma MatchWhole(sz: Sizes, g: Tags, dv: int, dvsize: nat, p: int)
    requires FreeChunk(g, p) && p > 0
    ensures p != dv && Match(sz, g.tiles, dv, dvsize, {p}) ==> Match(sz, TakenWhole(g, p).tiles, dv, dvsize, {})
    ensures p == dv && Match(sz, g.tiles, dv, dvsize, {}) && 0 !in g.tiles ==>
              Match(sz, TakenWhole(g, p).tiles, 0, 0, {})
  {}

  lemma MatchSplit(sz: Sizes, g: Tags, dv: int, dvsize: nat, p: int, nb: nat)
    requires FreeChunk(g, p) && 0 < nb < g.tiles[p].size && p + nb !in g.tiles
    ensures p != dv && Match(sz, g.tiles, dv, dvsize, {p}) ==>
              Match(sz, TakenSplit(g, p, nb).tiles, dv, dvsize, {p + nb})
    ensures p == dv && Match(sz, g.tiles, dv, dvsize, {}) ==>
              Match(sz, TakenSplit(g, p, nb).tiles, p + nb, g.tiles[p].size - nb, {})
  {}

  lemma KnownTaken(sz: Sizes, g: Tags, h: Heads, least: int, dv: int, dvsize: nat, x: set<int>, p: int)
    requires Known(sz, g.head, least) && FreeChunk(g, p) && (p == dv || p in x) && Match(sz, g.tiles, dv, dvsize, x)
    requires var e := End(g.tiles, p); e in g.tiles && g.tiles[e].used
    requires forall a | a in g.tiles && a != p && a != End(g.tiles, p) :: HeadAt(h, a) == HeadAt(g.head, a)
    ensures Known(sz, h, least)
  {}

  // ----- writing the tags

  /** set_inuse_and_pinuse */
  method CommitWhole(m: MState, p: int, s: nat)
    requires TagsOk(m.G()) && SegsOk(m.segs, m.least, m.G()) && FreeChunk(m.G(), p) && s == m.tiles[p].size
    requires KeptOk(m.guard, m.Words(), m.G())
    modifies m`head, m`tiles
    ensures KeptOk(m.guard, m.Words(), m.G())
    ensures m.G() == TakenWhole(old(m.G()), p) && TagsOk(m.G()) && SegsOk(m.segs, m.least, m.G())
  {
    hide TagsOk, SegsOk, KeptOk;
    TakeWhole(m.segs, m.least, m.G(), p);
    TakenWholeKept(m.guard, m.Words(), m.G(), p);
    m.head := m.head[p := Head(s, true, true)];
    m.head := m.head[p + s := HeadAt(m.head, p + s).(pinuse := true)];
    m.tiles := m.tiles[p := Chunk(s, true)];
    assert p + s != p by { FreeFacts(old(m.G()), p); }
    assert m.head == TakenWhole(old(m.G()), p).head;
  }

  /** set_size_and_pinuse_of_inuse_chunk for the first nb bytes, set_size_and_pinuse_of_free_chunk for the rest. */
  method CommitSplit(m: MState, p: int, nb: nat, rsize: nat)
    requires TagsOk(m.G()) && SegsOk(m.segs, m.least, m.G()) && CanCut(m.G(), p, nb) && rsize == m.tiles[p].size - nb
    requires KeptOk(m.guard, m.Words(), m.G())
    modifies m`head, m`foot, m`tiles
    ensures KeptOk(m.guard, m.Words(), m.G())
    ensures m.G() == TakenSplit(old(m.G()), p, nb) && TagsOk(m.G()) && SegsOk(m.segs, m.least, m.G())
    ensures p + nb !in old(m.tiles)
  {
    hide TagsOk, SegsOk, KeptOk;
    TakeSplit(m.segs, m.least, m.G(), p, nb);
    TakenSplitKept(m.guard, m.Words(), m.G(), p, nb);
    var r := p + nb;
    m.head := m.head[p := Head(nb, true, true)];
    m.head := m.head[r := Head(rsize, false, true)];
    m.foot := m.foot[r + rsize := rsize];
    m.tiles := m.tiles[p := Chunk(nb, true)][r := Chunk(rsize, false)];
  }

  // ----- handing out a chunk just taken from its bin

  method GiveWhole(m: MState, p: int, s: nat, ghost nb: nat)
    requires m.Pending({p}) && FreeChunk(m.G(), p) && p != m.dv && s == m.tiles[p].size && nb <= s < nb + MIN_CHUNK_SIZE
    modifies m`head, m`tiles
    ensures m.Valid() && Allocated(old(m.G()), m.G(), p, nb)
  {
    hide TagsOk, SegsOk, BinsInv, FootprintOk, Known, Match, KeptOk;
    FreeFacts(m.G(), p);
    MatchWhole(m.v.sz, m.G(), m.dv, m.dvsize, p);
    TakenWholeAllocated(m.G(), p, nb);
    CommitWhole(m, p, s);
    KnownTaken(m.v.sz, old(m.G()), m.head, m.least, m.dv, m.dvsize, {p}, p);
  }

  method GiveSplit(m: MState, p: int, nb: nat, rsize: nat)
    requires m.Pending({p}) && CanCut(m.G(), p, nb) && p != m.dv && rsize == m.tiles[p].size - nb
    modifies m`head, m`foot, m`tiles
    ensures m.Pending({p + nb}) && Allocated(old(m.G()), m.G(), p, nb)
    ensures FreeChunk(m.G(), p + nb) && m.tiles[p + nb].size == rsize && p + nb != m.dv
  {
    hide TagsOk, SegsOk, BinsInv, FootprintOk, Known, Match, KeptOk;
    FreeFacts(m.G(), p);
    RecsIn(m.G());
    DvOf(m.v.sz, m.tiles, m.dv, m.dvsize, {p});
    CommitSplit(m, p, nb, rsize);
    MatchSplit(m.v.sz, old(m.G()), m.dv, m.dvsize, p, nb);
    TakenSplitAllocated(old(m.G()), p, nb);
    KnownTaken(m.v.sz, old(m.G()), m.head, m.least, m.dv, m.dvsize, {p}, p);
  }

  lemma DvSize(m: MState, x: set<int>)
    requires m.Pending(x)
    ensures m.dvsize == 0 <==> m.dv == 0
    ensures m.dvsize != 0 ==> FreeChunk(m.G(), m.dv) && GoodSize(m.dvsize) && m.tiles[m.dv].size == m.dvsize && m.dv > 0
    ensures 0 !in m.tiles
  {
    hide BinsInv, SegsOk, FootprintOk, Known, KeptOk;
    ShapesOf(m.G());
  }

  /** The old victim goes into its small bin; p, of s bytes, is to take its place. */
  method BinVictim(m: MState, ghost p: int, ghost s: nat)
    requires m.Pending({p}) && FreeChunk(m.G(), p) && p != m.dv && s == m.tiles[p].size && IsSmall(m.dvsize)
    modifies m`smallmap, m`fd, m`bk, m`v
    ensures m.BinsOk() && Match(m.v.sz, m.tiles, p, s, {}) && KeptOk(m.guard, m.Words(), m.G())
  {
    hide TagsOk, SegsOk, BinsInv, FootprintOk, Known, KeptOk, LinksIn;
    DvSize(m, {p});
    if m.dvsize != 0 {
      ChunkFacts(m.segs, m.least, m.G(), m.dv);
      SmallBins.InsertSmallChunk(m, m.dv, m.dvsize);
      BinsKept(m.guard, old(m.Words()), m.G(), old(m.Mem()), m.Mem(), m.v.sz, p, s, {});
    }
  }

  /** replace_dv: the old victim goes into its small bin. */
  method ReplaceDv(m: MState, p: int, s: nat)
    requires m.Pending({p}) && FreeChunk(m.G(), p) && p != m.dv && s == m.tiles[p].size && IsSmall(m.dvsize)
    modifies m`smallmap, m`fd, m`bk, m`v, m`dv, m`dvsize
    ensures m.Valid() && m.dv == p && m.dvsize == s
  {
    hide TagsOk, SegsOk, BinsInv, FootprintOk, Known, KeptOk, Match;
    BinVictim(m, p, s);
    NameDv(m, p, s);
  }

  // ----- tmalloc_large and tmalloc_small

  /** The victim serves at least as well as anything in the tree bins, or nothing there fits. */
  ghost predicate DvServes(sz: Sizes, dvsize: nat, nb: nat) {
    || (forall a | a in sz && !IsSmall(sz[a]) :: sz[a] < nb)
    || (nb <= dvsize && forall a | a in sz && !IsSmall(sz[a]) && sz[a] >= nb :: dvsize <= sz[a])
  }

  /** p is a smallest binned chunk of at least nb bytes. */
  ghost predicate BestBinned(sz: Sizes, nb: nat, p: int) {
    p in sz && sz[p] >= nb && forall a | a in sz && sz[a] >= nb :: sz[p] <= sz[a]
  }

  /** If p is binned it is the first of the chunks of its size. */
  ghost predicate Foremost(v: BinView, p: int) {
    p in v.sz ==> v.sz[p] in v.rings && v.rings[v.sz[p]] != [] && v.rings[v.sz[p]][0] == p
  }

  lemma NodeForemost(m: MState, p: int)
    requires m.BinsOk() && p in m.v.pos
    ensures Foremost(m.v, p)
  {
    hide RingsOk, Members, SmallMapOk, TreeMapOk, ChainedOk, IndexOk, TrieOk;
  }

  lemma FitPlaced(sz: Sizes, pos: Places, nb: nat, v: int, rsize: nat)
    requires SmallestFit(sz, pos, nb, v, rsize) && v != 0
    ensures v in pos
  {}

  /** Neither the victim nor top is binned. */
  lemma NotBinned(m: MState)
    requires m.Valid()
    ensures m.dv !in m.v.sz && m.top !in m.v.sz
  {
    hide BinsInv, SegsOk, FootprintOk, Known, KeptOk, TagsOk;
    TopNotTileOf(m.G());
  }

  lemma FitDecides(sz: Sizes, pos: Places, dvsize: nat, nb: nat, v: int, rsize: nat)
    requires SmallestFit(sz, pos, nb, v, rsize) && 256 <= nb < TWO32 && dvsize < TWO32
    requires forall a | a in sz :: sz[a] < TWO32
    ensures v == 0 || rsize >= Sub32(dvsize, nb) <==> DvServes(sz, dvsize, nb)
    ensures v != 0 ==> BestBinned(sz, nb, v)
    ensures v != 0 && rsize < Sub32(dvsize, nb) && nb <= dvsize ==> sz[v] < dvsize
  {}

  lemma SizesBounded(m: MState, x: set<int>)
    requires m.Pending(x)
    ensures m.dvsize < TWO32
    ensures forall a | a in m.v.sz :: a in m.tiles && m.v.sz[a] == m.tiles[a].size && GoodSize(m.v.sz[a])
    ensures 0 !in m.tiles && 0 !in m.v.sz
  {
    hide BinsInv, SegsOk, FootprintOk, Known, KeptOk;
    ShapesOf(m.G());
  }

  lemma BinnedFacts(m: MState, x: set<int>, a: int)
    requires m.Pending(x) && a in m.v.sz
    ensures FreeChunk(m.G(), a) && a != m.dv && a !in x && m.tiles[a].size == m.v.sz[a] && GoodSize(m.v.sz[a]) && a > 0
  {
    hide BinsInv, SegsOk, FootprintOk, Known, KeptOk;
    ShapesOf(m.G());
  }

  /** Taking binned chunk v for nb bytes; what is left over goes back to a bin. */
  method TakeBinned(m: MState, v: int, nb: nat, rsize: nat)
    requires m.Valid() && GoodSize(nb) && v in m.v.sz && m.v.sz[v] == nb + rsize
    modifies m`smallmap, m`treemap, m`treebins, m`fd, m`bk, m`child, m`parent, m`index, m`v
    modifies m`head, m`foot, m`tiles
    ensures m.Valid() && Allocated(old(m.G()), m.G(), v, nb)
  {
    hide TagsOk, SegsOk, BinsInv, FootprintOk, Known, Allocated, Match, KeptOk;
    BinnedFacts(m, {}, v);
    UnlinkChunk(m, v, rsize + nb, {});
    assert {} + {v} == {v};
    if rsize < MIN_CHUNK_SIZE {
      GiveWhole(m, v, rsize + nb, nb);
    } else {
      SplitBinned(m, v, nb, rsize);
    }
  }

  /** The first nb bytes of a chunk just taken from its bin are handed out, the rest goes back to a bin. */
  method SplitBinned(m: MState, v: int, nb: nat, rsize: nat)
    requires m.Pending({v}) && CanCut(m.G(), v, nb) && v != m.dv && rsize == m.tiles[v].size - nb
    modifies m`smallmap, m`treemap, m`treebins, m`fd, m`bk, m`child, m`parent, m`index, m`v
    modifies m`head, m`foot, m`tiles
    ensures m.Valid() && Allocated(old(m.G()), m.G(), v, nb)
  {
    hide TagsOk, SegsOk, BinsInv, FootprintOk, Known, Allocated, Match, KeptOk;
    GiveSplit(m, v, nb, rsize);
    InsertChunk(m, v + nb, rsize);
  }

  /** tmalloc_large: the smallest chunk of the tree bins that fits, unless the victim serves as well. */
  method TmallocLarge(m: MState, nb: nat) returns (mem: int)
    requires m.Valid() && 256 <= nb < TWO32 && nb % 8 == 0
    modifies m`smallmap, m`treemap, m`treebins, m`fd, m`bk, m`child, m`parent, m`index, m`v
    modifies m`head, m`foot, m`tiles
    ensures m.Valid()
    ensures mem == 0 <==> DvServes(old(m.v.sz), old(m.dvsize), nb)
    ensures mem == 0 ==> m.G() == old(m.G()) && m.v == old(m.v)
    ensures mem != 0 ==> Allocated(old(m.G()), m.G(), mem - 8, nb) && BestBinned(old(m.v.sz), nb, mem - 8)
    ensures mem != 0 && nb <= old(m.dvsize) ==> mem - 8 in old(m.v.sz) && old(m.v.sz)[mem - 8] < old(m.dvsize)
    ensures mem != 0 ==> Foremost(old(m.v), mem - 8)
  {
    hide TagsOk, SegsOk, BinsInv, FootprintOk, Known, SmallestFit, DvServes, BestBinned, Allocated, Match, KeptOk;
    hide Foremost;
    var v, rsize := SearchLarge(m, nb);
    SizesBounded(m, {});
    FitDecides(m.v.sz, m.v.pos, m.dvsize, nb, v, rsize);
    if v != 0 && rsize < Sub32(m.dvsize, nb) {
      FitFacts(m.v.sz, m.v.pos, nb, v, rsize);
      FitPlaced(m.v.sz, m.v.pos, nb, v, rsize);
      NodeForemost(m, v);
      ChunkFacts(m.segs, m.least, m.G(), v);
      if v >= m.least {
        var r := v + nb;
        if v < r {
          TakeBinned(m, v, nb, rsize);
          return v + 8;
        }
      }
      assert false;
    }
    return 0;
  }

  lemma FitFacts(sz: Sizes, pos: Places, nb: nat, v: int, rsize: nat)
    requires SmallestFit(sz, pos, nb, v, rsize) && v != 0
    ensures v in sz && !IsSmall(sz[v]) && sz[v] == rsize + nb
  {}

  /** The victim after binned chunk p of the given size served a small request: the rest of p if there is one, else
      as before. */
  ghost predicate RestIsVictim(dv: int, dvsize: nat, p: int, size: nat, nb: nat, dv': int, dvsize': nat) {
    if size < nb + MIN_CHUNK_SIZE then dv' == dv && dvsize' == dvsize else dv' == p + nb && dvsize' == size - nb
  }

  method UnlinkTree(m: MState, v: int)
    requires m.Valid() && v in m.v.sz && !IsSmall(m.v.sz[v])
    modifies m`smallmap, m`treemap, m`treebins, m`fd, m`bk, m`child, m`parent, m`v
    ensures m.Pending({v})
  {
    hide TagsOk, SegsOk, BinsInv, FootprintOk, Known, KeptOk, LinksIn;
    TreeRemove.UnlinkLargeChunk(m, v);
    BinsKept(m.guard, old(m.Words()), m.G(), old(m.Mem()), m.Mem(), old(m.v.sz), m.dv, m.dvsize, {});
  }

  /** Taking tree chunk v for a small request; what is left over becomes the victim. */
  method TakeTree(m: MState, v: int, nb: nat, rsize: nat)
    requires m.Valid() && GoodSize(nb) && nb < 256 && v in m.v.sz && m.v.sz[v] == nb + rsize && !IsSmall(nb + rsize)
    requires m.dvsize < nb
    modifies m`smallmap, m`treemap, m`treebins, m`fd, m`bk, m`child, m`parent, m`v
    modifies m`head, m`foot, m`tiles, m`dv, m`dvsize
    ensures m.Valid() && Allocated(old(m.G()), m.G(), v, nb)
    ensures RestIsVictim(old(m.dv), old(m.dvsize), v, nb + rsize, nb, m.dv, m.dvsize)
  {
    hide TagsOk, SegsOk, BinsInv, FootprintOk, Known, Allocated, Match, KeptOk;
    BinnedFacts(m, {}, v);
    UnlinkTree(m, v);
    ServeRest(m, v, nb, rsize);
  }

  /** The chunk just unlinked serves the request; what is left of it, if it can be a chunk, becomes the victim. */
  method ServeRest(m: MState, v: int, nb: nat, rsize: nat)
    requires m.Pending({v}) && FreeChunk(m.G(), v) && v != m.dv && m.tiles[v].size == nb + rsize && IsSmall(m.dvsize)
    requires rsize >= MIN_CHUNK_SIZE ==> CanCut(m.G(), v, nb)
    modifies m`smallmap, m`fd, m`bk, m`v
    modifies m`head, m`foot, m`tiles, m`dv, m`dvsize
    ensures m.Valid() && Allocated(old(m.G()), m.G(), v, nb)
    ensures RestIsVictim(old(m.dv), old(m.dvsize), v, nb + rsize, nb, m.dv, m.dvsize)
  {
    hide TagsOk, SegsOk, BinsInv, FootprintOk, Known, Allocated, Match, KeptOk;
    var r := v + nb;
    if rsize < MIN_CHUNK_SIZE {
      GiveWhole(m, v, rsize + nb, nb);
    } else {
      GiveSplit(m, v, nb, rsize);
      ReplaceDv(m, r, rsize);
    }
  }

  /** tmalloc_small: the smallest chunk of the tree bins. */
  method TmallocSmall(m: MState, nb: nat) returns (mem: int)
    requires m.Valid() && GoodSize(nb) && nb < 256 && m.treemap != ZERO && m.dvsize < nb
    modifies m`smallmap, m`treemap, m`treebins, m`fd, m`bk, m`child, m`parent, m`v
    modifies m`head, m`foot, m`tiles, m`dv, m`dvsize
    ensures m.Valid() && mem != 0
    ensures Allocated(old(m.G()), m.G(), mem - 8, nb)
    ensures mem - 8 in old(m.v.sz) && !IsSmall(old(m.v.sz)[mem - 8])
    ensures forall a | a in old(m.v.sz) && !IsSmall(old(m.v.sz)[a]) :: old(m.v.sz)[mem - 8] <= old(m.v.sz)[a]
    ensures RestIsVictim(old(m.dv), old(m.dvsize), mem - 8, old(m.v.sz)[mem - 8], nb, m.dv, m.dvsize)
    ensures Foremost(old(m.v), mem - 8)
  {
    hide TagsOk, SegsOk, BinsInv, FootprintOk, Known, Allocated, Match, KeptOk, Foremost;
    var v, rsize := SearchSmall(m, nb);
    NodeForemost(m, v);
    SizesBounded(m, {});
    ChunkFacts(m.segs, m.least, m.G(), v);
    if v >= m.least {
      var r := v + nb;
      if v < r {
        TakeTree(m, v, nb, rsize);
        return v + 8;
      }
    }
    assert false;
    return 0;
  }

  // ----- dv and top

  /** Cutting the request from the designated victim. */
  method SplitDv(m: MState, nb: nat, rsize: nat)
    requires m.Valid() && GoodSize(nb) && rsize >= MIN_CHUNK_SIZE && m.dvsize == nb + rsize
    modifies m`head, m`foot, m`tiles, m`dv, m`dvsize
    ensures m.Valid() && Allocated(old(m.G()), m.G(), old(m.dv), nb) && m.dv == old(m.dv) + nb && m.dvsize == rsize
  {
    hide TagsOk, SegsOk, BinsInv, FootprintOk, Known, Match, Allocated, KeptOk, TakenSplit;
    DvSize(m, {});
    var p := m.dv;
    VictimCutOk(m.v.sz, m.G(), m.least, p, nb);
    m.dv := p + nb;
    m.dvsize := rsize;
    CommitSplit(m, p, nb, rsize);
  }

  /** What is left of the victim is one. */
  lemma VictimCutOk(sz: Sizes, g: Tags, least: int, p: int, nb: nat)
    requires TagsOk(g) && FreeChunk(g, p) && Known(sz, g.head, least) && Match(sz, g.tiles, p, g.tiles[p].size, {})
    requires GoodSize(nb) && GoodSize(g.tiles[p].size) && nb + MIN_CHUNK_SIZE <= g.tiles[p].size
    ensures CanCut(g, p, nb) && Allocated(g, TakenSplit(g, p, nb), p, nb) && Known(sz, TakenSplit(g, p, nb).head, least)
    ensures Match(sz, TakenSplit(g, p, nb).tiles, p + nb, g.tiles[p].size - nb, {})
  {
    hide Known, Match, Allocated;
    FreeFacts(g, p);
    RecsIn(g);
    hide TagsOk;
    TakenSplitAllocated(g, p, nb);
    KnownTaken(sz, g, TakenSplit(g, p, nb).head, least, p, g.tiles[p].size, {}, p);
    MatchSplit(sz, g, p, g.tiles[p].size, p, nb);
  }

  /** Handing out the whole designated victim. */
  method ExhaustDv(m: MState, ghost nb: nat)
    requires m.Valid() && nb <= m.dvsize < nb + MIN_CHUNK_SIZE && nb > 0
    modifies m`head, m`tiles, m`dv, m`dvsize
    ensures m.Valid() && Allocated(old(m.G()), m.G(), old(m.dv), nb) && m.dv == 0 && m.dvsize == 0
  {
    hide TagsOk, SegsOk, BinsInv, FootprintOk, Known, Match, Allocated, KeptOk;
    DvSize(m, {});
    ghost var g := m.G();
    var p, dvs := m.dv, m.dvsize;
    FreeFacts(g, p);
    m.dvsize := 0;
    m.dv := 0;
    CommitWhole(m, p, dvs);
    MatchWhole(m.v.sz, g, p, dvs, p);
    TakenWholeAllocated(g, p, nb);
    KnownTaken(m.v.sz, g, m.head, m.least, p, dvs, {}, p);
  }

  /** The victim after it served a request itself. */
  ghost predicate VictimCut(dv: int, dvsize: nat, nb: nat, dv': int, dvsize': nat) {
    if dvsize < nb + MIN_CHUNK_SIZE then dv' == 0 && dvsize' == 0 else dv' == dv + nb && dvsize' == dvsize - nb
  }

  /** Serving a request from the designated victim. */
  method AllocDv(m: MState, nb: nat) returns (mem: int)
    requires m.Valid() && GoodSize(nb) && nb <= m.dvsize
    modifies m`head, m`foot, m`tiles, m`dv, m`dvsize
    ensures m.Valid() && mem == old(m.dv) + 8 > 8
    ensures Allocated(old(m.G()), m.G(), mem - 8, nb) && VictimCut(old(m.dv), old(m.dvsize), nb, m.dv, m.dvsize)
  {
    hide TagsOk, SegsOk, BinsInv, FootprintOk, Known, Match, Allocated, KeptOk;
    DvSize(m, {});
    var rsize := m.dvsize - nb;
    var p := m.dv;
    if rsize >= MIN_CHUNK_SIZE {
      SplitDv(m, nb, rsize);
    } else {
      ExhaustDv(m, nb);
    }
    return p + 8;
  }

  lemma KnownTop(sz: Sizes, g: Tags, h: Heads, least: int, dv: int, dvsize: nat, x: set<int>, nb: nat)
    requires Known(sz, g.head, least) && Match(sz, g.tiles, dv, dvsize, x) && g.top !in g.tiles
    requires g.top + nb !in g.tiles
    requires forall a | a != g.top && a != g.top + nb :: HeadAt(h, a) == HeadAt(g.head, a)
    ensures Known(sz, h, least)
    ensures Match(sz, g.tiles[g.top := Chunk(nb, true)], dv, dvsize, x)
  {}

  /** The words of top's split. */
  method CommitTakeTop(m: MState, nb: nat)
    requires TagsOk(m.G()) && SegsOk(m.segs, m.least, m.G()) && KeptOk(m.guard, m.Words(), m.G())
    requires CanTakeTop(m.G(), nb)
    modifies m`head, m`tiles, m`top, m`topsize
    ensures m.G() == TakeTopTags(old(m.G()), nb)
    ensures TagsOk(m.G()) && SegsOk(m.segs, m.least, m.G()) && KeptOk(m.guard, m.Words(), m.G())
  {
    hide TagsOk, SegsOk, KeptOk;
    ghost var g := m.G();
    TopFacts(g, nb);
    TakeTop(g, nb);
    OpenTags(g);
    TakeTopSegs(m.segs, m.least, g, nb);
    TakeTopKept(m.guard, m.Words(), g, nb);
    m.topsize := m.topsize - nb;
    var rsize := m.topsize;
    var p := m.top;
    var r := p + nb;
    m.top := r;
    m.head := m.head[r := Head(rsize, false, true)];
    m.head := m.head[p := Head(nb, true, true)];
    m.tiles := m.tiles[p := Chunk(nb, true)];
  }

  /** Splitting top. */
  method AllocTop(m: MState, nb: nat) returns (mem: int)
    requires m.Valid() && GoodSize(nb) && nb < m.topsize
    modifies m`head, m`tiles, m`top, m`topsize
    ensures m.Valid() && mem == old(m.top) + 8 > 8
    ensures m.G() == TakeTopTags(old(m.G()), nb)
    ensures Allocated(old(m.G()), m.G(), mem - 8, nb)
  {
    hide TagsOk, SegsOk, BinsInv, FootprintOk, Known, Match, Allocated, KeptOk;
    ghost var g := m.G();
    TopFacts(g, nb);
    TakeTopAllocated(g, nb);
    mem := m.top + 8;
    CommitTakeTop(m, nb);
    KnownTop(m.v.sz, g, m.head, m.least, m.dv, m.dvsize, {}, nb);
  }

  lemma TopFacts(g: Tags, nb: nat)
    requires TagsOk(g) && GoodSize(nb) && nb < g.topsize
    ensures CanTakeTop(g, nb) && g.top !in g.tiles && g.top + nb !in g.tiles && g.top !in g.recs
    ensures g.top % 8 == 0 && g.top > 0 && TopTag(g.tiles, g.top, g.topsize, g.head)
  {
    TakeTopShape(g, nb);
  }

  // ----- small bins

  lemma SmallMarked(m: BinMem, v: BinView, a: int)
    requires BinsInv(m, v) && a in v.sz && IsSmall(v.sz[a])
    ensures v.sz[a] / 8 < WORD && v.sz[a] == 8 * (v.sz[a] / 8) && m.smallmap[v.sz[a] / 8]
  {
    hide RingsOk, TreeMapOk, NodesOk, ChainedOk, IndexOk, TrieOk;
  }

  lemma TreeMarked(m: BinMem, v: BinView, a: int)
    requires BinsInv(m, v) && a in v.sz && !IsSmall(v.sz[a])
    ensures m.treemap != ZERO
  {
    BinsSearchable(m, v);
    hide RingsOk, SmallMapOk, TreeMapOk, ChainedOk, IndexOk, TrieOk, Searchable;
    var n := v.rings[v.sz[a]][0];
    EmptyBin(m, v, n);
  }

  /** Nothing binned fits better than the first marked bin at or above nb's own. */
  lemma SmallBest(m: BinMem, v: BinView, nb: nat, i: nat)
    requires BinsInv(m, v) && GoodSize(nb) && nb / 8 <= i < WORD
    requires forall j | nb / 8 <= j < i :: !m.smallmap[j]
    ensures forall a | a in v.sz && v.sz[a] >= nb :: 8 * i <= v.sz[a]
  {
    hide BinsInv;
    forall a | a in v.sz && v.sz[a] >= nb ensures 8 * i <= v.sz[a] {
      if IsSmall(v.sz[a]) { SmallMarked(m, v, a); }
    }
  }

  /** No bit at or above nb's bin and no tree: nothing binned fits. */
  lemma NothingFits(m: BinMem, v: BinView, nb: nat)
    requires BinsInv(m, v) && GoodSize(nb) && nb < 256 && m.treemap == ZERO
    requires forall j | nb / 8 <= j < WORD :: !m.smallmap[j]
    ensures forall a | a in v.sz :: v.sz[a] < nb
  {
    hide BinsInv;
    forall a | a in v.sz ensures v.sz[a] < nb {
      if IsSmall(v.sz[a]) { SmallMarked(m, v, a); } else { TreeMarked(m, v, a); }
    }
  }

  lemma NoSuchSize(m: BinMem, v: BinView, i: nat)
    requires BinsInv(m, v) && i < WORD && !m.smallmap[i]
    ensures forall a | a in v.sz :: v.sz[a] != 8 * i
  {
    hide BinsInv;
    forall a | a in v.sz ensures v.sz[a] != 8 * i {
      if IsSmall(v.sz[a]) { SmallMarked(m, v, a); }
    }
  }

  method UnlinkFirst(m: MState, b: int, p: int, i: nat)
    requires m.Valid() && i < WORD && m.smallmap[i] && b == SmallHeader(i) && p == At(m.fd, b)
    modifies m`smallmap, m`fd, m`bk, m`v
    ensures m.Pending({p})
  {
    hide TagsOk, SegsOk, BinsInv, FootprintOk, Known, KeptOk, LinksIn;
    SmallBins.UnlinkFirstSmallChunk(m, b, p, i);
    BinsKept(m.guard, old(m.Words()), m.G(), old(m.Mem()), m.Mem(), old(m.v.sz), m.dv, m.dvsize, {});
  }

  /** A remainderless fit from small bin i. */
  method AllocSmallExact(m: MState, nb: nat, i: nat) returns (mem: int)
    requires m.Valid() && GoodSize(nb) && i < WORD && m.smallmap[i] && nb <= 8 * i <= nb + 8
    modifies m`smallmap, m`fd, m`bk, m`v, m`head, m`tiles
    ensures m.Valid() && mem > 8 && mem - 8 in old(m.v.sz) && old(m.v.sz)[mem - 8] == 8 * i
    ensures Allocated(old(m.G()), m.G(), mem - 8, nb) && Foremost(old(m.v), mem - 8)
  {
    hide TagsOk, SegsOk, BinsInv, FootprintOk, Known, Allocated, KeptOk, Match;
    var b := SmallHeader(i);
    var p := At(m.fd, b);
    SmallBins.SmallFirst(m.Mem(), m.v, i);
    BinnedFacts(m, {}, p);
    UnlinkFirst(m, b, p, i);
    GiveWhole(m, p, 8 * i, nb);
    return p + 8;
  }

  /** Splitting a chunk of small bin i, at least two bins above nb's own; the rest becomes the victim. */
  method AllocSmallSplit(m: MState, nb: nat, i: nat) returns (mem: int)
    requires m.Valid() && GoodSize(nb) && i < WORD && m.smallmap[i] && nb + 16 <= 8 * i && m.dvsize < nb
    modifies m`smallmap, m`fd, m`bk, m`v, m`head, m`foot, m`tiles, m`dv, m`dvsize
    ensures m.Valid() && mem > 8 && mem - 8 in old(m.v.sz) && old(m.v.sz)[mem - 8] == 8 * i
    ensures Allocated(old(m.G()), m.G(), mem - 8, nb) && Foremost(old(m.v), mem - 8)
    ensures m.dv == mem - 8 + nb && m.dvsize == 8 * i - nb >= MIN_CHUNK_SIZE
  {
    hide TagsOk, SegsOk, BinsInv, FootprintOk, Known, Allocated, KeptOk, Match;
    var b := SmallHeader(i);
    var p := At(m.fd, b);
    SmallBins.SmallFirst(m.Mem(), m.v, i);
    BinnedFacts(m, {}, p);
    UnlinkFirst(m, b, p, i);
    var rsize := 8 * i - nb;
    GiveSplit(m, p, nb, rsize);
    ReplaceDv(m, p + nb, rsize);
    return p + 8;
  }

  // ----- dlmalloc without the system

  /** Which free chunk serves the request: a best fit from the bins, the victim, or top when nothing else fits. */
  ghost predicate Chosen(g: Tags, sz: Sizes, dv: int, dvsize: nat, nb: nat, p: int) {
    || (BestBinned(sz, nb, p) && (nb >= MIN_LARGE_SIZE && nb <= dvsize ==> sz[p] < dvsize)
        && (nb < MIN_LARGE_SIZE && nb <= dvsize ==> sz[p] <= nb + 8))
    || (p == dv && nb <= dvsize && (nb >= MIN_LARGE_SIZE ==> DvServes(sz, dvsize, nb))
        && (nb < MIN_LARGE_SIZE ==> forall a | a in sz :: sz[a] != nb && (nb < 248 ==> sz[a] != nb + 8)))
    || (p == g.top && nb < g.topsize && dvsize < nb && forall a | a in sz :: sz[a] < nb)
  }

  /** Top serves only when no free chunk can; a large request gets a smallest of all the free chunks that can, and a
      small one the victim or a smallest of the others, of its very size if there is such a chunk. */
  lemma ChosenBest(g: Tags, sz: Sizes, dv: int, dvsize: nat, nb: nat, p: int)
    requires TagsOk(g) && Match(sz, g.tiles, dv, dvsize, {}) && Chosen(g, sz, dv, dvsize, nb, p) && nb > 0
    ensures p == g.top <==> forall a | FreeChunk(g, a) :: g.tiles[a].size < nb
    ensures p != g.top ==> FreeChunk(g, p) && g.tiles[p].size >= nb
    ensures p != g.top && nb >= 256 ==>
              forall a | FreeChunk(g, a) && g.tiles[a].size >= nb :: g.tiles[p].size <= g.tiles[a].size
    ensures p != g.top && p != dv ==>
              forall a | FreeChunk(g, a) && g.tiles[a].size >= nb && a != dv :: g.tiles[p].size <= g.tiles[a].size
    ensures nb < 256 && (exists a :: FreeChunk(g, a) && a != dv && g.tiles[a].size == nb) ==>
              FreeChunk(g, p) && p != dv && g.tiles[p].size == nb
    ensures nb < 256 && p != g.top && p != dv && nb <= dvsize ==> g.tiles[p].size <= nb + 8
  {
    TopNotTileOf(g);
    hide TagsOk;
    forall a ensures FreeChunk(g, a) <==> a in sz || (a == dv && dv != 0 && dv in g.tiles) {}
  }

  /** What is left of a chunk that served a small request serves the next one, right after the first, unless a binned
      chunk is as small as that. */
  lemma NextNeighbour(sz: Sizes, dv: int, dvsize: nat, nb: nat, p: int, dv': int, dvsize': nat,
                      g': Tags, sz': Sizes, nb': nat, p': int)
    requires nb < 256 && p in sz && sz[p] >= nb + 16 && VictimAfter(sz, dv, dvsize, nb, p, dv', dvsize')
    requires nb' < 256 && Chosen(g', sz', dv', dvsize', nb', p') && nb' <= sz[p] - nb
    requires forall a | a in sz' :: !(nb' <= sz'[a] <= nb' + 8)
    ensures p' == p + nb
  {}

  /** A small request nothing binned serves without a remainder, or at all when the victim is too small. */
  ghost predicate LeftToDv(sz: Sizes, dvsize: nat, nb: nat) {
    if nb <= dvsize then forall a | a in sz :: sz[a] != nb && (nb < 248 ==> sz[a] != nb + 8)
    else forall a | a in sz :: sz[a] < nb
  }

  /** The victim after chunk p served a request of nb bytes. */
  ghost predicate VictimAfter(sz: Sizes, dv: int, dvsize: nat, nb: nat, p: int, dv': int, dvsize': nat) {
    if p in sz && nb < MIN_LARGE_SIZE then RestIsVictim(dv, dvsize, p, sz[p], nb, dv', dvsize')
    else if p in sz then dv' == dv && dvsize' == dvsize
    else if nb <= dvsize then VictimCut(dv, dvsize, nb, dv', dvsize')
    else dv' == dv && dvsize' == dvsize
  }

  /** The small-request half of dlmalloc; 0 means no binned chunk was used. */
  method MallocSmall(m: MState, nb: nat) returns (mem: int)
    requires m.Valid() && GoodSize(nb) && nb < 256
    modifies m`smallmap, m`treemap, m`treebins, m`fd, m`bk, m`child, m`parent, m`v
    modifies m`head, m`foot, m`tiles, m`dv, m`dvsize
    ensures m.Valid()
    ensures mem == 0 ==> m.G() == old(m.G()) && m.v == old(m.v) && m.dv == old(m.dv) && m.dvsize == old(m.dvsize)
    ensures mem == 0 ==> LeftToDv(m.v.sz, m.dvsize, nb)
    ensures mem != 0 ==> Allocated(old(m.G()), m.G(), mem - 8, nb) && BestBinned(old(m.v.sz), nb, mem - 8)
    ensures mem != 0 ==> Chosen(old(m.G()), old(m.v.sz), old(m.dv), old(m.dvsize), nb, mem - 8)
    ensures mem != 0 ==> VictimAfter(old(m.v.sz), old(m.dv), old(m.dvsize), nb, mem - 8, m.dv, m.dvsize)
    ensures mem != 0 ==> Foremost(old(m.v), mem - 8)
  {
    hide Foremost;
    hide TagsOk, SegsOk, BinsInv, FootprintOk, Known, Allocated, And, Shr, Shl, LeftBits, LeastBit, Bit, Not, Match;
    hide KeptOk;
    var idx := nb / 8;
    var smallbits := Shr(m.smallmap, idx);
    ProbeTwo(m.smallmap, idx);
    MaskLeft(m.smallmap, idx);
    mem := 0;
    if And(smallbits, THREE) != ZERO {
      if Not(smallbits)[0] {
        idx := idx + 1;
      }
      SmallBest(m.Mem(), m.v, nb, idx);
      mem := AllocSmallExact(m, nb, idx);
    } else if nb > m.dvsize {
      if smallbits != ZERO {
        var leftbits := And(Shl(smallbits, idx), LeftBits(Bit(idx)));
        LeftMarked(m.smallmap, idx, leftbits);
        var leastbit := LeastBit(leftbits);
        var i := Ctz(leastbit);
        SmallBest(m.Mem(), m.v, nb, i);
        mem := AllocSmallSplit(m, nb, i);
      } else if m.treemap != ZERO {
        SmallBest(m.Mem(), m.v, nb, 31);
        TreeFirst(m.Mem(), m.v, nb);
        mem := TmallocSmall(m, nb);
      } else {
        NothingFits(m.Mem(), m.v, nb);
      }
    } else {
      NoSuchSize(m.Mem(), m.v, idx);
      if idx + 1 < WORD { NoSuchSize(m.Mem(), m.v, idx + 1); }
    }
  }

  lemma LeftMarked(m: Word, idx: nat, left: Word)
    requires idx < WORD && !m[idx] && (idx + 1 < WORD ==> !m[idx + 1])
    requires Shr(m, idx) != ZERO && left == And(Shl(Shr(m, idx), idx), LeftBits(Bit(idx)))
    ensures var i := Ctz(LeastBit(left)); idx + 2 <= i < WORD && m[i] && forall j | idx <= j < i :: !m[j]
  {
    hide And, Shr, Shl, LeftBits, LeastBit, Bit;
    MaskLeft(m, idx);
    var j :| idx <= j < WORD && m[j];
    assert left[j];
    LeastMarked(left);
    var i := Ctz(LeastBit(left));
    assert forall k | 0 <= k < WORD :: left[k] == (m[k] && k > idx);
  }

  lemma TreeFirst(m: BinMem, v: BinView, nb: nat)
    requires BinsInv(m, v) && GoodSize(nb) && nb < 256
    requires forall j | nb / 8 <= j < WORD :: !m.smallmap[j]
    ensures forall a | a in v.sz && v.sz[a] >= nb :: !IsSmall(v.sz[a])
  {
    hide BinsInv;
    forall a | a in v.sz && v.sz[a] >= nb ensures !IsSmall(v.sz[a]) {
      if IsSmall(v.sz[a]) { SmallMarked(m, v, a); }
    }
  }

  /** dlmalloc up to the call to sys_alloc; 0 means the system must be asked. */
  method MallocLocal(m: MState, bytes: nat) returns (mem: int, nb: nat)
    requires m.Valid() && bytes < TWO32
    modifies m`smallmap, m`treemap, m`treebins, m`fd, m`bk, m`child, m`parent, m`index, m`v
    modifies m`head, m`foot, m`tiles, m`dv, m`dvsize, m`top, m`topsize
    ensures m.Valid()
    ensures nb == if bytes >= MAX_REQUEST then MAX_SIZE_T else Request2Size(bytes)
    ensures mem == 0 ==> m.G() == old(m.G()) && m.dv == old(m.dv) && m.dvsize == old(m.dvsize) && m.v == old(m.v)
    ensures mem == 0 ==> m.dvsize < nb && m.topsize <= nb && forall a | a in m.v.sz :: m.v.sz[a] < nb
    ensures mem != 0 ==> Allocated(old(m.G()), m.G(), mem - 8, nb) && bytes < MAX_REQUEST
    ensures mem != 0 ==> Chosen(old(m.G()), old(m.v.sz), old(m.dv), old(m.dvsize), nb, mem - 8)
    ensures mem != 0 ==> VictimAfter(old(m.v.sz), old(m.dv), old(m.dvsize), nb, mem - 8, m.dv, m.dvsize)
    ensures mem != 0 ==> Foremost(old(m.v), mem - 8)
  {
    hide Foremost;
    hide TagsOk, SegsOk, BinsInv, FootprintOk, Known, Allocated, Match, BestBinned, DvServes, VictimAfter, KeptOk;
    hide Chosen, LeftToDv;
    if bytes <= MAX_SMALL_REQUEST {
      nb := if bytes < MIN_REQUEST then MIN_CHUNK_SIZE else PadRequest(bytes);
      mem := MallocSized(m, nb, true);
    } else if bytes >= MAX_REQUEST {
      nb := MAX_SIZE_T;
      SizesBounded(m, {});
      TopBound(m);
      DvSize(m, {});
      mem := 0;
    } else {
      nb := PadRequest(bytes);
      mem := MallocSized(m, nb, false);
    }
  }

  /** A request of nb bytes, from the bins or, if they are not to serve it, from the victim or top. */
  method MallocSized(m: MState, nb: nat, small: bool) returns (mem: int)
    requires m.Valid() && GoodSize(nb) && (small <==> nb < 256)
    modifies m`smallmap, m`treemap, m`treebins, m`fd, m`bk, m`child, m`parent, m`index, m`v
    modifies m`head, m`foot, m`tiles, m`dv, m`dvsize, m`top, m`topsize
    ensures m.Valid()
    ensures mem == 0 ==> m.G() == old(m.G()) && m.dv == old(m.dv) && m.dvsize == old(m.dvsize) && m.v == old(m.v)
    ensures mem == 0 ==> m.dvsize < nb && m.topsize <= nb && forall a | a in m.v.sz :: m.v.sz[a] < nb
    ensures mem != 0 ==> Allocated(old(m.G()), m.G(), mem - 8, nb)
    ensures mem != 0 ==> Chosen(old(m.G()), old(m.v.sz), old(m.dv), old(m.dvsize), nb, mem - 8)
    ensures mem != 0 ==> VictimAfter(old(m.v.sz), old(m.dv), old(m.dvsize), nb, mem - 8, m.dv, m.dvsize)
    ensures mem != 0 ==> Foremost(old(m.v), mem - 8)
  {
    hide Foremost;
    hide TagsOk, SegsOk, BinsInv, FootprintOk, Known, Allocated, Match, BestBinned, DvServes, VictimAfter, KeptOk;
    hide Chosen, LeftToDv;
    SizesBounded(m, {});
    if small {
      mem := MallocSmall(m, nb);
    } else {
      mem := MallocTrees(m, nb);
    }
    if mem == 0 {
      mem := MallocRest(m, nb);
    }
  }

  /** The large-request half of dlmalloc. */
  method MallocTrees(m: MState, nb: nat) returns (mem: int)
    requires m.Valid() && 256 <= nb < TWO32 && nb % 8 == 0
    modifies m`smallmap, m`treemap, m`treebins, m`fd, m`bk, m`child, m`parent, m`index, m`v
    modifies m`head, m`foot, m`tiles
    ensures m.Valid()
    ensures mem == 0 ==> m.G() == old(m.G()) && m.v == old(m.v) && DvServes(m.v.sz, m.dvsize, nb)
    ensures mem != 0 ==> Allocated(old(m.G()), m.G(), mem - 8, nb) && BestBinned(old(m.v.sz), nb, mem - 8)
    ensures mem != 0 && nb <= old(m.dvsize) ==> mem - 8 in old(m.v.sz) && old(m.v.sz)[mem - 8] < old(m.dvsize)
    ensures mem != 0 ==> Chosen(old(m.G()), old(m.v.sz), old(m.dv), old(m.dvsize), nb, mem - 8)
    ensures mem != 0 ==> VictimAfter(old(m.v.sz), old(m.dv), old(m.dvsize), nb, mem - 8, m.dv, m.dvsize)
    ensures mem != 0 ==> Foremost(old(m.v), mem - 8)
  {
    hide Foremost;
    hide TagsOk, SegsOk, BinsInv, FootprintOk, Known, Allocated, Match, KeptOk;
    mem := 0;
    if m.treemap != ZERO {
      mem := TmallocLarge(m, nb);
    } else {
      TreesEmpty(m.Mem(), m.v);
    }
  }

  /** Nothing binned is to be used: the victim, or top. */
  method MallocRest(m: MState, nb: nat) returns (mem: int)
    requires m.Valid() && GoodSize(nb)
    requires nb < 256 ==> LeftToDv(m.v.sz, m.dvsize, nb)
    requires nb >= 256 ==> DvServes(m.v.sz, m.dvsize, nb)
    modifies m`head, m`foot, m`tiles, m`dv, m`dvsize, m`top, m`topsize
    ensures m.Valid()
    ensures mem == 0 ==> m.G() == old(m.G()) && m.dv == old(m.dv) && m.dvsize == old(m.dvsize) && m.v == old(m.v)
    ensures mem == 0 ==> m.dvsize < nb && m.topsize <= nb && forall a | a in m.v.sz :: m.v.sz[a] < nb
    ensures mem != 0 ==> Allocated(old(m.G()), m.G(), mem - 8, nb)
    ensures mem != 0 ==> Chosen(old(m.G()), old(m.v.sz), old(m.dv), old(m.dvsize), nb, mem - 8)
    ensures mem != 0 ==> VictimAfter(old(m.v.sz), old(m.dv), old(m.dvsize), nb, mem - 8, m.dv, m.dvsize)
    ensures mem != 0 ==> Foremost(old(m.v), mem - 8)
  {
    hide TagsOk, SegsOk, BinsInv, FootprintOk, Known, Allocated, Match, BestBinned, KeptOk;
    NotBinned(m);
    mem := 0;
    if nb <= m.dvsize {
      mem := AllocDv(m, nb);
    } else if nb < m.topsize {
      mem := AllocTop(m, nb);
    }
  }

  lemma TopBound(m: MState)
    requires m.Valid()
    ensures m.topsize < TWO32 - TOP_FOOT_SIZE
    ensures m.topsize > 0 ==> m.top > 0
  {
    hide BinsInv, SegsOk, FootprintOk, Known, KeptOk;
  }

  lemma TreesEmpty(m: BinMem, v: BinView)
    requires BinsInv(m, v) && m.treemap == ZERO
    ensures forall a | a in v.sz :: IsSmall(v.sz[a])
  {
    hide BinsInv;
    forall a | a in v.sz ensures IsSmall(v.sz[a]) {
      if !IsSmall(v.sz[a]) { TreeMarked(m, v, a); }
    }
  }
}
