/** The best-fit search of tmalloc_large and tmalloc_small over the tries. */
module TreeSearch {
  import opened Words
  import opened BitMaps
  import opened TreeIndex
  import opened Keys
  import opened Rings
  import opened Tries
  import opened Bins
  import opened Tiling
  import opened State
  import opened TreeInsert

  /** What the search needs of the bins. */
  ghost predicate Searchable(m: BinMem, v: BinView) {
    && TrieOk(v.trie, v.pos, v.sz, m.child, m.parent, m.roots)
    && TreeMapOk(v.trie, m.treemap)
  }

  /** Node a fits a request of nb bytes. */
  ghost predicate Cand(v: BinView, a: int, nb: nat) { a in v.pos && a in v.sz && v.sz[a] >= nb }

  /** Node a lies in the subtree at q. */
  ghost predicate Under(v: BinView, a: int, q: Pos) { a in v.pos && v.pos[a].bin == q.bin && q.path <= v.pos[a].path }

  /** Node w fits no worse than a. */
  ghost predicate Dom(v: BinView, a: int, w: int) { a in v.sz && w in v.pos && w in v.sz && v.sz[w] <= v.sz[a] }

  ghost predicate Best(v: BinView, nb: nat, best: int, rsize: nat) {
    || (best == 0 && nb < TWO32 && rsize == Sub32(0, nb))
    || (Cand(v, best, nb) && rsize == v.sz[best] - nb)
  }

  // ----- facts about one node

  lemma NodeFacts(m: BinMem, v: BinView, a: int)
    requires Searchable(m, v) && a in v.pos
    ensures a > 0 && v.pos[a] in v.trie && v.trie[v.pos[a]] == a && a in v.sz && Fits(v.sz[a], v.pos[a])
    ensures |v.pos[a].path| <= 32 && |m.roots| == NTREEBINS
  {
    hide Closed, KidsOk, ParentsOk, TreeMapOk, BinOf, PathOf;
  }

  /** A node below q other than the one at q lies below one of its children. */
  lemma BelowChild(m: BinMem, v: BinView, t: int, a: int) returns (b: bool)
    requires Searchable(m, v) && t in v.pos && Under(v, a, v.pos[t]) && a != t
    ensures var c := Kid(m.child, t, b); c in v.pos && v.pos[c] == ChildPos(v.pos[t], b) && Under(v, a, v.pos[c])
  {
    hide ParentsOk, RootsOk, Sized, TreeMapOk;
    var q, p := v.pos[t], v.pos[a];
    assert v.trie[q] == t && v.trie[p] == a;
    var n := |q.path|;
    assert p.path[..n] == q.path;
    var l := |p.path|;
    assert p.path[..l] == p.path;
    b := p.path[n];
    assert p.path[..n + 1] == q.path + [b];
    assert Pos(p.bin, p.path[..n + 1]) in v.trie;
  }

  lemma ChildPlaced(m: BinMem, v: BinView, t: int, b: bool)
    requires Searchable(m, v) && t in v.pos && Kid(m.child, t, b) != 0
    ensures var c := Kid(m.child, t, b); c in v.pos && v.pos[c] == ChildPos(v.pos[t], b) && c != t
  {
    hide ParentsOk, RootsOk, Sized, TreeMapOk, Closed;
    ChildNotSelf(v.pos[t], b);
  }

  /** Every node of a left subtree is smaller than every node of the right one. */
  lemma LeftSmaller(m: BinMem, v: BinView, q: Pos, a: int, c: int)
    requires Searchable(m, v) && Under(v, a, ChildPos(q, false)) && Under(v, c, ChildPos(q, true))
    ensures a in v.sz && c in v.sz && v.sz[a] < v.sz[c]
  {
    hide Searchable, BinOf, PathOf;
    NodeFacts(m, v, a);
    NodeFacts(m, v, c);
    var n := |q.path|;
    var pa, pc := PathOf(v.sz[a]), PathOf(v.sz[c]);
    assert pa[..n + 1] == q.path + [false] by { assert v.pos[a].path[..n + 1] == q.path + [false]; }
    assert pc[..n + 1] == q.path + [true] by { assert v.pos[c].path[..n + 1] == q.path + [true]; }
    assert pa[..n] == pa[..n + 1][..n] == q.path;
    assert pc[..n] == pc[..n + 1][..n] == q.path;
    assert pa[n] == pa[..n + 1][n] && pc[n] == pc[..n + 1][n];
    PathOrder(v.sz[a], v.sz[c], n);
  }

  /** Nodes left of the path of nb are too small; nodes right of it all fit. */
  lemma BesidePath(m: BinMem, v: BinView, nb: nat, d: nat, a: int)
    requires Searchable(m, v) && 256 <= nb < TWO32 && BinOf(nb) < NTREEBINS && d < 32
    requires Under(v, a, ChildPos(Step(nb, d), !PathOf(nb)[d]))
    ensures a in v.sz && (if PathOf(nb)[d] then v.sz[a] < nb else nb < v.sz[a])
  {
    hide Searchable, BinOf, PathOf;
    NodeFacts(m, v, a);
    var p, s := PathOf(nb), v.sz[a];
    var pa := PathOf(s);
    assert pa[..d + 1] == p[..d] + [!p[d]] by { assert v.pos[a].path[..d + 1] == p[..d] + [!p[d]]; }
    assert pa[..d] == pa[..d + 1][..d] == p[..d];
    assert pa[d] == pa[..d + 1][d];
    if p[d] { PathOrder(s, nb, d); } else { PathOrder(nb, s, d); }
  }

  /** A node on the path of nb is smaller than one that branched right off the path earlier. */
  lemma PathBeforeRight(m: BinMem, v: BinView, nb: nat, e: nat, d: nat, a: int, c: int)
    requires Searchable(m, v) && 256 <= nb < TWO32 && BinOf(nb) < NTREEBINS && e < d <= 32
    requires !PathOf(nb)[e] && Under(v, a, Step(nb, d)) && Under(v, c, ChildPos(Step(nb, e), true))
    ensures a in v.sz && c in v.sz && v.sz[a] < v.sz[c]
  {
    hide Searchable, BinOf, PathOf;
    var p := PathOf(nb);
    assert p[..d][..e + 1] == p[..e] + [p[e]];
    assert ChildPos(Step(nb, e), false).path <= v.pos[a].path;
    LeftSmaller(m, v, Step(nb, e), a, c);
  }

  // ----- descending for an exact fit

  /** The root of the deepest right subtree not taken so far: it branched off the path of nb after e bits. */
  ghost predicate Rst(v: BinView, nb: nat, d: nat, rst: int, e: nat)
    requires BinOf(nb) < NTREEBINS
  {
    rst == 0 || (rst in v.pos && e < d <= 32 && !PathOf(nb)[e] && v.pos[rst] == ChildPos(Step(nb, e), true))
  }

  /** Node a has not been lost: it is still to be visited, or something at least as good is. */
  ghost predicate Kept(v: BinView, a: int, q: Pos, rst: int, best: int) {
    || Under(v, a, q)
    || (rst in v.pos && Under(v, a, v.pos[rst]))
    || Dom(v, a, best)
    || Dom(v, a, rst)
  }

  ghost predicate DescentInv(v: BinView, nb: nat, t: int, k: nat, d: nat, rst: int, e: nat, best: int, rsize: nat)
    requires BinOf(nb) < NTREEBINS
  {
    && d <= 32 && k < TWO32 && Bits(k, 32 - d) == PathOf(nb)[d..]
    && t in v.pos && v.pos[t] == Step(nb, d)
    && Rst(v, nb, d, rst, e)
    && Best(v, nb, best, rsize)
    && (best != 0 ==> v.pos[best].bin == BinOf(nb))
    && forall a | Cand(v, a, nb) && v.pos[a].bin == BinOf(nb) :: Kept(v, a, Step(nb, d), rst, best)
  }

  /** Visiting node t: it becomes the best so far exactly when it fits and fits better. */
  lemma Visit(m: BinMem, v: BinView, nb: nat, t: int, best: int, rsize: nat)
    requires Searchable(m, v) && t in v.pos && t in v.sz && v.sz[t] < TWO32 && 0 < nb < TWO32
    requires Best(v, nb, best, rsize)
    requires best in v.sz ==> v.sz[best] < TWO32
    ensures var trem := Sub32(v.sz[t], nb);
            && (trem < rsize ==> Best(v, nb, t, trem) && (best != 0 ==> Dom(v, best, t)) && Dom(v, t, t))
            && (trem >= rsize ==> (Cand(v, t, nb) ==> Dom(v, t, best)))
  {
    hide Searchable;
  }

  function NextRst(rst: int, rt: int, c: int): int { if rt != 0 && rt != c then rt else rst }

  /** The right subtree just passed by holds smaller nodes than the one remembered before. */
  lemma DeeperRst(m: BinMem, v: BinView, nb: nat, t: int, d: nat, rst: int, e: nat, a: int)
    requires BinOf(nb) < NTREEBINS && d <= 32 && t in v.pos && rst in v.pos && rst != 0
    requires Under(v, a, v.pos[rst]) || Dom(v, a, rst)
    requires v.pos[t] == Step(nb, d) && Rst(v, nb, d, rst, e)
    requires Kid(m.child, t, true) != 0 && a in v.sz && 256 <= nb < TWO32
    requires Searchable(m, v)
    ensures Dom(v, a, Kid(m.child, t, true))
  {
    hide Searchable, BinOf, PathOf, Step;
    var rt := Kid(m.child, t, true);
    ChildPlaced(m, v, t, true);
    UnderSelf(v, rst);
    ChildUnder(v, rt, Step(nb, d), true);
    PathBeforeRight(m, v, nb, e, d, rt, rst);
    if Under(v, a, v.pos[rst]) {
      PathBeforeRight(m, v, nb, e, d, rt, a);
    }
  }

  lemma UnderSelf(v: BinView, a: int)
    requires a in v.pos
    ensures Under(v, a, v.pos[a])
  {}

  lemma ChildUnder(v: BinView, a: int, q: Pos, b: bool)
    requires a in v.pos && Under(v, a, ChildPos(q, b))
    ensures Under(v, a, q)
  {}

  /** A fitting node kept before visiting t is kept afterwards, or will be found below rst. */
  lemma KeptAfter(m: BinMem, v: BinView, nb: nat, t: int, k: nat, d: nat, rst: int, e: nat, best: int, best': int,
                  a: int)
    requires Searchable(m, v) && 256 <= nb < TWO32 && BinOf(nb) < NTREEBINS && d < 32 && k < TWO32
    requires Bits(k, 32 - d) == PathOf(nb)[d..]
    requires t in v.pos && v.pos[t] == Step(nb, d) && Rst(v, nb, d, rst, e)
    requires Cand(v, a, nb) && Kept(v, a, Step(nb, d), rst, best)
    requires Dom(v, a, best) ==> Dom(v, a, best')
    requires a == t ==> Dom(v, a, best')
    ensures var c := Kid(m.child, t, Top(k));
            var rst' := NextRst(rst, Kid(m.child, t, true), c);
            && (c != 0 ==> Kept(v, a, Step(nb, d + 1), rst', best'))
            && (c == 0 ==> Dom(v, a, best') || (rst' in v.pos && (Under(v, a, v.pos[rst']) || Dom(v, a, rst'))))
  {
    hide Searchable, BinOf, PathOf, Step, Top, Bits, Under;
    var c, rt := Kid(m.child, t, Top(k)), Kid(m.child, t, true);
    NextStep(nb, d, k);
    StepPath(nb, d, k);
    ZeroUnplaced(m, v);
    if !Dom(v, a, best') {
      if Under(v, a, Step(nb, d)) {
        var b := BelowChild(m, v, t, a);
        if b != Top(k) {
          BesidePath(m, v, nb, d, a);
          if c != 0 { ChildPlaced(m, v, t, Top(k)); ChildrenDiffer(v.pos[t]); }
        }
      } else if rt != 0 && rt != c {
        DeeperRst(m, v, nb, t, d, rst, e, a);
        ChildPlaced(m, v, t, true);
      }
    }
  }

  lemma ZeroUnplaced(m: BinMem, v: BinView)
    requires Searchable(m, v)
    ensures 0 !in v.pos
  {}

  lemma ChildrenDiffer(q: Pos)
    ensures ChildPos(q, true) != ChildPos(q, false)
  {
    ChildNotSelf(q, true);
    ChildNotSelf(q, false);
  }

  lemma StepPath(nb: nat, d: nat, k: nat)
    requires BinOf(nb) < NTREEBINS && d < 32 && k < TWO32 && Bits(k, 32 - d) == PathOf(nb)[d..]
    ensures PathOf(nb)[d] == Top(k)
  {
    hide PathOf, BinOf, Top;
    Descend(k, 32 - d);
    assert PathOf(nb)[d..][0] == PathOf(nb)[d];
  }

  lemma BinsSearchable(m: BinMem, v: BinView)
    requires BinsInv(m, v)
    ensures Searchable(m, v) && NodesOk(v.rings, v.sz, v.pos)
  {
    hide RingsOk, Members, SmallMapOk, TreeMapOk, NodesOk, ChainedOk, IndexOk, TrieOk;
  }

  /** Every node below t fits. */
  ghost predicate AllFit(v: BinView, t: int, nb: nat) {
    t in v.pos && forall a | Under(v, a, v.pos[t]) :: Cand(v, a, nb)
  }

  lemma RstFits(m: BinMem, v: BinView, nb: nat, d: nat, rst: int, e: nat)
    requires Searchable(m, v) && 256 <= nb < TWO32 && BinOf(nb) < NTREEBINS
    requires Rst(v, nb, d, rst, e) && rst != 0
    ensures rst in v.pos && AllFit(v, rst, nb) && v.pos[rst].bin == BinOf(nb)
  {
    hide Searchable, BinOf, PathOf;
    forall a | Under(v, a, v.pos[rst]) ensures Cand(v, a, nb) {
      BesidePath(m, v, nb, e, a);
    }
  }

  /** How the descent ends: t is 0 or the root of what is still to be searched. */
  ghost predicate DescentEnd(v: BinView, nb: nat, t: int, best: int, rsize: nat) {
    && Best(v, nb, best, rsize)
    && (best != 0 ==> v.pos[best].bin == BinOf(nb))
    && (t != 0 ==> t in v.pos && v.pos[t].bin == BinOf(nb) && ((best != 0 && rsize == 0) || AllFit(v, t, nb)))
    && forall a | Cand(v, a, nb) && v.pos[a].bin == BinOf(nb) ::
         Dom(v, a, best) || (t in v.pos && (Under(v, a, v.pos[t]) || Dom(v, a, t)))
  }

  lemma DescentStart(m: BinMem, v: BinView, nb: nat)
    requires Searchable(m, v) && 256 <= nb < TWO32
    ensures BinOf(nb) < NTREEBINS && |m.roots| == NTREEBINS
    ensures var t := m.roots[BinOf(nb)]; t != 0 ==> DescentInv(v, nb, t, Key(nb), 0, 0, 0, 0, Sub32(0, nb))
  {
    hide Inverse, Sized, Closed, KidsOk, ParentsOk, BinOf, TreeMapOk, Key, Bits, MinSize;
    BinRange(nb);
    var t := m.roots[BinOf(nb)];
    assert Step(nb, 0) == Pos(BinOf(nb), []);
    assert PathOf(nb)[0..] == PathOf(nb);
    if t != 0 {
      RootPlaced(m, v, BinOf(nb));
      forall a | Cand(v, a, nb) && v.pos[a].bin == BinOf(nb) ensures Kept(v, a, Step(nb, 0), 0, 0) {}
    }
  }

  lemma RootPlaced(m: BinMem, v: BinView, i: nat)
    requires Searchable(m, v) && i < NTREEBINS && |m.roots| == NTREEBINS && m.roots[i] != 0
    ensures var t := m.roots[i]; t in v.pos && v.pos[t] == Pos(i, [])
  {
    hide Sized, Closed, KidsOk, ParentsOk, TreeMapOk;
  }

  /** The size of a node, as read from its head. */
  lemma NodeSize(m: BinMem, v: BinView, h: Heads, least: int, t: int)
    requires BinsInv(m, v) && Known(v.sz, h, least) && t in v.pos
    ensures t in v.sz && ChunkSize(h, t) == v.sz[t] && 256 <= v.sz[t] < TWO32 && t >= least && t > 0
  {
    hide RingsOk, SmallMapOk, TreeMapOk, ChainedOk, IndexOk, TrieOk;
  }

  /** Before the register runs out of bits an exact fit has been found. */
  lemma NotFull(m: BinMem, v: BinView, nb: nat, t: int, d: nat, rsize: nat)
    requires Searchable(m, v) && 256 <= nb < TWO32 && BinOf(nb) < NTREEBINS && d <= 32
    requires t in v.pos && v.pos[t] == Step(nb, d) && t in v.sz && v.sz[t] < TWO32
    requires Sub32(v.sz[t], nb) != 0
    ensures d < 32
  {
    hide Searchable, BinOf, PathOf;
    NodeFacts(m, v, t);
    if d == 32 {
      assert PathOf(nb)[..32] == PathOf(nb);
      assert PathOf(v.sz[t]) == PathOf(nb);
      PathInjective(v.sz[t], nb);
    }
  }

  lemma RstStep(m: BinMem, v: BinView, nb: nat, t: int, k: nat, d: nat, rst: int, e: nat)
    requires BinOf(nb) < NTREEBINS && d < 32 && k < TWO32 && t in v.pos && v.pos[t] == Step(nb, d)
    requires Bits(k, 32 - d) == PathOf(nb)[d..] && Rst(v, nb, d, rst, e)
    requires Searchable(m, v)
    ensures var c, rt := Kid(m.child, t, Top(k)), Kid(m.child, t, true);
            Rst(v, nb, d + 1, NextRst(rst, rt, c), if rt != 0 && rt != c then d else e)
  {
    hide Searchable, BinOf, PathOf, Step, Top, Bits;
    StepPath(nb, d, k);
    if Kid(m.child, t, true) != 0 { ChildPlaced(m, v, t, true); }
  }

  /** One unsuccessful step of the descent. */
  lemma DescentStep(m: BinMem, v: BinView, nb: nat, t: int, k: nat, d: nat, rst: int, e: nat, best: int, rsize: nat,
                    best': int, rsize': nat)
    requires Searchable(m, v) && 256 <= nb < TWO32 && BinOf(nb) < NTREEBINS
    requires DescentInv(v, nb, t, k, d, rst, e, best, rsize)
    requires t in v.sz && v.sz[t] < TWO32 && (best in v.sz ==> v.sz[best] < TWO32)
    requires var trem := Sub32(v.sz[t], nb);
             && best' == (if trem < rsize then t else best) && rsize' == (if trem < rsize then trem else rsize)
             && rsize' != 0
    ensures d < 32
    ensures var c := Kid(m.child, t, Top(k));
            var rt := Kid(m.child, t, true);
            var rst' := NextRst(rst, rt, c);
            var e' := if rt != 0 && rt != c then d else e;
            && (c != 0 ==> DescentInv(v, nb, c, Shl1(k), d + 1, rst', e', best', rsize'))
            && (c == 0 ==> DescentEnd(v, nb, rst', best', rsize'))
  {
    hide Searchable, BinOf, PathOf, Top, Bits, Under, Dom, Kept, Shl1, Rst, AllFit;
    ZeroUnplaced(m, v);
    NotFull(m, v, nb, t, d, rsize);
    Visit(m, v, nb, t, best, rsize);
    var c, rt := Kid(m.child, t, Top(k)), Kid(m.child, t, true);
    var rst' := NextRst(rst, rt, c);
    var e' := if rt != 0 && rt != c then d else e;
    RstStep(m, v, nb, t, k, d, rst, e);
    NextStep(nb, d, k);
    if c != 0 { ChildPlaced(m, v, t, Top(k)); }
    forall a | Cand(v, a, nb) && v.pos[a].bin == BinOf(nb)
      ensures c != 0 ==> Kept(v, a, Step(nb, d + 1), rst', best')
      ensures c == 0 ==> Dom(v, a, best') || (rst' in v.pos && (Under(v, a, v.pos[rst']) || Dom(v, a, rst')))
    {
      DomTrans(v, a, best, best');
      KeptAfter(m, v, nb, t, k, d, rst, e, best, best', a);
    }
    if c == 0 && rst' != 0 {
      RstFits(m, v, nb, d + 1, rst', e');
    }
  }

  lemma DomTrans(v: BinView, a: int, w: int, w': int)
    requires w' == w || (w != 0 ==> Dom(v, w, w'))
    requires 0 !in v.pos
    ensures Dom(v, a, w) ==> Dom(v, a, w')
  {}

  /** The first loop of tmalloc_large: look for a node of exactly nb bytes in bin idx. */
  method DescendExact(m: MState, nb: nat, idx: nat) returns (v: int, rsize: nat, t: int)
    requires m.BinsOk() && 256 <= nb < TWO32 && idx == BinOf(nb)
    requires idx < NTREEBINS == |m.treebins| && m.treebins[idx] != 0
    ensures DescentEnd(m.v, nb, t, v, rsize)
  {
    hide BinsInv, BinOf, Key, Bits, Searchable, DescentInv, DescentEnd, Known, PathOf;
    BinsSearchable(m.Mem(), m.v);
    DescentStart(m.Mem(), m.v, nb);
    v, rsize := 0, Sub32(0, nb);
    t := m.treebins[idx];
    var k := Key(nb);
    var rst := 0;
    ghost var d, e := 0, 0;
    while true
      invariant DescentInv(m.v, nb, t, k, d, rst, e, v, rsize) && d <= 32 && rsize != 0
      decreases 32 - d
    {
      DescentFacts(m, nb, t, k, d, rst, e, v, rsize);
      var trem := Sub32(ChunkSize(m.head, t), nb);
      ghost var v0, rsize0 := v, rsize;
      if trem < rsize {
        v := t;
        rsize := trem;
        if rsize == 0 {
          ExactEnd(m.Mem(), m.v, nb, t, k, d, rst, e, v0, rsize0);
          break;
        }
      }
      DescentStep(m.Mem(), m.v, nb, t, k, d, rst, e, v0, rsize0, v, rsize);
      var rt := Kid(m.child, t, true);
      t := Kid(m.child, t, Top(k));
      if rt != 0 && rt != t {
        rst := rt;
        e := d;
      }
      if t == 0 {
        t := rst;
        break;
      }
      DescentDepth(m.v, nb, t, Shl1(k), d + 1, rst, e, v, rsize);
      k := Shl1(k);
      d := d + 1;
    }
  }

  lemma DescentDepth(v: BinView, nb: nat, t: int, k: nat, d: nat, rst: int, e: nat, best: int, rsize: nat)
    requires BinOf(nb) < NTREEBINS && DescentInv(v, nb, t, k, d, rst, e, best, rsize)
    ensures d <= 32 && k < TWO32
  {}

  lemma DescentFacts(m: MState, nb: nat, t: int, k: nat, d: nat, rst: int, e: nat, best: int, rsize: nat)
    requires m.BinsOk() && BinOf(nb) < NTREEBINS && DescentInv(m.v, nb, t, k, d, rst, e, best, rsize)
    ensures t in m.v.sz && ChunkSize(m.head, t) == m.v.sz[t] && 256 <= m.v.sz[t] < TWO32 && k < TWO32 && d <= 32
    ensures best in m.v.sz ==> m.v.sz[best] < TWO32
  {
    hide BinsInv, Known, BinOf, Bits, PathOf, Kept, Rst;
    NodeSize(m.Mem(), m.v, m.head, m.least, t);
    if best != 0 { NodeSize(m.Mem(), m.v, m.head, m.least, best); }
    assert 0 !in m.v.sz by { ZeroFree(m.v.sz, m.head, m.least); }
  }

  lemma ZeroFree(sz: Sizes, h: Heads, least: int)
    requires Known(sz, h, least)
    ensures 0 !in sz
  {}

  lemma ExactEnd(m: BinMem, v: BinView, nb: nat, t: int, k: nat, d: nat, rst: int, e: nat, best: int, rsize: nat)
    requires Searchable(m, v) && 256 <= nb < TWO32 && BinOf(nb) < NTREEBINS
    requires DescentInv(v, nb, t, k, d, rst, e, best, rsize)
    requires t in v.sz && v.sz[t] < TWO32 && Sub32(v.sz[t], nb) == 0
    ensures DescentEnd(v, nb, t, t, 0)
  {
    hide Searchable, BinOf, PathOf, Bits, Kept, Rst;
    NodeFacts(m, v, t);
    forall a | Cand(v, a, nb) && v.pos[a].bin == BinOf(nb) ensures Dom(v, a, t) {}
  }

  // ----- the walk towards the smallest of a subtree

  ghost predicate WalkInv(v: BinView, nb: nat, t: int, best: int, rsize: nat) {
    && Best(v, nb, best, rsize)
    && (t != 0 ==> t in v.pos && ((best != 0 && rsize == 0) || AllFit(v, t, nb)))
    && forall a | Cand(v, a, nb) :: Dom(v, a, best) || (t in v.pos && (Under(v, a, v.pos[t]) || Dom(v, a, t)))
  }

  lemma BinOrder(m: BinMem, v: BinView, a: int, c: int)
    requires Searchable(m, v) && a in v.pos && c in v.pos && v.pos[a].bin < v.pos[c].bin
    ensures a in v.sz && c in v.sz && v.sz[a] < v.sz[c]
  {
    hide Searchable, BinOf, PathOf;
    NodeFacts(m, v, a);
    NodeFacts(m, v, c);
    if v.sz[c] <= v.sz[a] { BinMonotone(v.sz[c], v.sz[a]); }
  }

  lemma CandBin(m: BinMem, v: BinView, a: int, nb: nat)
    requires Searchable(m, v) && Cand(v, a, nb) && 256 <= nb < TWO32
    ensures v.pos[a].bin >= BinOf(nb)
  {
    hide Searchable, BinOf, PathOf;
    NodeFacts(m, v, a);
    BinMonotone(nb, v.sz[a]);
  }

  /** Something in bin idx fits: nothing in a later bin fits better. */
  lemma WalkFromDescent(m: BinMem, v: BinView, nb: nat, t: int, best: int, rsize: nat)
    requires Searchable(m, v) && 256 <= nb < TWO32
    requires DescentEnd(v, nb, t, best, rsize) && (t != 0 || best != 0)
    ensures WalkInv(v, nb, t, best, rsize)
  {
    hide Searchable, BinOf;
    ZeroUnplaced(m, v);
    forall a | Cand(v, a, nb) ensures Dom(v, a, best) || (t in v.pos && (Under(v, a, v.pos[t]) || Dom(v, a, t))) {
      CandBin(m, v, a, nb);
      if v.pos[a].bin > BinOf(nb) {
        if best != 0 {
          BinOrder(m, v, best, a);
        } else {
          UnderSelf(v, t);
          BinOrder(m, v, t, a);
        }
      }
    }
  }

  /** A bin whose root is null holds nothing. */
  lemma EmptyBin(m: BinMem, v: BinView, a: int)
    requires Searchable(m, v) && a in v.pos
    ensures v.pos[a].bin < NTREEBINS == |m.roots| && m.roots[v.pos[a].bin] != 0 && m.treemap[v.pos[a].bin]
  {
    hide KidsOk, ParentsOk, BinOf, PathOf;
    var q := v.pos[a];
    assert q in v.trie && Fits(v.sz[a], q);
    assert q.path[..0] == [];
    assert Pos(q.bin, q.path[..0]) in v.trie;
  }

  /** Nothing in bin idx fits: the root of the next non-empty bin is where to look. */
  lemma WalkFromBin(m: BinMem, v: BinView, nb: nat, i: nat)
    requires Searchable(m, v) && 0 < nb < TWO32 && i < NTREEBINS == |m.roots| && m.treemap[i]
    requires forall a | Cand(v, a, nb) :: v.pos[a].bin >= i
    requires forall a | a in v.pos && v.pos[a].bin == i :: Cand(v, a, nb)
    ensures m.roots[i] != 0 && WalkInv(v, nb, m.roots[i], 0, Sub32(0, nb))
  {
    hide Searchable;
    var t := m.roots[i];
    MarkedRoot(m, v, i);
    RootPlaced(m, v, i);
    forall a | Cand(v, a, nb) ensures Under(v, a, v.pos[t]) || Dom(v, a, t) {
      if v.pos[a].bin > i { BinOrder(m, v, t, a); }
    }
    forall a | Under(v, a, v.pos[t]) ensures Cand(v, a, nb) {}
  }

  lemma MarkedRoot(m: BinMem, v: BinView, i: nat)
    requires Searchable(m, v) && i < NTREEBINS == |m.roots| && m.treemap[i]
    ensures m.roots[i] != 0
  {
    hide Sized, Closed, KidsOk, ParentsOk;
  }

  function Leftmost(child: Kids, t: int): int {
    if Kid(child, t, false) != 0 then Kid(child, t, false) else Kid(child, t, true)
  }

  /** One step of the walk: the smallest of t's subtree is t itself or below its leftmost child. */
  lemma WalkStep(m: BinMem, v: BinView, nb: nat, t: int, best: int, rsize: nat, best': int, rsize': nat)
    requires Searchable(m, v) && 0 < nb < TWO32 && t != 0 && WalkInv(v, nb, t, best, rsize)
    requires t in v.sz && v.sz[t] < TWO32 && (best in v.sz ==> v.sz[best] < TWO32)
    requires var trem := Sub32(v.sz[t], nb);
             best' == (if trem < rsize then t else best) && rsize' == (if trem < rsize then trem else rsize)
    ensures WalkInv(v, nb, Leftmost(m.child, t), best', rsize')
  {
    hide Searchable, Under, AllFit;
    ZeroUnplaced(m, v);
    Visit(m, v, nb, t, best, rsize);
    var c := Leftmost(m.child, t);
    if c != 0 {
      ChildPlaced(m, v, t, Kid(m.child, t, false) == 0);
      if AllFit(v, t, nb) { AllFitBelow(m, v, nb, t, Kid(m.child, t, false) == 0); }
    }
    forall a | Cand(v, a, nb) ensures Dom(v, a, best') || (c in v.pos && (Under(v, a, v.pos[c]) || Dom(v, a, c))) {
      DomTrans(v, a, best, best');
      if !Dom(v, a, best') {
        if Under(v, a, v.pos[t]) {
          WalkBelow(m, v, t, a);
        } else {
          VisitedDom(v, nb, a, t, best, rsize, best');
        }
      }
    }
  }

  lemma VisitedDom(v: BinView, nb: nat, a: int, t: int, best: int, rsize: nat, best': int)
    requires Cand(v, a, nb) && Dom(v, a, t) && Best(v, nb, best, rsize)
    requires t in v.pos && ((best != 0 && rsize == 0) || AllFit(v, t, nb))
    requires Cand(v, t, nb) ==> Dom(v, t, best')
    requires best != 0 ==> best' == best || Dom(v, best, best')
    ensures Dom(v, a, best')
  {
    if !(best != 0 && rsize == 0) { UnderSelf(v, t); }
  }

  lemma AllFitBelow(m: BinMem, v: BinView, nb: nat, t: int, b: bool)
    requires Searchable(m, v) && t in v.pos && Kid(m.child, t, b) != 0 && AllFit(v, t, nb)
    ensures AllFit(v, Kid(m.child, t, b), nb)
  {
    hide Searchable;
    ChildPlaced(m, v, t, b);
  }

  lemma WalkBelow(m: BinMem, v: BinView, t: int, a: int)
    requires Searchable(m, v) && t in v.pos && Under(v, a, v.pos[t]) && a != t
    ensures var c := Leftmost(m.child, t); c in v.pos && (Under(v, a, v.pos[c]) || Dom(v, a, c))
  {
    hide Searchable;
    ZeroUnplaced(m, v);
    var b := BelowChild(m, v, t, a);
    if b && Kid(m.child, t, false) != 0 {
      ChildPlaced(m, v, t, false);
      LeftSmaller(m, v, v.pos[t], Kid(m.child, t, false), a);
    }
  }

  // ----- the whole search

  /** The second loop: walk to the smallest chunk of the subtree. */
  method WalkLeftmost(m: MState, nb: nat, t0: int, v0: int, rsize0: nat) returns (v: int, rsize: nat)
    requires m.BinsOk() && 0 < nb < TWO32 && WalkInv(m.v, nb, t0, v0, rsize0)
    ensures WalkInv(m.v, nb, 0, v, rsize)
  {
    hide BinsInv, Searchable, WalkInv, Known;
    BinsSearchable(m.Mem(), m.v);
    var t := t0;
    v, rsize := v0, rsize0;
    ghost var depth: int := Depth(m.Mem(), m.v, t);
    while t != 0
      invariant WalkInv(m.v, nb, t, v, rsize)
      invariant depth == Depth(m.Mem(), m.v, t)
      decreases 33 - depth
    {
      WalkFacts(m, nb, t, v, rsize);
      ghost var v1, rsize1 := v, rsize;
      var trem := Sub32(ChunkSize(m.head, t), nb);
      if trem < rsize {
        rsize := trem;
        v := t;
      }
      WalkStep(m.Mem(), m.v, nb, t, v1, rsize1, v, rsize);
      t := Leftmost(m.child, t);
      depth := Depth(m.Mem(), m.v, t);
    }
  }

  ghost function Depth(m: BinMem, v: BinView, t: int): nat { if t in v.pos then |v.pos[t].path| else 33 }

  lemma WalkFacts(m: MState, nb: nat, t: int, best: int, rsize: nat)
    requires m.BinsOk() && WalkInv(m.v, nb, t, best, rsize) && t != 0
    ensures t in m.v.sz && ChunkSize(m.head, t) == m.v.sz[t] && 256 <= m.v.sz[t] < TWO32
    ensures best in m.v.sz ==> m.v.sz[best] < TWO32
    ensures Depth(m.Mem(), m.v, t) <= 32
    ensures Depth(m.Mem(), m.v, Leftmost(m.child, t)) > Depth(m.Mem(), m.v, t)
  {
    hide BinsInv, Known, Searchable, Under, Dom, AllFit;
    BinsSearchable(m.Mem(), m.v);
    NodeSize(m.Mem(), m.v, m.head, m.least, t);
    NodeFacts(m.Mem(), m.v, t);
    ZeroFree(m.v.sz, m.head, m.least);
    ZeroUnplaced(m.Mem(), m.v);
    if best != 0 { NodeSize(m.Mem(), m.v, m.head, m.least, best); }
    var b := Kid(m.child, t, false) == 0;
    if Kid(m.child, t, b) != 0 {
      ChildPlaced(m.Mem(), m.v, t, b);
      ChildNotSelf(m.v.pos[t], b);
    }
  }

  /** v is the smallest binned chunk of at least nb bytes, or there is none and v is 0. */
  ghost predicate SmallestFit(sz: Sizes, pos: Places, nb: nat, v: int, rsize: nat) {
    if v == 0 then
      rsize == TWO32 - nb && forall a | a in sz && !IsSmall(sz[a]) :: sz[a] < nb
    else
      && v in sz && v in pos && !IsSmall(sz[v]) && sz[v] >= nb && rsize == sz[v] - nb
      && forall a | a in sz && !IsSmall(sz[a]) && sz[a] >= nb :: sz[v] <= sz[a]
  }

  lemma WalkDone(m: BinMem, v: BinView, nb: nat, best: int, rsize: nat)
    requires BinsInv(m, v) && 0 < nb < TWO32 && WalkInv(v, nb, 0, best, rsize)
    ensures SmallestFit(v.sz, v.pos, nb, best, rsize)
  {
    hide RingsOk, SmallMapOk, TreeMapOk, ChainedOk, IndexOk, TrieOk;
    forall a | a in v.sz && !IsSmall(v.sz[a]) && v.sz[a] >= nb ensures best != 0 && v.sz[best] <= v.sz[a] {
      var n := v.rings[v.sz[a]][0];
      assert n in v.rings[v.sz[a]];
      assert Cand(v, n, nb);
      assert 0 !in v.sz;
      NodesNotZero(m, v);
    }
  }

  lemma NodesNotZero(m: BinMem, v: BinView)
    requires BinsInv(m, v)
    ensures 0 !in v.pos
  {
    BinsSearchable(m, v);
    hide BinsInv, Searchable;
    ZeroUnplaced(m, v);
  }

  lemma BinEmptyEnd(m: BinMem, v: BinView, nb: nat, v0: int, rsize: nat)
    requires Searchable(m, v) && 256 <= nb < TWO32 && BinOf(nb) < NTREEBINS == |m.roots|
    requires m.roots[BinOf(nb)] == 0 || DescentEnd(v, nb, 0, 0, rsize)
    ensures forall a | Cand(v, a, nb) :: v.pos[a].bin > BinOf(nb)
  {
    hide Searchable, BinOf;
    ZeroUnplaced(m, v);
    forall a | Cand(v, a, nb) ensures v.pos[a].bin > BinOf(nb) {
      CandBin(m, v, a, nb);
      if v.pos[a].bin == BinOf(nb) { EmptyBin(m, v, a); }
    }
  }

  /** The least marked bin above idx is the first that can hold a fitting chunk. */
  lemma NextBin(m: BinMem, v: BinView, nb: nat, left: Word)
    requires Searchable(m, v) && 256 <= nb < TWO32 && BinOf(nb) < NTREEBINS == |m.roots|
    requires forall a | Cand(v, a, nb) :: v.pos[a].bin > BinOf(nb)
    requires left == And(LeftBits(Bit(BinOf(nb))), m.treemap)
    ensures left == ZERO ==> WalkInv(v, nb, 0, 0, Sub32(0, nb))
    ensures left != ZERO ==> var i := Ctz(LeastBit(left));
                             i < NTREEBINS && m.roots[i] != 0 && WalkInv(v, nb, m.roots[i], 0, Sub32(0, nb))
  {
    hide Searchable, BinOf, LeftBits, LeastBit, And, Bit, WalkInv;
    var idx := BinOf(nb);
    MaskLeft(m.treemap, idx);
    assert forall j | 0 <= j < WORD :: left[j] == (m.treemap[j] && j > idx);
    forall a | Cand(v, a, nb) ensures v.pos[a].bin < WORD && left[v.pos[a].bin] { EmptyBin(m, v, a); }
    if left == ZERO {
      NoCand(v, nb);
    } else {
      LeastMarked(left);
      var i := Ctz(LeastBit(left));
      forall a | a in v.pos && v.pos[a].bin == i ensures Cand(v, a, nb) { LaterFits(m, v, nb, a); }
      WalkFromBin(m, v, nb, i);
    }
  }

  lemma NoCand(v: BinView, nb: nat)
    requires (forall a :: !Cand(v, a, nb)) && 0 < nb < TWO32
    ensures WalkInv(v, nb, 0, 0, Sub32(0, nb))
  {}

  lemma LaterFits(m: BinMem, v: BinView, nb: nat, a: int)
    requires Searchable(m, v) && 256 <= nb < TWO32 && a in v.pos && v.pos[a].bin > BinOf(nb)
    ensures Cand(v, a, nb)
  {
    hide Searchable, BinOf, PathOf;
    NodeFacts(m, v, a);
    if v.sz[a] <= nb { BinMonotone(v.sz[a], nb); }
  }

  /** The search of tmalloc_large. */
  method SearchLarge(m: MState, nb: nat) returns (v: int, rsize: nat)
    requires m.BinsOk() && 256 <= nb < TWO32
    ensures SmallestFit(m.v.sz, m.v.pos, nb, v, rsize)
  {
    hide BinsInv, BinOf, Searchable, WalkInv, DescentEnd, Known, SmallestFit, And, LeftBits, LeastBit, Bit;
    BinsSearchable(m.Mem(), m.v);
    DescentStart(m.Mem(), m.v, nb);
    v, rsize := 0, Sub32(0, nb);
    var idx := BinOf(nb);
    var t := m.treebins[idx];
    if t != 0 {
      v, rsize, t := DescendExact(m, nb, idx);
    }
    if t == 0 && v == 0 {
      BinEmptyEnd(m.Mem(), m.v, nb, v, rsize);
      BestNone(m.Mem(), m.v, nb, t, rsize);
      var leftbits := And(LeftBits(Bit(idx)), m.treemap);
      NextBin(m.Mem(), m.v, nb, leftbits);
      if leftbits != ZERO {
        var leastbit := LeastBit(leftbits);
        var i := Ctz(leastbit);
        t := m.treebins[i];
      }
    } else {
      WalkFromDescent(m.Mem(), m.v, nb, t, v, rsize);
    }
    v, rsize := WalkLeftmost(m, nb, t, v, rsize);
    WalkDone(m.Mem(), m.v, nb, v, rsize);
  }

  lemma BestNone(m: BinMem, v: BinView, nb: nat, t: int, rsize: nat)
    requires Searchable(m, v) && nb < TWO32
    requires rsize == Sub32(0, nb) || DescentEnd(v, nb, t, 0, rsize)
    ensures rsize == Sub32(0, nb)
  {
    hide Searchable;
    ZeroUnplaced(m, v);
  }

  lemma LeastBin(m: BinMem, v: BinView, nb: nat)
    requires Searchable(m, v) && 0 < nb < 256 && m.treemap != ZERO && |m.roots| == NTREEBINS
    ensures var i := Ctz(LeastBit(m.treemap));
            i < NTREEBINS && m.roots[i] != 0 && WalkInv(v, nb, m.roots[i], 0, Sub32(0, nb))
  {
    hide Searchable, LeastBit, WalkInv, BinOf, PathOf;
    LeastMarked(m.treemap);
    forall a | a in v.pos ensures Cand(v, a, nb) && v.pos[a].bin >= Ctz(LeastBit(m.treemap)) {
      EmptyBin(m, v, a);
      NodeFacts(m, v, a);
    }
    WalkFromBin(m, v, nb, Ctz(LeastBit(m.treemap)));
  }

  /** The search of tmalloc_small: some tree bin is non-empty, and everything there fits. */
  method SearchSmall(m: MState, nb: nat) returns (v: int, rsize: nat)
    requires m.BinsOk() && 0 < nb < 256 && m.treemap != ZERO
    ensures v != 0 && SmallestFit(m.v.sz, m.v.pos, nb, v, rsize)
  {
    hide BinsInv, BinOf, Searchable, WalkInv, Known, LeastBit;
    BinsSearchable(m.Mem(), m.v);
    RootCount(m.Mem(), m.v);
    LeastBin(m.Mem(), m.v, nb);
    var leastbit := LeastBit(m.treemap);
    var i := Ctz(leastbit);
    var t := m.treebins[i];
    ghost var root := t;
    WalkFacts(m, nb, t, 0, Sub32(0, nb));
    v := t;
    rsize := Sub32(ChunkSize(m.head, t), nb);
    ZeroFree(m.v.sz, m.head, m.least);
    WalkStep(m.Mem(), m.v, nb, t, 0, Sub32(0, nb), v, rsize);
    t := Leftmost(m.child, t);
    v, rsize := WalkLeftmost(m, nb, t, v, rsize);
    WalkDone(m.Mem(), m.v, nb, v, rsize);
    assert root in m.v.sz && !IsSmall(m.v.sz[root]);
  }

  lemma RootCount(m: BinMem, v: BinView)
    requires Searchable(m, v)
    ensures |m.roots| == NTREEBINS
  {}
}
