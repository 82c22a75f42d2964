/** insert_large_chunk: descending the trie of a bin and adding a node or extending a ring. */
module TreeInsert {
  import opened Words
  import opened BitMaps
  import opened TreeIndex
  import opened Keys
  import opened Rings
  import opened Tries
  import opened Bins
  import opened Tiling
  import opened State
  import opened Keeping
  import SmallBins

  // ----- a new node

  function AddNodeView(v: BinView, x: int, s: nat, q: Pos): BinView {
    BinView(v.rings[s := [x]], v.sz[x := s], v.trie[q := x], v.pos[x := q])
  }

  /** The memory after linking x in as the only chunk of its size, at position q. */
  function AddNodeMem(m: BinMem, v: BinView, x: int, q: Pos): BinMem
    requires q.path == [] ==> q.bin < WORD && q.bin < |m.roots|
  {
    var bare := m.child[(x, false) := 0][(x, true) := 0];
    var base := m.(fd := m.fd[x := x], bk := m.bk[x := x], child := bare,
                   parent := m.parent[x := ParentPtr(v.trie, q)], index := m.index[x := q.bin]);
    if q.path == [] then base.(treemap := Or(m.treemap, Bit(q.bin)), roots := m.roots[q.bin := x])
    else base.(child := bare[(Slot(v.trie, ParentPos(q)), Side(q)) := x])
  }

  ghost predicate CanAdd(v: BinView, x: int, s: nat, q: Pos) {
    && x !in v.sz && x > 0 && GoodSize(s) && !IsSmall(s) && s !in v.rings
    && q !in v.trie && Fits(s, q) && (q.path != [] ==> ParentPos(q) in v.trie)
  }

  lemma AddNodeRings(m: BinMem, v: BinView, x: int, s: nat)
    requires RingsOk(v.rings, m.fd, m.bk) && Members(v.rings, v.sz) && SmallMapOk(v.rings, m.smallmap)
    requires x !in v.sz && x > 0 && GoodSize(s) && !IsSmall(s) && s !in v.rings
    ensures RingsOk(v.rings[s := [x]], m.fd[x := x], m.bk[x := x]) && Members(v.rings[s := [x]], v.sz[x := s])
    ensures SmallMapOk(v.rings[s := [x]], m.smallmap)
  {
    assert Linked(m.fd[x := x], m.bk[x := x], [x], 0);
    SetRing(v.rings, v.sz, m.fd, m.bk, m.fd[x := x], m.bk[x := x], s, [x]);
    MembersAdd(v.rings, v.sz, x, s, [x]);
  }

  lemma AddNodeNodes(v: BinView, x: int, s: nat, q: Pos)
    requires NodesOk(v.rings, v.sz, v.pos) && x !in v.sz && !IsSmall(s) && s !in v.rings
    ensures NodesOk(v.rings[s := [x]], v.sz[x := s], v.pos[x := q])
  {}

  lemma SizedFrame(t: Trie, pos: Places, sz: Sizes, x: int, s: nat)
    requires Sized(t, sz) && Inverse(t, pos) && x !in pos
    ensures Sized(t, sz[x := s]) && Sized(t, sz - {x})
  {
    hide Fits;
  }

  lemma AddNodeChained(m: BinMem, v: BinView, x: int, s: nat, q: Pos)
    requires ChainedOk(v.sz, v.pos, m.child, m.parent) && IndexOk(v.sz, m.index) && Inverse(v.trie, v.pos)
    requires CanAdd(v, x, s, q) && (q.path == [] ==> q.bin < WORD && q.bin < |m.roots|)
    ensures var m' := AddNodeMem(m, v, x, q);
            && ChainedOk(v.sz[x := s], v.pos[x := q], m'.child, m'.parent) && IndexOk(v.sz[x := s], m'.index)
  {
    hide PathOf, Or, BinOf;
  }

  lemma AddNodeTrie(m: BinMem, v: BinView, x: int, s: nat, q: Pos)
    requires TrieOk(v.trie, v.pos, v.sz, m.child, m.parent, m.roots) && TreeMapOk(v.trie, m.treemap)
    requires CanAdd(v, x, s, q) && x !in v.pos
    ensures q.bin < NTREEBINS
    ensures var m' := AddNodeMem(m, v, x, q);
            && TrieOk(v.trie[q := x], v.pos[x := q], v.sz[x := s], m'.child, m'.parent, m'.roots)
            && TreeMapOk(v.trie[q := x], m'.treemap)
  {
    hide PathOf, BinOf, Or;
    hide Inverse, Sized, Closed, KidsOk, ParentsOk, RootsOk, TreeMapOk;
    assert q.bin < NTREEBINS;
    AddNodeRoots(m, v, x, q);
    SizedFrame(v.trie, v.pos, v.sz, x, s);
    AddLeafShape(v.trie, v.pos, v.sz[x := s], q, x);
    AddNodeKids(m, v, x, q);
    AddLeafParents(v.trie, v.pos, q, x, m.parent, AddNodeMem(m, v, x, q).parent);
  }

  lemma AddNodeRoots(m: BinMem, v: BinView, x: int, q: Pos)
    requires RootsOk(v.trie, m.roots) && TreeMapOk(v.trie, m.treemap) && q.bin < NTREEBINS
    ensures |m.roots| == NTREEBINS
    ensures RootsOk(v.trie[q := x], AddNodeMem(m, v, x, q).roots)
    ensures TreeMapOk(v.trie[q := x], AddNodeMem(m, v, x, q).treemap)
  {
    RootsSet(v.trie, m.roots, q, x);
  }

  lemma AddNodeKids(m: BinMem, v: BinView, x: int, q: Pos)
    requires Inverse(v.trie, v.pos) && Closed(v.trie) && KidsOk(v.trie, v.pos, m.child)
    requires q !in v.trie && x !in v.pos && x > 0 && (q.path != [] ==> ParentPos(q) in v.trie)
    requires q.path == [] ==> q.bin < WORD && q.bin < |m.roots|
    ensures KidsOk(v.trie[q := x], v.pos[x := q], AddNodeMem(m, v, x, q).child)
  {
    hide Closed, KidsOk;
    var child' := AddNodeMem(m, v, x, q).child;
    forall a, b | a in v.pos ensures Kid(child', a, b) == if ChildPos(v.pos[a], b) == q then x else Kid(m.child, a, b) {
      ChildNotSelf(v.pos[a], b);
      if q.path != [] {
        assert ChildPos(ParentPos(q), Side(q)) == q by { assert q.path == q.path[..|q.path| - 1] + [Side(q)]; }
      }
    }
    assert forall b :: Kid(child', x, b) == 0;
    AddLeafKids(v.trie, v.pos, q, x, m.child, child');
  }

  lemma AddNode(m: BinMem, v: BinView, x: int, s: nat, q: Pos)
    requires BinsInv(m, v) && CanAdd(v, x, s, q)
    ensures q.bin < NTREEBINS && |m.roots| == NTREEBINS
    ensures BinsInv(AddNodeMem(m, v, x, q), AddNodeView(v, x, s, q))
  {
    hide RingsOk, Members, SmallMapOk, TreeMapOk, NodesOk, ChainedOk, IndexOk;
    hide Inverse, Sized, Closed, KidsOk, ParentsOk, PathOf, BinOf, Or;
    assert x !in v.pos by { NodesInSizes(v); }
    AddNodeTrie(m, v, x, s, q);
    AddNodeRings(m, v, x, s);
    AddNodeNodes(v, x, s, q);
    AddNodeChained(m, v, x, s, q);
  }

  lemma NodesInSizes(v: BinView)
    requires NodesOk(v.rings, v.sz, v.pos)
    ensures forall a | a in v.pos :: a in v.sz
  {}

  // ----- one more chunk of a size already present

  function ChainView(v: BinView, x: int, s: nat): BinView
    requires s in v.rings && v.rings[s] != []
  {
    v.(rings := v.rings[s := Insert2(v.rings[s], x)], sz := v.sz[x := s])
  }

  function ChainMem(m: BinMem, x: int, s: nat, t: int): BinMem {
    var f := At(m.fd, t);
    m.(fd := m.fd[t := x][x := f], bk := m.bk[f := x][x := t],
       child := m.child[(x, false) := 0][(x, true) := 0],
       parent := m.parent[x := 0], index := m.index[x := BinOf(s)])
  }

  lemma ChainRings(m: BinMem, v: BinView, x: int, s: nat)
    requires RingsOk(v.rings, m.fd, m.bk) && Members(v.rings, v.sz) && SmallMapOk(v.rings, m.smallmap)
    requires x !in v.sz && x > 0 && GoodSize(s) && !IsSmall(s) && s in v.rings
    ensures v.rings[s] != []
    ensures var m', v' := ChainMem(m, x, s, v.rings[s][0]), ChainView(v, x, s);
            RingsOk(v'.rings, m'.fd, m'.bk) && Members(v'.rings, v'.sz) && SmallMapOk(v'.rings, m.smallmap)
    ensures At(m.fd, v.rings[s][0]) in v.sz
  {
    var r := v.rings[s];
    ChainedRing(m, v, x, s);
    var m' := ChainMem(m, x, s, r[0]);
    SetRing(v.rings, v.sz, m.fd, m.bk, m'.fd, m'.bk, s, Insert2(r, x));
    assert forall a :: a in Insert2(r, x) <==> a == x || a in r by { assert r == [r[0]] + r[1..]; }
    MembersAdd(v.rings, v.sz, x, s, Insert2(r, x));
    hide RingsOk, Members, Ring;
  }

  lemma ChainedRing(m: BinMem, v: BinView, x: int, s: nat)
    requires RingsOk(v.rings, m.fd, m.bk) && Members(v.rings, v.sz) && x !in v.sz && x > 0 && !IsSmall(s)
    requires s in v.rings
    ensures v.rings[s] != [] && At(m.fd, v.rings[s][0]) in v.sz
    ensures var m' := ChainMem(m, x, s, v.rings[s][0]);
            && Ring(m'.fd, m'.bk, Insert2(v.rings[s], x)) && x !in v.rings[s]
            && OnlyRing(m.fd, m.bk, m'.fd, m'.bk, v.sz, s)
  {
    var r := v.rings[s];
    assert Ring(m.fd, m.bk, r);
    RingNeighbours(m.fd, m.bk, r, 0);
    RingInsert(m.fd, m.bk, r, x);
  }

  lemma ChainTrees(m: BinMem, v: BinView, x: int, s: nat)
    requires NodesOk(v.rings, v.sz, v.pos) && ChainedOk(v.sz, v.pos, m.child, m.parent) && IndexOk(v.sz, m.index)
    requires x !in v.sz && !IsSmall(s) && s in v.rings && v.rings[s] != []
    ensures var m', v' := ChainMem(m, x, s, v.rings[s][0]), ChainView(v, x, s);
            NodesOk(v'.rings, v'.sz, v.pos) && ChainedOk(v'.sz, v.pos, m'.child, m'.parent) && IndexOk(v'.sz, m'.index)
  {
    hide BinOf;
  }

  lemma ChainTrie(m: BinMem, v: BinView, x: int, s: nat)
    requires TrieOk(v.trie, v.pos, v.sz, m.child, m.parent, m.roots)
    requires x !in v.pos
    ensures var child', parent' := m.child[(x, false) := 0][(x, true) := 0], m.parent[x := 0];
            TrieOk(v.trie, v.pos, v.sz[x := s], child', parent', m.roots)
  {
    hide Fits, Sized;
    SizedFrame(v.trie, v.pos, v.sz, x, s);
  }

  lemma Chain(m: BinMem, v: BinView, x: int, s: nat)
    requires BinsInv(m, v) && x !in v.sz && x > 0 && GoodSize(s) && !IsSmall(s) && s in v.rings
    ensures v.rings[s] != []
    ensures BinsInv(ChainMem(m, x, s, v.rings[s][0]), ChainView(v, x, s))
    ensures At(m.fd, v.rings[s][0]) in v.sz
  {
    hide RingsOk, Members, SmallMapOk, TreeMapOk, NodesOk, ChainedOk, IndexOk, TrieOk;
    ChainRings(m, v, x, s);
    ChainTrees(m, v, x, s);
    assert x !in v.pos by { NodesInSizes(v); }
    ChainTrie(m, v, x, s);
  }

  // ----- the descent

  /** Where the descent for size s stands after d steps. */
  function Step(s: nat, d: nat): Pos
    requires BinOf(s) < NTREEBINS && d <= 32
  {
    Pos(BinOf(s), PathOf(s)[..d])
  }

  /** t is the node reached after d steps; none of the nodes passed has size s. */
  ghost predicate Reached(v: BinView, s: nat, t: int, d: nat, k: nat)
    requires BinOf(s) < NTREEBINS
  {
    && d <= 32 && k < TWO32
    && Bits(k, 32 - d) == PathOf(s)[d..]
    && t in v.pos && v.pos[t] == Step(s, d)
    && forall e | 0 <= e < d :: Step(s, e) in v.trie && v.trie[Step(s, e)] in v.sz && v.sz[v.trie[Step(s, e)]] != s
  }

  lemma ReachedNode(m: BinMem, v: BinView, s: nat, t: int, d: nat, k: nat)
    requires BinsInv(m, v) && BinOf(s) < NTREEBINS && 256 <= s < TWO32 && Reached(v, s, t, d, k)
    ensures t in v.sz && v.sz[t] in v.rings && v.rings[v.sz[t]] != [] && v.rings[v.sz[t]][0] == t
    ensures Step(s, d) in v.trie && v.trie[Step(s, d)] == t && Fits(v.sz[t], Step(s, d)) && t > 0
    ensures v.sz[t] != s ==> d < 32
  {
    hide RingsOk, Members, SmallMapOk, TreeMapOk, ChainedOk, IndexOk, PathOf, BinOf;
    hide Closed, KidsOk, ParentsOk, RootsOk;
    assert Step(s, d) in v.trie;
    if d == 32 {
      assert PathOf(s)[..32] == PathOf(s);
      assert PathOf(v.sz[t]) == PathOf(s);
      PathInjective(v.sz[t], s);
    }
  }

  lemma NextStep(s: nat, d: nat, k: nat)
    requires BinOf(s) < NTREEBINS && d < 32 && k < TWO32 && Bits(k, 32 - d) == PathOf(s)[d..]
    ensures ChildPos(Step(s, d), Top(k)) == Step(s, d + 1)
    ensures Bits(Shl1(k), 32 - (d + 1)) == PathOf(s)[d + 1..]
  {
    hide PathOf, BinOf, Top, Shl1;
    Descend(k, 32 - d);
    var p := PathOf(s);
    assert p[d] == p[d..][0];
    assert p[..d] + [p[d]] == p[..d + 1];
    assert p[d..][1..] == p[d + 1..];
  }

  /** One step down: the child slot the register points at. */
  lemma StepDown(m: BinMem, v: BinView, s: nat, t: int, d: nat, k: nat)
    requires BinsInv(m, v) && BinOf(s) < NTREEBINS && 256 <= s < TWO32 && Reached(v, s, t, d, k)
    requires t in v.sz && v.sz[t] != s
    ensures d < 32 && Kid(m.child, t, Top(k)) == Slot(v.trie, Step(s, d + 1))
    ensures Kid(m.child, t, Top(k)) != 0 ==> Reached(v, s, Kid(m.child, t, Top(k)), d + 1, Shl1(k))
    ensures Step(s, d + 1).path != [] && ParentPos(Step(s, d + 1)) == Step(s, d) && Side(Step(s, d + 1)) == Top(k)
  {
    hide RingsOk, Members, SmallMapOk, TreeMapOk, ChainedOk, IndexOk, NodesOk, PathOf, BinOf, Top, Shl1, Bits;
    hide Closed, ParentsOk, RootsOk, Fits, Sized;
    ReachedNode(m, v, s, t, d, k);
    NextStep(s, d, k);
    ChildNotSelf(Step(s, d), Top(k));
  }

  /** A binned large size is found on the path its own bits spell. */
  lemma OnPath(m: BinMem, v: BinView, s: nat) returns (e: nat)
    requires BinsInv(m, v) && s in v.rings && !IsSmall(s)
    ensures BinOf(s) < NTREEBINS && e <= 32 && v.rings[s] != []
    ensures Step(s, e) in v.trie && v.trie[Step(s, e)] == v.rings[s][0]
    ensures v.rings[s][0] in v.sz && v.sz[v.rings[s][0]] == s
  {
    hide RingsOk, SmallMapOk, TreeMapOk, ChainedOk, IndexOk, PathOf, BinOf;
    hide Closed, KidsOk, ParentsOk, RootsOk;
    var n := v.rings[s][0];
    assert n in v.rings[s];
    var q := v.pos[n];
    assert q in v.trie && Fits(v.sz[n], q);
    e := |q.path|;
    assert q.path == PathOf(s)[..e];
  }

  lemma StepClosed(t: Trie, s: nat, d: nat, e: nat)
    requires Closed(t) && BinOf(s) < NTREEBINS && d <= e <= 32 && Step(s, e) in t
    ensures Step(s, d) in t
  {
    hide PathOf, BinOf;
    assert Step(s, e).path[..d] == PathOf(s)[..d];
  }

  /** An empty slot at the end of the descent: no chunk of this size is binned. */
  lemma SizeAbsent(m: BinMem, v: BinView, s: nat, d: nat)
    requires BinsInv(m, v) && BinOf(s) < NTREEBINS && 256 <= s < TWO32 && d <= 32
    requires Step(s, d) !in v.trie
    requires forall e | 0 <= e < d ::
               Step(s, e) in v.trie && v.trie[Step(s, e)] in v.sz && v.sz[v.trie[Step(s, e)]] != s
    ensures s !in v.rings
  {
    hide RingsOk, Members, SmallMapOk, TreeMapOk, NodesOk, ChainedOk, IndexOk, PathOf, BinOf;
    hide Closed, KidsOk, ParentsOk, RootsOk, Sized, Inverse;
    if s in v.rings {
      var e := OnPath(m, v, s);
      if e >= d { StepClosed(v.trie, s, d, e); }
    }
  }

  // ----- the operation

  /** What inserting a large chunk does: one more chunk, behind the others of its size or at a new leaf. */
  ghost predicate LargeAdded(v: BinView, v': BinView, x: int, s: nat) {
    || (s in v.rings && v.rings[s] != [] && v' == ChainView(v, x, s))
    || (s !in v.rings && exists q :: v' == AddNodeView(v, x, s, q))
  }

  lemma AddedNode(v: BinView, x: int, s: nat, q: Pos)
    requires s !in v.rings
    ensures LargeAdded(v, AddNodeView(v, x, s, q), x, s)
  {}

  lemma KnownAdd(sz: Sizes, h: Heads, least: int, x: int, s: nat)
    requires Known(sz, h, least) && x > 0 && x >= least && HeadAt(h, x).size == s && s % 8 == 0
    ensures Known(sz[x := s], h, least)
  {}

  lemma Start(m: BinMem, v: BinView, s: nat)
    requires BinsInv(m, v) && 256 <= s < TWO32
    ensures BinOf(s) < NTREEBINS && |m.roots| == NTREEBINS
    ensures m.treemap[BinOf(s)] == (Step(s, 0) in v.trie)
    ensures Step(s, 0) in v.trie ==>
              Reached(v, s, m.roots[BinOf(s)], 0, Key(s)) && m.roots[BinOf(s)] == v.trie[Step(s, 0)]
    ensures Step(s, 0) !in v.trie ==> m.roots[BinOf(s)] == 0
  {
    hide RingsOk, Members, SmallMapOk, ChainedOk, IndexOk, NodesOk, BinOf, MinSize, Key, Bits;
    hide Closed, KidsOk, ParentsOk, Sized;
    BinRange(s);
    assert PathOf(s)[0..] == PathOf(s);
    assert Step(s, 0) == Pos(BinOf(s), []);
  }

  lemma AddRoot(m: BinMem, v: BinView, x: int, s: nat)
    requires BinsInv(m, v) && x !in v.sz && x > 0 && GoodSize(s) && !IsSmall(s) && BinOf(s) < NTREEBINS
    requires Step(s, 0) !in v.trie
    ensures |m.roots| == NTREEBINS && BinsInv(RootMem(m, x, BinOf(s)), AddNodeView(v, x, s, Step(s, 0)))
    ensures s !in v.rings
  {
    hide BinsInv, BinOf, PathOf, Or;
    SizeAbsent(m, v, s, 0);
    assert Fits(s, Step(s, 0));
    AddNode(m, v, x, s, Step(s, 0));
  }

  ghost function RootMem(m: BinMem, x: int, i: nat): BinMem
    requires i < |m.roots|
  {
    m.(treemap := Or(m.treemap, Bit(i)), roots := m.roots[i := x], fd := m.fd[x := x], bk := m.bk[x := x],
       child := m.child[(x, false) := 0][(x, true) := 0],
       parent := m.parent[x := TreeHeader(i)], index := m.index[x := i])
  }

  lemma RootLinks(m: BinMem, sz: Sizes, x: int, s: nat, i: nat)
    requires i < |m.roots| && !IsSmall(s)
    ensures LinksIn(m, RootMem(m, x, i), sz[x := s])
  {}

  lemma NodeAddLinks(m: BinMem, v: BinView, x: int, s: nat, q: Pos)
    requires q.path != [] && !IsSmall(s) && Slot(v.trie, ParentPos(q)) in v.sz
    requires !IsSmall(v.sz[Slot(v.trie, ParentPos(q))])
    ensures LinksIn(m, AddNodeMem(m, v, x, q), v.sz[x := s])
  {}

  lemma ChainLinks(m: BinMem, sz: Sizes, x: int, s: nat, t: int)
    requires t in sz && At(m.fd, t) in sz && !IsSmall(s)
    ensures LinksIn(m, ChainMem(m, x, s, t), sz[x := s])
  {}

  lemma PlacedLarge(m: BinMem, v: BinView, q: Pos)
    requires BinsInv(m, v) && q in v.trie
    ensures v.trie[q] in v.sz && !IsSmall(v.sz[v.trie[q]])
  {
    hide RingsOk, Members, SmallMapOk, TreeMapOk, ChainedOk, IndexOk, Closed, KidsOk, ParentsOk, RootsOk, Sized;
  }

  method WriteRoot(m: MState, x: int, i: nat)
    requires i < |m.treebins|
    modifies m`treemap, m`treebins, m`fd, m`bk, m`child, m`parent, m`index
    ensures m.Mem() == RootMem(old(m.Mem()), x, i)
  {
    hide Or, Bit;
    m.index := m.index[x := i];
    m.child := m.child[(x, false) := 0][(x, true) := 0];
    m.treemap := Or(m.treemap, Bit(i));
    m.treebins := m.treebins[i := x];
    m.parent := m.parent[x := TreeHeader(i)];
    m.fd := m.fd[x := x];
    m.bk := m.bk[x := x];
  }

  /** The first chunk of a bin becomes its root. */
  method LinkRoot(m: MState, x: int, s: nat)
    requires m.BinsOk() && x !in m.v.sz && x > 0 && x >= m.least && GoodSize(s) && !IsSmall(s)
    requires HeadAt(m.head, x).size == s
    requires BinOf(s) < NTREEBINS && Step(s, 0) !in m.v.trie
    modifies m`treemap, m`treebins, m`fd, m`bk, m`child, m`parent, m`index, m`v
    ensures m.BinsOk() && LargeAdded(old(m.v), m.v, x, s) && LinksIn(old(m.Mem()), m.Mem(), old(m.v.sz)[x := s])
  {
    hide BinsInv, BinOf, PathOf, LargeAdded, Known, LinksIn, RootMem;
    AddRoot(m.Mem(), m.v, x, s);
    AddedNode(m.v, x, s, Step(s, 0));
    KnownAdd(m.v.sz, m.head, m.least, x, s);
    var i := BinOf(s);
    WriteRoot(m, x, i);
    RootLinks(old(m.Mem()), m.v.sz, x, s, i);
    m.v := AddNodeView(m.v, x, s, Step(s, 0));
  }

  lemma AddChild(m: BinMem, v: BinView, x: int, s: nat, t: int, d: nat, k: nat)
    requires BinsInv(m, v) && x !in v.sz && x > 0 && GoodSize(s) && !IsSmall(s) && BinOf(s) < NTREEBINS
    requires Reached(v, s, t, d, k) && t in v.sz && v.sz[t] != s && Kid(m.child, t, Top(k)) == 0
    ensures d < 32 && s !in v.rings
    ensures var q := Step(s, d + 1);
            && q.path != [] && Side(q) == Top(k) && ParentPos(q) in v.trie && v.trie[ParentPos(q)] == t
            && BinsInv(AddNodeMem(m, v, x, q), AddNodeView(v, x, s, q))
  {
    hide BinsInv, BinOf, PathOf, AddNodeMem, Top, Bits;
    ReachedNode(m, v, s, t, d, k);
    StepDown(m, v, s, t, d, k);
    var q := Step(s, d + 1);
    TriePositive(m, v, q);
    forall e | 0 <= e < d + 1
      ensures Step(s, e) in v.trie && v.trie[Step(s, e)] in v.sz && v.sz[v.trie[Step(s, e)]] != s
    {}
    SizeAbsent(m, v, s, d + 1);
    assert Fits(s, q);
    AddNode(m, v, x, s, q);
  }

  lemma TriePositive(m: BinMem, v: BinView, q: Pos)
    requires BinsInv(m, v)
    ensures q in v.trie ==> v.trie[q] > 0
  {
    hide RingsOk, Members, SmallMapOk, TreeMapOk, NodesOk, ChainedOk, IndexOk;
    hide Closed, KidsOk, ParentsOk, RootsOk, Sized;
  }

  /** A new leaf below t, in the empty slot the register points at. */
  method LinkChild(m: MState, x: int, s: nat, t: int, ghost d: nat, k: nat)
    requires m.BinsOk() && x !in m.v.sz && x > 0 && x >= m.least && GoodSize(s) && !IsSmall(s)
    requires HeadAt(m.head, x).size == s
    requires BinOf(s) < NTREEBINS && Reached(m.v, s, t, d, k) && t in m.v.sz && m.v.sz[t] != s
    requires Kid(m.child, t, Top(k)) == 0
    modifies m`fd, m`bk, m`child, m`parent, m`index, m`v
    ensures m.BinsOk() && LargeAdded(old(m.v), m.v, x, s) && LinksIn(old(m.Mem()), m.Mem(), old(m.v.sz)[x := s])
  {
    hide BinsInv, BinOf, Top, Bits, PathOf, LargeAdded, Known, LinksIn;
    AddChild(m.Mem(), m.v, x, s, t, d, k);
    PlacedLarge(m.Mem(), m.v, ParentPos(Step(s, d + 1)));
    NodeAddLinks(m.Mem(), m.v, x, s, Step(s, d + 1));
    AddedNode(m.v, x, s, Step(s, d + 1));
    KnownAdd(m.v.sz, m.head, m.least, x, s);
    m.index := m.index[x := BinOf(s)];
    m.child := m.child[(x, false) := 0][(x, true) := 0];
    m.child := m.child[(t, Top(k)) := x];
    m.parent := m.parent[x := t];
    m.fd := m.fd[x := x];
    m.bk := m.bk[x := x];
    assert m.Mem() == AddNodeMem(old(m.Mem()), m.v, x, Step(s, d + 1));
    m.v := AddNodeView(m.v, x, s, Step(s, d + 1));
  }

  /** A chunk of a size already present goes second in its ring. */
  method LinkChain(m: MState, x: int, s: nat, t: int, f: int)
    requires m.BinsOk() && x !in m.v.sz && x > 0 && x >= m.least && GoodSize(s) && !IsSmall(s)
    requires HeadAt(m.head, x).size == s
    requires s in m.v.rings && m.v.rings[s] != [] && m.v.rings[s][0] == t && f == At(m.fd, t) && t in m.v.pos
    modifies m`fd, m`bk, m`child, m`parent, m`index, m`v
    ensures m.BinsOk() && LargeAdded(old(m.v), m.v, x, s) && LinksIn(old(m.Mem()), m.Mem(), old(m.v.sz)[x := s])
  {
    hide BinsInv, BinOf, LinksIn;
    Chain(m.Mem(), m.v, x, s);
    FollowsNode(m.Mem(), m.v, t);
    ChainLinks(m.Mem(), m.v.sz, x, s, t);
    m.index := m.index[x := BinOf(s)];
    m.child := m.child[(x, false) := 0][(x, true) := 0];
    m.fd := m.fd[t := x];
    m.bk := m.bk[f := x];
    m.fd := m.fd[x := f];
    m.bk := m.bk[x := t];
    m.parent := m.parent[x := 0];
    assert m.Mem() == ChainMem(old(m.Mem()), x, s, t);
    m.v := ChainView(m.v, x, s);
  }

  /** insert_large_chunk.  CORRUPTION_ERROR_ACTION is where `assert false` stands. */
  method InsertLargeChunk(m: MState, x: int, s: nat)
    requires m.BinsOk() && x !in m.v.sz && x > 0 && x >= m.least && GoodSize(s) && !IsSmall(s)
    requires HeadAt(m.head, x).size == s
    modifies m`treemap, m`treebins, m`fd, m`bk, m`child, m`parent, m`index, m`v
    ensures m.BinsOk() && LargeAdded(old(m.v), m.v, x, s) && LinksIn(old(m.Mem()), m.Mem(), old(m.v.sz)[x := s])
  {
    hide BinsInv, BinOf, Key, PathOf, Bits, LargeAdded, LinksIn;
    Start(m.Mem(), m.v, s);
    var i := BinOf(s);
    if !m.treemap[i] {
      LinkRoot(m, x, s);
    } else {
      var t := m.treebins[i];
      var k := Key(s);
      ghost var d := 0;
      while true
        invariant m.BinsOk() && m.v == old(m.v) && m.Mem() == old(m.Mem()) && x !in m.v.sz
        invariant Reached(m.v, s, t, d, k)
        decreases 32 - d
      {
        ReachedNode(m.Mem(), m.v, s, t, d, k);
        if ChunkSize(m.head, t) != s {
          StepDown(m.Mem(), m.v, s, t, d, k);
          var c := Kid(m.child, t, Top(k));
          if c != 0 {
            k := Shl1(k);
            t := c;
            d := d + 1;
          } else if t >= m.least {
            LinkChild(m, x, s, t, d, k);
            break;
          } else {
            assert false;
          }
        } else {
          var f := At(m.fd, t);
          FollowsNode(m.Mem(), m.v, t);
          if t >= m.least && f >= m.least {
            LinkChain(m, x, s, t, f);
            break;
          } else {
            assert false;
          }
        }
      }
    }
  }

  lemma FollowsNode(m: BinMem, v: BinView, t: int)
    requires BinsInv(m, v) && t in v.pos
    ensures At(m.fd, t) in v.sz && t in v.sz
  {
    hide SmallMapOk, TreeMapOk, ChainedOk, IndexOk, TrieOk;
    assert Ring(m.fd, m.bk, v.rings[v.sz[t]]);
    RingNeighbours(m.fd, m.bk, v.rings[v.sz[t]], 0);
  }
}
