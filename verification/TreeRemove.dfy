/** unlink_large_chunk: taking a chunk out of its ring, or out of the trie, or both. */
module TreeRemove {
  import opened Words
  import opened BitMaps
  import opened TreeIndex
  import opened Keys
  import opened Rings
  import opened Tries
  import opened Bins
  import opened Tiling
  import opened State
  import opened Keeping
  import opened TreeRelink
  import TreeInsert
  import SmallBins

  // ----- the ring of the removed chunk

  /** The ring that remains, spelled from its new first member. */
  function Rest(r: seq<int>, j: nat): seq<int>
    requires j < |r|
  {
    if j == 0 && |r| > 1 then Drop(Rotate(r), 1) else Drop(r, j)
  }

  lemma RestMembers(r: seq<int>, j: nat)
    requires j < |r| && Distinct(r)
    ensures forall a :: a in Rest(r, j) <==> a in r && a != r[j]
    ensures |Rest(r, j)| == |r| - 1
    ensures j == 0 && |r| > 1 ==> Rest(r, j)[0] == r[|r| - 1]
    ensures j > 0 ==> Rest(r, j)[0] == r[0]
  {
    DropDistinct(r, j);
    if j == 0 && |r| > 1 {
      var s := Rotate(r);
      assert forall i | 0 <= i < |r| :: s[i] == r[if i == 0 then |r| - 1 else i - 1];
      assert s[1] == r[0];
      RotateDistinct(r);
      DropDistinct(s, 1);
    }
  }

  lemma RotateDistinct(r: seq<int>)
    requires |r| > 0 && Distinct(r)
    ensures Distinct(Rotate(r)) && forall a :: a in Rotate(r) <==> a in r
  {
    var n, s := |r|, Rotate(r);
    forall i | 0 <= i < n ensures s[i] == r[if i == 0 then n - 1 else i - 1] {}
    forall a | a in r ensures a in s {
      var i :| 0 <= i < n && r[i] == a;
      assert s[Next(i, n)] == a;
    }
  }

  lemma RestRing(fd: Ptrs, bk: Ptrs, r: seq<int>, j: nat)
    requires Ring(fd, bk, r) && j < |r| && |r| >= 2
    ensures var f, b := At(fd, r[j]), At(bk, r[j]);
            && Ring(fd[b := f], bk[f := b], Rest(r, j))
            && f in r && b in r && b != r[j] && f != r[j] && At(bk, f) == r[j] && At(fd, b) == r[j]
            && (j == 0 ==> b == r[|r| - 1])
  {
    RingNeighbours(fd, bk, r, j);
    if j == 0 {
      RingRotate(fd, bk, r);
      assert Rotate(r)[1] == r[0];
      RingRemove(fd, bk, Rotate(r), 1);
    } else {
      RingRemove(fd, bk, r, j);
    }
  }

  function RestRings(rings: map<nat, seq<int>>, s: nat, j: nat): map<nat, seq<int>>
    requires s in rings && j < |rings[s]|
  {
    if |rings[s]| == 1 then rings - {s} else rings[s := Rest(rings[s], j)]
  }

  lemma RestRingsOk(m: BinMem, fd': Ptrs, bk': Ptrs, v: BinView, s: nat, j: nat)
    requires RingsOk(v.rings, m.fd, m.bk) && Members(v.rings, v.sz) && SmallMapOk(v.rings, m.smallmap)
    requires s in v.rings && !IsSmall(s) && j < |v.rings[s]|
    requires var x := v.rings[s][j];
             var f, b := At(m.fd, x), At(m.bk, x);
             if |v.rings[s]| == 1 then fd' == m.fd && bk' == m.bk else fd' == m.fd[b := f] && bk' == m.bk[f := b]
    ensures var rings' := RestRings(v.rings, s, j);
            && RingsOk(rings', fd', bk') && Members(rings', v.sz - {v.rings[s][j]}) && SmallMapOk(rings', m.smallmap)
  {
    hide Rest, Drop;
    var r := v.rings[s];
    var x := r[j];
    assert x in v.rings[s] && x in v.sz && GoodSize(s);
    assert Ring(m.fd, m.bk, r);
    RestMembers(r, j);
    MembersDrop(v.rings, v.sz, x, Rest(r, j));
    if |r| == 1 {
      assert Rest(r, j) == [];
      ClearRing(v.rings, v.sz, m.fd, m.bk, fd', bk', s);
    } else {
      RestRing(m.fd, m.bk, r, j);
      SetRing(v.rings, v.sz, m.fd, m.bk, fd', bk', s, Rest(r, j));
    }
  }

  lemma LargeRing(m: BinMem, v: BinView, x: int, j: nat)
    requires RingsOk(v.rings, m.fd, m.bk) && Members(v.rings, v.sz) && x in v.sz && !IsSmall(v.sz[x])
    requires j < |v.rings[v.sz[x]]| && v.rings[v.sz[x]][j] == x
    ensures (At(m.bk, x) != x <==> |v.rings[v.sz[x]]| > 1)
            && At(m.fd, x) in v.sz && At(m.bk, x) in v.sz
            && At(m.bk, At(m.fd, x)) == x && At(m.fd, At(m.bk, x)) == x
  {
    var s := v.sz[x];
    assert Ring(m.fd, m.bk, v.rings[s]);
    RingNeighbours(m.fd, m.bk, v.rings[s], j);
  }

  lemma FirstPlaced(m: BinMem, v: BinView, x: int, j: nat)
    requires RingsOk(v.rings, m.fd, m.bk) && NodesOk(v.rings, v.sz, v.pos) && x in v.sz && !IsSmall(v.sz[x])
    requires v.sz[x] in v.rings
    requires j < |v.rings[v.sz[x]]| && v.rings[v.sz[x]][j] == x
    ensures x in v.pos <==> j == 0
  {
    var r := v.rings[v.sz[x]];
    assert Distinct(r);
  }

  lemma PlacedParent(m: BinMem, v: BinView, x: int)
    requires TrieOk(v.trie, v.pos, v.sz, m.child, m.parent, m.roots) && x in v.pos && x in v.sz
    ensures At(m.parent, x) != 0 && v.pos[x] in v.trie && v.trie[v.pos[x]] == x && Fits(v.sz[x], v.pos[x])
    ensures |m.roots| == NTREEBINS
  {
    hide KidsOk, BinOf, PathOf;
    if v.pos[x].path != [] { ParentIn(v.trie, v.pos[x]); }
  }

  /** Where a binned large chunk stands, and what its links say about it. */
  lemma LargeMember(m: BinMem, v: BinView, x: int) returns (j: nat)
    requires BinsInv(m, v) && x in v.sz && !IsSmall(v.sz[x])
    ensures v.sz[x] in v.rings && j < |v.rings[v.sz[x]]| && v.rings[v.sz[x]][j] == x
    ensures x in v.pos <==> j == 0
    ensures x !in v.pos ==> At(m.parent, x) == 0
    ensures x in v.pos ==>
              At(m.parent, x) != 0 && v.pos[x] in v.trie && v.trie[v.pos[x]] == x && Fits(v.sz[x], v.pos[x])
    ensures At(m.bk, x) != x <==> |v.rings[v.sz[x]]| > 1
    ensures At(m.fd, x) in v.sz && At(m.bk, x) in v.sz && At(m.bk, At(m.fd, x)) == x && At(m.fd, At(m.bk, x)) == x
    ensures At(m.index, x) == BinOf(v.sz[x]) && |m.roots| == NTREEBINS
  {
    hide RingsOk, SmallMapOk, TreeMapOk, Inverse, Sized, Closed, KidsOk, ParentsOk, BinOf, NodesOk, Fits;
    j := SmallBins.IndexIn(v.rings[v.sz[x]], x);
    LargeRing(m, v, x, j);
    FirstPlaced(m, v, x, j);
    if x in v.pos { PlacedParent(m, v, x); }
  }

  // ----- the four ways a chunk leaves

  function RestView(v: BinView, x: int, j: nat): BinView
    requires x in v.sz && v.sz[x] in v.rings && j < |v.rings[v.sz[x]]|
  {
    v.(rings := RestRings(v.rings, v.sz[x], j), sz := v.sz - {x})
  }

  /** A chunk that is not its ring's first: only the ring changes. */
  lemma DropChained(m: BinMem, v: BinView, x: int, j: nat)
    requires BinsInv(m, v) && x in v.sz && !IsSmall(v.sz[x]) && x !in v.pos
    requires v.sz[x] in v.rings && 0 < j < |v.rings[v.sz[x]]| && v.rings[v.sz[x]][j] == x
    ensures var f, b := At(m.fd, x), At(m.bk, x);
            BinsInv(m.(fd := m.fd[b := f], bk := m.bk[f := b]), RestView(v, x, j))
  {
    hide RingsOk, Members, SmallMapOk, TreeMapOk, NodesOk, ChainedOk, IndexOk, TrieOk, RestRings;
    var f, b := At(m.fd, x), At(m.bk, x);
    RestRingsOk(m, m.fd[b := f], m.bk[f := b], v, v.sz[x], j);
    DropChainedTrees(m, v, x, j);
    DropTrie(m, v, x);
  }

  lemma DropChainedTrees(m: BinMem, v: BinView, x: int, j: nat)
    requires RingsOk(v.rings, m.fd, m.bk) && NodesOk(v.rings, v.sz, v.pos) && x !in v.pos && x in v.sz
    requires !IsSmall(v.sz[x])
    requires ChainedOk(v.sz, v.pos, m.child, m.parent) && IndexOk(v.sz, m.index)
    requires v.sz[x] in v.rings && 0 < j < |v.rings[v.sz[x]]| && v.rings[v.sz[x]][j] == x
    ensures NodesOk(RestRings(v.rings, v.sz[x], j), v.sz - {x}, v.pos)
    ensures ChainedOk(v.sz - {x}, v.pos, m.child, m.parent) && IndexOk(v.sz - {x}, m.index)
  {
    hide BinOf, Rest;
    assert Distinct(v.rings[v.sz[x]]);
    RestMembers(v.rings[v.sz[x]], j);
  }

  lemma DropTrie(m: BinMem, v: BinView, x: int)
    requires TrieOk(v.trie, v.pos, v.sz, m.child, m.parent, m.roots) && x !in v.pos
    ensures TrieOk(v.trie, v.pos, v.sz - {x}, m.child, m.parent, m.roots)
  {
    hide Fits;
  }

  /** A node with others of its size: the last of its ring takes its place. */
  function SwapView(v: BinView, x: int, r: int): BinView
    requires x in v.sz && v.sz[x] in v.rings && |v.rings[v.sz[x]]| > 0 && x in v.pos
  {
    BinView(RestRings(v.rings, v.sz[x], 0), v.sz - {x}, v.trie[v.pos[x] := r], Moved(v.pos, x, r, v.pos[x]))
  }

  lemma SwapNodes(m: BinMem, v: BinView, x: int, r: int)
    requires RingsOk(v.rings, m.fd, m.bk) && Members(v.rings, v.sz)
    requires NodesOk(v.rings, v.sz, v.pos) && x in v.pos && x in v.sz && !IsSmall(v.sz[x])
    requires v.sz[x] in v.rings && |v.rings[v.sz[x]]| > 1 && v.rings[v.sz[x]][0] == x
    requires r == v.rings[v.sz[x]][|v.rings[v.sz[x]]| - 1]
    ensures NodesOk(RestRings(v.rings, v.sz[x], 0), v.sz - {x}, Moved(v.pos, x, r, v.pos[x]))
  {
    hide Rest;
    var ring := v.rings[v.sz[x]];
    assert Distinct(ring);
    assert r in v.rings[v.sz[x]];
    RestMembers(ring, 0);
  }

  lemma SwapChained(m: BinMem, v: BinView, x: int, r: int, child': Kids, parent': Ptrs)
    requires ChainedOk(v.sz, v.pos, m.child, m.parent) && IndexOk(v.sz, m.index) && x in v.pos
    requires forall a | a in v.sz && a !in v.pos && a != r ::
               At(parent', a) == At(m.parent, a) && forall b :: Kid(child', a, b) == Kid(m.child, a, b)
    ensures ChainedOk(v.sz - {x}, Moved(v.pos, x, r, v.pos[x]), child', parent') && IndexOk(v.sz - {x}, m.index)
  {
    hide BinOf;
  }

  lemma SwapTrees(m: BinMem, v: BinView, x: int, r: int, child': Kids, parent': Ptrs)
    requires RingsOk(v.rings, m.fd, m.bk) && Members(v.rings, v.sz)
    requires NodesOk(v.rings, v.sz, v.pos) && x in v.pos && x in v.sz && !IsSmall(v.sz[x])
    requires ChainedOk(v.sz, v.pos, m.child, m.parent) && IndexOk(v.sz, m.index)
    requires v.sz[x] in v.rings && |v.rings[v.sz[x]]| > 1 && v.rings[v.sz[x]][0] == x
    requires r == v.rings[v.sz[x]][|v.rings[v.sz[x]]| - 1]
    requires forall a | a in v.sz && a !in v.pos && a != r ::
               At(parent', a) == At(m.parent, a) && forall b :: Kid(child', a, b) == Kid(m.child, a, b)
    ensures NodesOk(RestRings(v.rings, v.sz[x], 0), v.sz - {x}, Moved(v.pos, x, r, v.pos[x]))
    ensures ChainedOk(v.sz - {x}, Moved(v.pos, x, r, v.pos[x]), child', parent') && IndexOk(v.sz - {x}, m.index)
  {
    hide RingsOk, Members, NodesOk, ChainedOk, IndexOk, RestRings;
    SwapNodes(m, v, x, r);
    SwapChained(m, v, x, r, child', parent');
  }

  /** Relinking touches the trie links of placed nodes and of r only. */
  lemma RelinkElsewhere(m: BinMem, v: BinView, x: int, r: int, a: int)
    requires TrieOk(v.trie, v.pos, v.sz, m.child, m.parent, m.roots) && x in v.pos && a !in v.pos && a != r && a != 0
    requires r != x && r >= 0 && r !in v.pos && Kid(m.child, r, false) == 0 && Kid(m.child, r, true) == 0
    ensures v.pos[x].bin < |m.roots|
    ensures var root, xp := m.roots[v.pos[x].bin], At(m.parent, x);
            && (forall b :: Kid(RelinkChild(m.child, root, x, r, xp), a, b) == Kid(m.child, a, b))
            && At(RelinkParent(m.child, m.parent, x, r, xp), a) == At(m.parent, a)
  {
    hide Fits, RelinkChild, RelinkParent, RootsOk;
    var q := v.pos[x];
    BinInRange(m, v, q);
    SlotOf(v.trie, v.pos, m.child, m.parent, m.roots, q);
    var root, xp := m.roots[q.bin], At(m.parent, x);
    KidsPlaced(v.trie, v.pos, m.child, x);
    if r == 0 {
      RelinkNone(m.child, m.parent, root, x, xp, a);
    } else {
      RelinkParentShape(m.child, m.parent, x, r, xp, a);
      forall b ensures Kid(RelinkChild(m.child, root, x, r, xp), a, b) == Kid(m.child, a, b) {
        assert xp != x && r != xp;
        RelinkChildShape(m.child, root, x, r, xp, a, b);
      }
    }
  }

  lemma BinInRange(m: BinMem, v: BinView, q: Pos)
    requires Sized(v.trie, v.sz) && q in v.trie && RootsOk(v.trie, m.roots)
    ensures q.bin < NTREEBINS == |m.roots|
  {}

  lemma KidsPlaced(t: Trie, pos: Places, child: Kids, x: int)
    requires Inverse(t, pos) && KidsOk(t, pos, child) && x in pos
    ensures forall b :: Kid(child, x, b) == 0 || Kid(child, x, b) in pos
  {}

  lemma RelinkNone(child: Kids, parent: Ptrs, root: int, x: int, xp: int, a: int)
    requires root == x || a != xp
    ensures RelinkParent(child, parent, x, 0, xp) == parent
    ensures forall b :: Kid(RelinkChild(child, root, x, 0, xp), a, b) == Kid(child, a, b)
  {}

  /** A node with others of its size leaves: the last of its ring takes its place. */
  lemma Swap(m: BinMem, v: BinView, x: int)
    requires BinsInv(m, v) && x in v.sz && !IsSmall(v.sz[x]) && x in v.pos
    requires v.sz[x] in v.rings && |v.rings[v.sz[x]]| > 1 && v.rings[v.sz[x]][0] == x
    ensures |m.roots| == NTREEBINS && v.pos[x].bin < NTREEBINS
    ensures var f, r := At(m.fd, x), At(m.bk, x);
            var m1 := m.(fd := m.fd[r := f], bk := m.bk[f := r]);
            BinsInv(Relink(m1, x, r, At(m.parent, x), v.pos[x].bin), SwapView(v, x, r))
  {
    hide RingsOk, Members, SmallMapOk, TreeMapOk, NodesOk, ChainedOk, IndexOk, TrieOk, RestRings, Relink, RelinkChild;
    hide RelinkParent;
    var f, r, q := At(m.fd, x), At(m.bk, x), v.pos[x];
    var m1 := m.(fd := m.fd[r := f], bk := m.bk[f := r]);
    LastOfRing(m, v, x);
    PlacedParent(m, v, x);
    RelinkReplace(m1, v.trie, v.pos, v.sz, q, r);
    RestRingsOk(m, m1.fd, m1.bk, v, v.sz[x], 0);
    var m' := Relink(m1, x, r, At(m.parent, x), q.bin);
    SwapElsewhere(m1, v, x, r);
    SwapTrees(m, v, x, r, m'.child, m'.parent);
    DropTrie(m', BinView(v.rings, v.sz, v.trie[q := r], Moved(v.pos, x, r, q)), x);
  }

  lemma SwapElsewhere(m: BinMem, v: BinView, x: int, r: int)
    requires TrieOk(v.trie, v.pos, v.sz, m.child, m.parent, m.roots) && x in v.pos
    requires r != x && r > 0 && r !in v.pos && Kid(m.child, r, false) == 0 && Kid(m.child, r, true) == 0
    requires forall a | a in v.sz :: a > 0
    ensures v.pos[x].bin < |m.roots|
    ensures var m' := Relink(m, x, r, At(m.parent, x), v.pos[x].bin);
            forall a | a in v.sz && a !in v.pos && a != r ::
              At(m'.parent, a) == At(m.parent, a) && forall b :: Kid(m'.child, a, b) == Kid(m.child, a, b)
  {
    hide TrieOk, RelinkChild, RelinkParent;
    PlacedBin(m, v, x);
    forall a | a in v.sz && a !in v.pos && a != r
      ensures var m' := Relink(m, x, r, At(m.parent, x), v.pos[x].bin);
              At(m'.parent, a) == At(m.parent, a) && forall b :: Kid(m'.child, a, b) == Kid(m.child, a, b)
    {
      RelinkElsewhere(m, v, x, r, a);
    }
  }

  lemma PlacedBin(m: BinMem, v: BinView, x: int)
    requires TrieOk(v.trie, v.pos, v.sz, m.child, m.parent, m.roots) && x in v.pos
    ensures v.pos[x].bin < NTREEBINS == |m.roots|
  {}

  lemma LastOfRing(m: BinMem, v: BinView, x: int)
    requires RingsOk(v.rings, m.fd, m.bk) && Members(v.rings, v.sz) && NodesOk(v.rings, v.sz, v.pos)
    requires ChainedOk(v.sz, v.pos, m.child, m.parent)
    requires x in v.sz && !IsSmall(v.sz[x]) && x in v.pos
    requires v.sz[x] in v.rings && |v.rings[v.sz[x]]| > 1 && v.rings[v.sz[x]][0] == x
    ensures var r, ring := At(m.bk, x), v.rings[v.sz[x]];
            && r == ring[|ring| - 1] && r in v.sz && v.sz[r] == v.sz[x] && r !in v.pos && r > 0 && r != x
            && Kid(m.child, r, false) == 0 && Kid(m.child, r, true) == 0
    ensures forall a | a in v.sz :: a > 0
  {
    var ring := v.rings[v.sz[x]];
    assert Ring(m.fd, m.bk, ring);
    RingNeighbours(m.fd, m.bk, ring, 0);
    assert ring[|ring| - 1] in v.rings[v.sz[x]];
  }

  // ----- the only chunk of its size

  function LoneView(v: BinView, x: int): BinView
    requires x in v.sz && x in v.pos
  {
    BinView(v.rings - {v.sz[x]}, v.sz - {x}, v.trie - {v.pos[x]}, v.pos - {x})
  }

  lemma LoneTrees(m: BinMem, v: BinView, x: int, pos': Places, child': Kids, parent': Ptrs)
    requires RingsOk(v.rings, m.fd, m.bk) && Members(v.rings, v.sz) && SmallMapOk(v.rings, m.smallmap)
    requires NodesOk(v.rings, v.sz, v.pos) && ChainedOk(v.sz, v.pos, m.child, m.parent) && IndexOk(v.sz, m.index)
    requires x in v.sz && x in v.pos && !IsSmall(v.sz[x]) && v.sz[x] in v.rings && v.rings[v.sz[x]] == [x]
    requires pos'.Keys == v.pos.Keys - {x}
    requires forall a | a in v.sz && a !in v.pos ::
               At(parent', a) == At(m.parent, a) && forall b :: Kid(child', a, b) == Kid(m.child, a, b)
    ensures var rings', sz' := v.rings - {v.sz[x]}, v.sz - {x};
            && RingsOk(rings', m.fd, m.bk) && Members(rings', sz') && SmallMapOk(rings', m.smallmap)
            && NodesOk(rings', sz', pos') && ChainedOk(sz', pos', child', parent') && IndexOk(sz', m.index)
  {
    hide BinOf, Ring;
    assert forall a :: a in pos' <==> a in v.pos && a != x;
    MembersDrop(v.rings, v.sz, x, []);
  }

  /** The only chunk of its size, at a leaf, leaves. */
  lemma Lone(m: BinMem, v: BinView, x: int)
    requires BinsInv(m, v) && x in v.sz && !IsSmall(v.sz[x]) && x in v.pos
    requires v.sz[x] in v.rings && v.rings[v.sz[x]] == [x]
    requires Kid(m.child, x, false) == 0 && Kid(m.child, x, true) == 0
    ensures |m.roots| == NTREEBINS && v.pos[x].bin < NTREEBINS
    ensures BinsInv(Relink(m, x, 0, At(m.parent, x), v.pos[x].bin), LoneView(v, x))
  {
    hide RingsOk, Members, SmallMapOk, TreeMapOk, NodesOk, ChainedOk, IndexOk, TrieOk, Relink, RelinkChild;
    hide RelinkParent;
    var q := v.pos[x];
    PlacedParent(m, v, x);
    LeafOfKids(m, v, x);
    RelinkRemove(m, v.trie, v.pos, v.sz, q);
    var m' := Relink(m, x, 0, At(m.parent, x), q.bin);
    LoneElsewhere(m, v, x);
    LoneTrees(m, v, x, v.pos - {x}, m'.child, m'.parent);
    DropTrie(m', BinView(v.rings, v.sz, v.trie - {q}, v.pos - {x}), x);
  }

  lemma LeafOfKids(m: BinMem, v: BinView, x: int)
    requires TrieOk(v.trie, v.pos, v.sz, m.child, m.parent, m.roots) && x in v.pos
    requires Kid(m.child, x, false) == 0 && Kid(m.child, x, true) == 0
    ensures IsLeaf(v.trie, v.pos[x])
  {
    hide Fits, Closed;
  }

  lemma LoneElsewhere(m: BinMem, v: BinView, x: int)
    requires TrieOk(v.trie, v.pos, v.sz, m.child, m.parent, m.roots) && x in v.pos
    requires Members(v.rings, v.sz)
    ensures v.pos[x].bin < |m.roots|
    ensures var m' := Relink(m, x, 0, At(m.parent, x), v.pos[x].bin);
            forall a | a in v.sz && a !in v.pos ::
              At(m'.parent, a) == At(m.parent, a) && forall b :: Kid(m'.child, a, b) == Kid(m.child, a, b)
  {
    hide Fits, RelinkChild, RelinkParent, RootsOk, Sized, KidsOk, Closed;
    PlacedBin(m, v, x);
    SlotOf(v.trie, v.pos, m.child, m.parent, m.roots, v.pos[x]);
    var root, xp := m.roots[v.pos[x].bin], At(m.parent, x);
    forall a | a in v.sz && a !in v.pos
      ensures At(RelinkParent(m.child, m.parent, x, 0, xp), a) == At(m.parent, a)
      ensures forall b :: Kid(RelinkChild(m.child, root, x, 0, xp), a, b) == Kid(m.child, a, b)
    {
      RelinkNone(m.child, m.parent, root, x, xp, a);
    }
  }

  // ----- the only chunk of its size, at an inner node: a leaf below takes its place

  ghost predicate LeafBelow(v: BinView, child: Kids, x: int, r: int) {
    && x in v.pos && r in v.pos && r != x
    && v.pos[r].bin == v.pos[x].bin && v.pos[x].path <= v.pos[r].path
    && Kid(child, r, false) == 0 && Kid(child, r, true) == 0
  }

  function LeafView(v: BinView, x: int, r: int): BinView
    requires x in v.sz && x in v.pos && r in v.pos
  {
    BinView(v.rings - {v.sz[x]}, v.sz - {x}, (v.trie - {v.pos[r]})[v.pos[x] := r], Moved(v.pos - {r}, x, r, v.pos[x]))
  }

  lemma LeafDeeper(m: BinMem, v: BinView, x: int, r: int)
    requires Inverse(v.trie, v.pos) && LeafBelow(v, m.child, x, r)
    ensures v.pos[r].path != [] && v.pos[r] != v.pos[x]
  {
    var p, pr := v.pos[x].path, v.pos[r].path;
    assert pr == [] ==> p == [];
  }

  lemma UnhookKids(m: BinMem, v: BinView, r: int)
    requires Inverse(v.trie, v.pos) && Closed(v.trie) && KidsOk(v.trie, v.pos, m.child)
    requires ParentsOk(v.trie, v.pos, m.parent)
    requires RootsOk(v.trie, m.roots) && r in v.pos && v.pos[r].path != [] && v.pos[r].bin < NTREEBINS
    requires Kid(m.child, r, false) == 0 && Kid(m.child, r, true) == 0
    ensures var child' := m.child[(At(m.parent, r), Side(v.pos[r])) := 0];
            && KidsOk(v.trie - {v.pos[r]}, v.pos - {r}, child')
            && (forall a, b | a != At(m.parent, r) :: Kid(child', a, b) == Kid(m.child, a, b))
            && At(m.parent, r) in v.pos && At(m.parent, r) != r
            && (forall b :: Kid(child', r, b) == 0)
  {
    hide Closed, ParentsOk, RootsOk, KidsOk;
    var qr, rp := v.pos[r], At(m.parent, r);
    assert v.trie[qr] == r;
    SlotOf(v.trie, v.pos, m.child, m.parent, m.roots, qr);
    var child' := m.child[(rp, Side(qr)) := 0];
    forall a, b | a in v.pos && a != r
      ensures Kid(child', a, b) == if ChildPos(v.pos[a], b) == qr then 0 else Kid(m.child, a, b)
    {
      ChildSide(v.pos[a], b, qr);
    }
    forall b ensures Kid(child', r, b) == 0 {}
    RemoveLeafKids(v.trie, v.pos, qr, m.child, child');
  }

  lemma Unhook(m: BinMem, v: BinView, x: int, r: int)
    requires TrieOk(v.trie, v.pos, v.sz, m.child, m.parent, m.roots) && TreeMapOk(v.trie, m.treemap)
    requires LeafBelow(v, m.child, x, r)
    ensures v.pos[r].path != [] && v.pos[r] != v.pos[x]
    ensures var child' := m.child[(At(m.parent, r), Side(v.pos[r])) := 0];
            && TrieOk(v.trie - {v.pos[r]}, v.pos - {r}, v.sz, child', m.parent, m.roots)
            && TreeMapOk(v.trie - {v.pos[r]}, m.treemap)
            && (forall a, b | a != At(m.parent, r) :: Kid(child', a, b) == Kid(m.child, a, b))
            && At(m.parent, r) in v.pos && At(m.parent, r) != r
            && (forall b :: Kid(child', r, b) == 0)
  {
    LeafDeeper(m, v, x, r);
    var qr := v.pos[r];
    assert v.trie[qr] == r;
    PlacedBin(m, v, r);
    hide Fits, Sized, Closed, ParentsOk, RootsOk, TreeMapOk, KidsOk, Inverse, IsLeaf;
    LeafOfKids(m, v, r);
    UnhookKids(m, v, r);
    RemoveLeafShape(v.trie, v.pos, v.sz, qr);
    RemoveLeafParents(v.trie, v.pos, qr, m.parent, m.parent);
    RootsSet(v.trie, m.roots, qr, 0);
    TreeMapSet(v.trie, m.treemap, qr, 0);
  }

  lemma LeafSwap(m: BinMem, v: BinView, x: int, r: int)
    requires BinsInv(m, v) && x in v.sz && !IsSmall(v.sz[x]) && LeafBelow(v, m.child, x, r)
    requires v.sz[x] in v.rings && v.rings[v.sz[x]] == [x]
    ensures |m.roots| == NTREEBINS && v.pos[x].bin < NTREEBINS && v.pos[r].path != []
    ensures var m1 := m.(child := m.child[(At(m.parent, r), Side(v.pos[r])) := 0]);
            BinsInv(Relink(m1, x, r, At(m.parent, x), v.pos[x].bin), LeafView(v, x, r))
  {
    hide RingsOk, Members, SmallMapOk, TreeMapOk, NodesOk, ChainedOk, IndexOk, TrieOk, Relink, RelinkChild;
    hide RelinkParent;
    var q, qr := v.pos[x], v.pos[r];
    Unhook(m, v, x, r);
    var m1 := m.(child := m.child[(At(m.parent, r), Side(qr)) := 0]);
    var v1 := v.(trie := v.trie - {qr}, pos := v.pos - {r});
    LeafFits(m, v, x, r);
    RelinkReplace(m1, v1.trie, v1.pos, v.sz, q, r);
    var m' := Relink(m1, x, r, At(m.parent, x), q.bin);
    LeafElsewhere(m, m1, v, v1, x, r);
    LoneTrees(m, v, x, Moved(v1.pos, x, r, q), m'.child, m'.parent);
    DropTrie(m', BinView(v.rings, v.sz, v1.trie[q := r], Moved(v1.pos, x, r, q)), x);
  }

  lemma LeafElsewhere(m: BinMem, m1: BinMem, v: BinView, v1: BinView, x: int, r: int)
    requires TrieOk(v1.trie, v1.pos, v.sz, m1.child, m1.parent, m1.roots) && x in v1.pos
    requires v1 == v.(trie := v1.trie, pos := v.pos - {r})
    requires r != x && r > 0 && r in v.pos && Kid(m1.child, r, false) == 0 && Kid(m1.child, r, true) == 0
    requires Members(v.rings, v.sz) && m1 == m.(child := m1.child) && At(m.parent, r) in v.pos
    requires forall a, b | a != At(m.parent, r) :: Kid(m1.child, a, b) == Kid(m.child, a, b)
    ensures v1.pos[x].bin < |m.roots|
    ensures var m' := Relink(m1, x, r, At(m1.parent, x), v1.pos[x].bin);
            forall a | a in v.sz && a !in v.pos ::
              At(m'.parent, a) == At(m.parent, a) && forall b :: Kid(m'.child, a, b) == Kid(m.child, a, b)
  {
    hide TrieOk, RelinkChild, RelinkParent;
    PlacedBin(m1, v1, x);
    SwapElsewhere(m1, v1, x, r);
  }

  lemma LeafFits(m: BinMem, v: BinView, x: int, r: int)
    requires TrieOk(v.trie, v.pos, v.sz, m.child, m.parent, m.roots) && LeafBelow(v, m.child, x, r)
    ensures r > 0 && r in v.sz && Fits(v.sz[r], v.pos[x]) && v.pos[x] in v.trie && v.trie[v.pos[x]] == x
    ensures v.pos[x].bin < NTREEBINS == |m.roots|
  {
    hide KidsOk, ParentsOk, Closed, BinOf, PathOf;
    assert Fits(v.sz[r], v.pos[r]);
  }

  // ----- the search for the leaf

  /** r hangs below x, in slot b of node n. */
  ghost predicate Hangs(v: BinView, m: BinMem, x: int, r: int, n: int, b: bool) {
    && x in v.pos && r in v.pos && r != x && n in v.pos
    && v.pos[r] == ChildPos(v.pos[n], b) && n == At(m.parent, r) && b == Side(v.pos[r])
    && v.pos[r].bin == v.pos[x].bin && v.pos[x].path <= v.pos[r].path
  }

  lemma PathShort(v: BinView, r: int)
    requires Sized(v.trie, v.sz) && Inverse(v.trie, v.pos) && r in v.pos
    ensures |v.pos[r].path| <= 32
  {
    hide PathOf, BinOf;
    assert Fits(v.sz[r], v.pos[r]);
  }

  lemma ChildHangs(m: BinMem, v: BinView, x: int, n: int, b: bool)
    requires BinsInv(m, v) && x in v.pos && n in v.pos
    requires v.pos[n].bin == v.pos[x].bin && v.pos[x].path <= v.pos[n].path
    requires Kid(m.child, n, b) != 0
    ensures Hangs(v, m, x, Kid(m.child, n, b), n, b)
    ensures Kid(m.child, n, b) in v.pos && |v.pos[Kid(m.child, n, b)].path| == |v.pos[n].path| + 1 <= 32
  {
    hide RingsOk, Members, SmallMapOk, TreeMapOk, NodesOk, ChainedOk, IndexOk, Closed, RootsOk, Sized;
    var r := Kid(m.child, n, b);
    ChildNotSelf(v.pos[n], b);
    assert r == v.trie[ChildPos(v.pos[n], b)];
    assert |v.pos[r].path| > |v.pos[x].path|;
    PathShort(v, r);
  }

  /** The rightmost descendant of x, and the slot it hangs in; 0 when x has no children. */
  method FindLeaf(m: MState, x: int) returns (r: int, n: int, b: bool)
    requires m.BinsOk() && x in m.v.pos
    ensures r == 0 <==> Kid(m.child, x, false) == 0 && Kid(m.child, x, true) == 0
    ensures r != 0 ==> LeafBelow(m.v, m.child, x, r) && Hangs(m.v, m.Mem(), x, r, n, b)
  {
    hide BinsInv, Hangs;
    n, b := x, true;
    r := Kid(m.child, n, b);
    if r == 0 {
      b := false;
      r := Kid(m.child, n, b);
    }
    if r != 0 {
      ChildHangs(m.Mem(), m.v, x, n, b);
      while Kid(m.child, r, true) != 0 || Kid(m.child, r, false) != 0
        invariant Hangs(m.v, m.Mem(), x, r, n, b) && r in m.v.pos && |m.v.pos[r].path| <= 32
        invariant r != 0
        decreases 32 - |m.v.pos[r].path|
      {
        HangsBelow(m.Mem(), m.v, x, r, n, b);
        n := r;
        b := Kid(m.child, r, true) != 0;
        r := Kid(m.child, n, b);
        ChildHangs(m.Mem(), m.v, x, n, b);
      }
      HangsBelow(m.Mem(), m.v, x, r, n, b);
    }
  }

  lemma HangsBelow(m: BinMem, v: BinView, x: int, r: int, n: int, b: bool)
    requires Hangs(v, m, x, r, n, b)
    ensures x in v.pos && r in v.pos && r != x && v.pos[r].bin == v.pos[x].bin && v.pos[x].path <= v.pos[r].path
  {}

  // ----- the operation

  /** The relinking block: x's parent slot and children pass to r (none if r is 0). */
  method RelinkNode(m: MState, x: int, r: int, xp: int)
    requires |m.treebins| == NTREEBINS && 0 <= At(m.index, x) < NTREEBINS
    requires m.treebins[At(m.index, x)] != x ==> xp >= m.least
    requires xp != x && r != x && (r != 0 ==> r >= m.least)
    requires forall b :: Kid(m.child, x, b) != 0 ==> Kid(m.child, x, b) >= m.least
    modifies m`treemap, m`treebins, m`child, m`parent
    ensures m.Mem() == Relink(old(m.Mem()), x, r, xp, At(m.index, x))
  {
    var i := At(m.index, x);
    ghost var root := m.treebins[i];
    if x == m.treebins[i] {
      m.treebins := m.treebins[i := r];
      if r == 0 {
        m.treemap := And(m.treemap, Not(Bit(i)));
      }
    } else if xp >= m.least {
      if Kid(m.child, xp, false) == x {
        m.child := m.child[(xp, false) := r];
      } else {
        m.child := m.child[(xp, true) := r];
      }
    } else {
      assert false;
    }
    assert m.child == SlotChild(old(m.child), root, x, r, xp);
    assert Kid(m.child, x, false) == Kid(old(m.child), x, false) && Kid(m.child, x, true) == Kid(old(m.child), x, true);
    if r != 0 {
      if r >= m.least {
        AdoptKids(m, x, r, xp);
      } else {
        assert false;
      }
    }
  }

  method AdoptKids(m: MState, x: int, r: int, xp: int)
    requires r != x && r != 0 && r >= m.least
    requires Kid(m.child, x, false) != 0 ==> Kid(m.child, x, false) >= m.least
    requires Kid(m.child, x, true) != 0 ==> Kid(m.child, x, true) >= m.least
    modifies m`child, m`parent
    ensures m.child == AdoptChild(AdoptChild(old(m.child), r, false, Kid(old(m.child), x, false)), r, true,
                                  Kid(old(m.child), x, true))
    ensures m.parent == AdoptParent(AdoptParent(old(m.parent)[r := xp], r, Kid(old(m.child), x, false)), r,
                                    Kid(old(m.child), x, true))
  {
    m.parent := m.parent[r := xp];
    var c0 := Kid(m.child, x, false);
    if c0 != 0 {
      if c0 >= m.least {
        m.child := m.child[(r, false) := c0];
        m.parent := m.parent[c0 := r];
      } else {
        assert false;
      }
    }
    var c1 := Kid(m.child, x, true);
    if c1 != 0 {
      if c1 >= m.least {
        m.child := m.child[(r, true) := c1];
        m.parent := m.parent[c1 := r];
      } else {
        assert false;
      }
    }
  }

  /** Every link the relinking follows leads to a binned chunk. */
  lemma NodeLinks(m: BinMem, v: BinView, h: Heads, least: int, x: int)
    requires BinsInv(m, v) && Known(v.sz, h, least) && x in v.pos
    ensures |m.roots| == NTREEBINS && v.pos[x].bin < NTREEBINS && At(m.index, x) == v.pos[x].bin
    ensures m.roots[v.pos[x].bin] != x ==> At(m.parent, x) >= least
    ensures At(m.parent, x) != x && x in v.sz && x > 0 && !IsSmall(v.sz[x])
    ensures forall b :: Kid(m.child, x, b) != 0 ==> Kid(m.child, x, b) >= least && Kid(m.child, x, b) != x
  {
    hide RingsOk, Members, SmallMapOk, TreeMapOk, ChainedOk, PathOf, BinOf;
    assert v.trie[v.pos[x]] == x;
    SlotOf(v.trie, v.pos, m.child, m.parent, m.roots, v.pos[x]);
    KidsPlaced(v.trie, v.pos, m.child, x);
    assert Fits(v.sz[x], v.pos[x]);
    ChildNotSelf(v.pos[x], false);
    ChildNotSelf(v.pos[x], true);
  }

  lemma OnlyOne(m: BinMem, v: BinView, x: int)
    requires BinsInv(m, v) && x in v.sz && !IsSmall(v.sz[x]) && At(m.bk, x) == x
    ensures x in v.pos && v.sz[x] in v.rings && v.rings[v.sz[x]] == [x] && At(m.parent, x) != 0
  {
    hide BinsInv;
    var j := LargeMember(m, v, x);
    assert v.rings[v.sz[x]] == [v.rings[v.sz[x]][0]];
  }

  lemma KnownDrop(sz: Sizes, h: Heads, least: int, x: int)
    requires Known(sz, h, least)
    ensures Known(sz - {x}, h, least)
  {}

  // ----- which links change

  lemma RelinkLinks(m: BinMem, sz: Sizes, x: int, r: int, xp: int, i: nat)
    requires i < |m.roots| && (r != 0 ==> r in sz && !IsSmall(sz[r]))
    requires (m.roots[i] != x ==> xp in sz && !IsSmall(sz[xp]))
    requires forall b :: Kid(m.child, x, b) != 0 ==> Kid(m.child, x, b) in sz && !IsSmall(sz[Kid(m.child, x, b)])
    ensures LinksIn(m, Relink(m, x, r, xp, i), sz)
  {}

  lemma RingLinks(m: BinMem, sz: Sizes, f: int, r: int)
    requires f in sz && r in sz
    ensures LinksIn(m, m.(bk := m.bk[f := r], fd := m.fd[r := f]), sz)
  {}

  lemma ChildLinks(m: BinMem, sz: Sizes, n: int, b: bool)
    requires n in sz && !IsSmall(sz[n])
    ensures LinksIn(m, m.(child := m.child[(n, b) := 0]), sz)
  {}

  /** The nodes the relinking of x writes to are large binned chunks. */
  lemma NodePlaces(m: BinMem, v: BinView, x: int)
    requires BinsInv(m, v) && x in v.pos
    ensures |m.roots| == NTREEBINS && v.pos[x].bin < NTREEBINS && At(m.index, x) == v.pos[x].bin
    ensures m.roots[v.pos[x].bin] != x ==> At(m.parent, x) in v.sz && !IsSmall(v.sz[At(m.parent, x)])
    ensures forall b :: Kid(m.child, x, b) != 0 ==> Kid(m.child, x, b) in v.sz && !IsSmall(v.sz[Kid(m.child, x, b)])
    ensures forall a | a in v.pos :: a in v.sz && !IsSmall(v.sz[a])
  {
    hide RingsOk, Members, SmallMapOk, TreeMapOk, ChainedOk, PathOf, BinOf;
    assert v.trie[v.pos[x]] == x;
    SlotOf(v.trie, v.pos, m.child, m.parent, m.roots, v.pos[x]);
    KidsPlaced(v.trie, v.pos, m.child, x);
    assert Fits(v.sz[x], v.pos[x]);
  }

  /** The chunk before x in its ring is as large. */
  lemma BeforeLarge(m: BinMem, v: BinView, x: int)
    requires BinsInv(m, v) && x in v.sz && !IsSmall(v.sz[x])
    ensures At(m.bk, x) in v.sz && v.sz[At(m.bk, x)] == v.sz[x]
  {
    hide SmallMapOk, TreeMapOk, NodesOk, ChainedOk, IndexOk, TrieOk;
    var j := SmallBins.IndexIn(v.rings[v.sz[x]], x);
    assert Ring(m.fd, m.bk, v.rings[v.sz[x]]);
    RingNeighbours(m.fd, m.bk, v.rings[v.sz[x]], j);
  }

  /** x is gone from the chunks of its size: the others stay in order, and if x was the node of its trie the last of
      them is now, in front of the others. */
  ghost predicate LargeDropped(v: BinView, v': BinView, x: int) {
    && x in v.sz && v'.sz == v.sz - {x} && v.sz[x] in v.rings
    && var s, r := v.sz[x], v.rings[v.sz[x]];
       || (r == [x] && v'.rings == v.rings - {s})
       || (|r| > 1 && r[0] == x && v'.rings == v.rings[s := [r[|r| - 1]] + r[1..|r| - 1]])
       || exists j :: 0 < j < |r| && r[j] == x && v'.rings == v.rings[s := r[..j] + r[j + 1..]]
  }

  lemma DroppedIs(v: BinView, v': BinView, x: int, j: nat)
    requires x in v.sz && v.sz[x] in v.rings && j < |v.rings[v.sz[x]]| && v.rings[v.sz[x]][j] == x
    requires v'.sz == v.sz - {x} && v'.rings == RestRings(v.rings, v.sz[x], j)
    ensures LargeDropped(v, v', x)
  {
    var r := v.rings[v.sz[x]];
    if |r| == 1 {
      assert r == [x];
    } else if j == 0 {
      assert Rest(r, 0) == [r[|r| - 1]] + r[1..|r| - 1];
    }
  }

  /** A chunk with others of its size. */
  method UnlinkShared(m: MState, x: int)
    requires m.BinsOk() && x in m.v.sz && !IsSmall(m.v.sz[x]) && At(m.bk, x) != x
    modifies m`treemap, m`treebins, m`fd, m`bk, m`child, m`parent, m`v
    ensures m.BinsOk() && LargeDropped(old(m.v), m.v, x) && LinksIn(old(m.Mem()), m.Mem(), old(m.v.sz))
  {
    hide BinsInv, RestRings, Relink, Known, Moved, LinksIn, LargeDropped;
    var xp := At(m.parent, x);
    var f := At(m.fd, x);
    var r := At(m.bk, x);
    ghost var j := LargeMember(m.Mem(), m.v, x);
    assert f >= m.least && r >= m.least by { KnownAt(m.v.sz, m.head, m.least, f); KnownAt(m.v.sz, m.head, m.least, r); }
    if f >= m.least && At(m.bk, f) == x && At(m.fd, r) == x {
      m.bk := m.bk[f := r];
      m.fd := m.fd[r := f];
    } else {
      assert false;
    }
    KnownDrop(m.v.sz, m.head, m.least, x);
    RingLinks(old(m.Mem()), m.v.sz, f, r);
    if xp != 0 {
      Swap(old(m.Mem()), m.v, x);
      NodeLinks(old(m.Mem()), m.v, m.head, m.least, x);
      NodePlaces(old(m.Mem()), m.v, x);
      BeforeLarge(old(m.Mem()), m.v, x);
      RelinkLinks(m.Mem(), m.v.sz, x, r, xp, At(m.index, x));
      ghost var m1 := m.Mem();
      RelinkNode(m, x, r, xp);
      LinksTrans(old(m.Mem()), m1, m.Mem(), m.v.sz);
      m.v := SwapView(m.v, x, r);
      DroppedIs(old(m.v), m.v, x, 0);
    } else {
      DropChained(old(m.Mem()), m.v, x, j);
      m.v := RestView(m.v, x, j);
      DroppedIs(old(m.v), m.v, x, j);
    }
  }

  /** A large chunk joins the others of its size right behind the first, and leaving is the inverse of that. */
  lemma JoinedLeaves(v: BinView, x: int, s: nat)
    requires s in v.rings && v.rings[s] != [] && x !in v.sz
    ensures var v' := TreeInsert.ChainView(v, x, s);
            && s in v'.rings && |v'.rings[s]| > 1 && v'.rings[s][0] == v.rings[s][0] && v'.rings[s][1] == x
            && RestView(v', x, 1) == v
  {
    var v' := TreeInsert.ChainView(v, x, s);
    assert Drop(v'.rings[s], 1) == v.rings[s];
    assert v'.rings[s := v.rings[s]] == v.rings;
    assert v'.sz - {x} == v.sz;
  }

  lemma KnownAt(sz: Sizes, h: Heads, least: int, a: int)
    requires Known(sz, h, least) && a in sz
    ensures a >= least && a > 0
  {}

  /** The only chunk of its size. */
  method UnlinkOnly(m: MState, x: int)
    requires m.BinsOk() && x in m.v.sz && !IsSmall(m.v.sz[x]) && At(m.bk, x) == x
    modifies m`treemap, m`treebins, m`child, m`parent, m`v
    ensures m.BinsOk() && LargeDropped(old(m.v), m.v, x) && LinksIn(old(m.Mem()), m.Mem(), old(m.v.sz))
  {
    hide BinsInv, Relink, Known, LeafBelow, Hangs, LinksIn;
    OnlyOne(m.Mem(), m.v, x);
    var xp := At(m.parent, x);
    var r, n, b := FindLeaf(m, x);
    NodeLinks(m.Mem(), m.v, m.head, m.least, x);
    NodePlaces(m.Mem(), m.v, x);
    KnownDrop(m.v.sz, m.head, m.least, x);
    if r != 0 {
      LeafSwap(m.Mem(), m.v, x, r);
      HangsAt(m.Mem(), m.v, m.head, m.least, x, r, n, b);
      if n >= m.least {
        m.child := m.child[(n, b) := 0];
      } else {
        assert false;
      }
      assert forall c :: Kid(m.child, x, c) == 0 || Kid(m.child, x, c) == Kid(old(m.child), x, c);
      ChildLinks(old(m.Mem()), m.v.sz, n, b);
      RelinkLinks(m.Mem(), m.v.sz, x, r, xp, At(m.index, x));
      ghost var m1 := m.Mem();
      RelinkNode(m, x, r, xp);
      LinksTrans(old(m.Mem()), m1, m.Mem(), m.v.sz);
      m.v := LeafView(m.v, x, r);
    } else {
      Lone(m.Mem(), m.v, x);
      RelinkLinks(m.Mem(), m.v.sz, x, 0, xp, At(m.index, x));
      RelinkNode(m, x, 0, xp);
      m.v := LoneView(m.v, x);
    }
  }

  lemma HangsAt(m: BinMem, v: BinView, h: Heads, least: int, x: int, r: int, n: int, b: bool)
    requires BinsInv(m, v) && Known(v.sz, h, least) && Hangs(v, m, x, r, n, b)
    ensures r in v.pos && n in v.pos && n == At(m.parent, r) && b == Side(v.pos[r]) && n >= least && r >= least
    ensures r != x
  {
    hide RingsOk, Members, SmallMapOk, TreeMapOk, ChainedOk, IndexOk, TrieOk;
  }

  /** unlink_large_chunk.  CORRUPTION_ERROR_ACTION is where `assert false` stands. */
  method UnlinkLargeChunk(m: MState, x: int)
    requires m.BinsOk() && x in m.v.sz && !IsSmall(m.v.sz[x])
    modifies m`treemap, m`treebins, m`fd, m`bk, m`child, m`parent, m`v
    ensures m.BinsOk() && LargeDropped(old(m.v), m.v, x) && LinksIn(old(m.Mem()), m.Mem(), old(m.v.sz))
    ensures m.v.sz == old(m.v.sz) - {x}
  {
    hide BinsInv, LinksIn;
    if At(m.bk, x) != x {
      UnlinkShared(m, x);
    } else {
      UnlinkOnly(m, x);
    }
  }
}
