/** The relinking half of unlink_large_chunk: another node, or none, takes a node's place in the trie. */
module TreeRelink {
  import opened Words
  import opened BitMaps
  import opened TreeIndex
  import opened Keys
  import opened Rings
  import opened Tries
  import opened Bins

  function ClearBit(w: Word, i: nat): Word { And(w, Not(Bit(i))) }

  /** x's parent slot, the bin header or a child field of xp, now holds r. */
  function SlotChild(child: Kids, root: int, x: int, r: int, xp: int): Kids {
    if root == x then child else child[(xp, Kid(child, xp, false) != x) := r]
  }

  function AdoptChild(child: Kids, r: int, b: bool, c: int): Kids { if c == 0 then child else child[(r, b) := c] }

  function AdoptParent(parent: Ptrs, r: int, c: int): Ptrs { if c == 0 then parent else parent[c := r] }

  /** r takes over x's children too. */
  function RelinkChild(child: Kids, root: int, x: int, r: int, xp: int): Kids {
    var s := SlotChild(child, root, x, r, xp);
    if r == 0 then s
    else AdoptChild(AdoptChild(s, r, false, Kid(child, x, false)), r, true, Kid(child, x, true))
  }

  function RelinkParent(child: Kids, parent: Ptrs, x: int, r: int, xp: int): Ptrs {
    if r == 0 then parent
    else AdoptParent(AdoptParent(parent[r := xp], r, Kid(child, x, false)), r, Kid(child, x, true))
  }

  function Relink(m: BinMem, x: int, r: int, xp: int, i: nat): BinMem
    requires i < |m.roots|
  {
    m.(roots := if m.roots[i] == x then m.roots[i := r] else m.roots,
       treemap := if m.roots[i] == x && r == 0 then ClearBit(m.treemap, i) else m.treemap,
       child := RelinkChild(m.child, m.roots[i], x, r, xp),
       parent := RelinkParent(m.child, m.parent, x, r, xp))
  }

  // ----- which slot is x's

  lemma SlotOf(t: Trie, pos: Places, child: Kids, parent: Ptrs, roots: seq<int>, q: Pos)
    requires Inverse(t, pos) && Closed(t) && KidsOk(t, pos, child) && ParentsOk(t, pos, parent) && RootsOk(t, roots)
    requires q in t && q.bin < NTREEBINS
    ensures |roots| == NTREEBINS
    ensures roots[q.bin] == t[q] <==> q.path == []
    ensures q.path != [] ==> var xp := At(parent, t[q]);
                             && xp in pos && pos[xp] == ParentPos(q) && xp != t[q]
                             && (Kid(child, xp, false) != t[q]) == Side(q)
    ensures q.path == [] ==> At(parent, t[q]) == TreeHeader(q.bin)
  {
    var x := t[q];
    if q.path != [] {
      ParentIn(t, q);
      var xp := At(parent, x);
      assert xp == t[ParentPos(q)];
      ChildNotSelf(ParentPos(q), Side(q));
      ChildNotSelf(ParentPos(q), false);
      assert Kid(child, xp, false) == Slot(t, ChildPos(ParentPos(q), false));
    }
  }

  // ----- r in x's place

  lemma RelinkKidsOf(m: BinMem, t: Trie, pos: Places, q: Pos, r: int)
    requires Inverse(t, pos) && Closed(t) && KidsOk(t, pos, m.child) && ParentsOk(t, pos, m.parent)
    requires RootsOk(t, m.roots)
    requires q in t && q.bin < NTREEBINS && r !in pos && r > 0
    requires Kid(m.child, r, false) == 0 && Kid(m.child, r, true) == 0
    ensures |m.roots| == NTREEBINS
    ensures var child' := RelinkChild(m.child, m.roots[q.bin], t[q], r, At(m.parent, t[q]));
            && (forall b :: Kid(child', r, b) == Kid(m.child, t[q], b))
            && (forall a, b | a in pos && a != t[q] ::
                  Kid(child', a, b) == if ChildPos(pos[a], b) == q then r else Kid(m.child, a, b))
  {
    hide Closed, ParentsOk, RootsOk, KidsOk, RelinkChild;
    SlotOf(t, pos, m.child, m.parent, m.roots, q);
    assert t[q] in pos;
    var x, xp, root := t[q], At(m.parent, t[q]), m.roots[q.bin];
    var child' := RelinkChild(m.child, root, x, r, xp);
    forall b ensures Kid(child', r, b) == Kid(m.child, x, b) {
      RelinkChildShape(m.child, root, x, r, xp, r, b);
    }
    forall a, b | a in pos && a != x
      ensures Kid(child', a, b) == if ChildPos(pos[a], b) == q then r else Kid(m.child, a, b)
    {
      RelinkChildShape(m.child, root, x, r, xp, a, b);
      ChildNotSelf(pos[a], b);
      if q.path != [] {
        ChildSide(pos[a], b, q);
      }
    }
  }

  lemma ChildSide(p: Pos, b: bool, q: Pos)
    requires q.path != []
    ensures ChildPos(p, b) == q <==> p == ParentPos(q) && b == Side(q)
  {
    ChildNotSelf(p, b);
    assert q.path == q.path[..|q.path| - 1] + [Side(q)];
  }

  lemma RelinkParentShape(child: Kids, parent: Ptrs, x: int, r: int, xp: int, a: int)
    requires r != 0
    ensures At(RelinkParent(child, parent, x, r, xp), a) ==
            if a != 0 && (a == Kid(child, x, false) || a == Kid(child, x, true)) then r
            else if a == r then xp else At(parent, a)
  {}

  lemma RelinkChildShape(child: Kids, root: int, x: int, r: int, xp: int, a: int, b: bool)
    requires xp != x && r != x && r != xp && Kid(child, r, b) == 0 && r != 0
    ensures Kid(RelinkChild(child, root, x, r, xp), a, b) ==
            if a == r then Kid(child, x, b)
            else if root != x && a == xp && b == (Kid(child, xp, false) != x) then r
            else Kid(child, a, b)
  {}

  lemma RelinkParentsOf(m: BinMem, t: Trie, pos: Places, q: Pos, r: int)
    requires Inverse(t, pos) && Closed(t) && KidsOk(t, pos, m.child) && ParentsOk(t, pos, m.parent)
    requires RootsOk(t, m.roots)
    requires q in t && q.bin < NTREEBINS && r !in pos && r > 0
    ensures |m.roots| == NTREEBINS
    ensures var m' := Relink(m, t[q], r, At(m.parent, t[q]), q.bin);
            && At(m'.parent, r) == At(m.parent, t[q])
            && (forall a | a in pos && a != t[q] ::
                  At(m'.parent, a) == if pos[a].path != [] && ParentPos(pos[a]) == q then r else At(m.parent, a))
  {
    hide Closed, ParentsOk, RootsOk, RelinkParent, RelinkChild, ClearBit;
    SlotOf(t, pos, m.child, m.parent, m.roots, q);
    var x, xp := t[q], At(m.parent, t[q]);
    var m' := Relink(m, x, r, xp, q.bin);
    SlotNot(t, pos, q, r);
    RelinkParentShape(m.child, m.parent, x, r, xp, r);
    forall a | a in pos && a != x
      ensures At(m'.parent, a) == if pos[a].path != [] && ParentPos(pos[a]) == q then r else At(m.parent, a)
    {
      RelinkParentShape(m.child, m.parent, x, r, xp, a);
      ChildNotSelf(q, false);
      ChildNotSelf(q, true);
      if pos[a].path != [] && ParentPos(pos[a]) == q {
        ChildSide(q, Side(pos[a]), pos[a]);
        assert a == Kid(m.child, x, Side(pos[a]));
      }
    }
  }

  lemma SlotNot(t: Trie, pos: Places, q: Pos, r: int)
    requires Inverse(t, pos) && r !in pos && r > 0
    ensures forall b :: Slot(t, ChildPos(q, b)) != r
  {}

  lemma RelinkRootsOf(m: BinMem, t: Trie, pos: Places, q: Pos, r: int)
    requires Inverse(t, pos) && Closed(t) && KidsOk(t, pos, m.child) && ParentsOk(t, pos, m.parent)
    requires RootsOk(t, m.roots)
    requires TreeMapOk(t, m.treemap)
    requires q in t && q.bin < NTREEBINS && r >= 0 && r !in pos
    ensures |m.roots| == NTREEBINS
    ensures var m' := Relink(m, t[q], r, At(m.parent, t[q]), q.bin);
            && (r != 0 ==> RootsOk(t[q := r], m'.roots) && TreeMapOk(t[q := r], m'.treemap))
            && (r == 0 ==> RootsOk(t - {q}, m'.roots) && TreeMapOk(t - {q}, m'.treemap))
            && m'.smallmap == m.smallmap && m'.fd == m.fd && m'.bk == m.bk && m'.index == m.index
            && (r == 0 ==> m'.parent == m.parent)
  {
    hide Closed, KidsOk, ParentsOk, RootsOk, TreeMapOk, RelinkChild, ClearBit;
    assert t[q] in pos && t[q] > 0;
    SlotOf(t, pos, m.child, m.parent, m.roots, q);
    RootsSet(t, m.roots, q, r);
    TreeMapSet(t, m.treemap, q, r);
  }

  lemma TreeMapSet(t: Trie, treemap: Word, q: Pos, r: int)
    requires TreeMapOk(t, treemap) && q in t && q.bin < NTREEBINS
    ensures TreeMapOk(t[q := r], treemap)
    ensures q.path == [] ==> TreeMapOk(t - {q}, ClearBit(treemap, q.bin))
    ensures q.path != [] ==> TreeMapOk(t - {q}, treemap)
  {
    assert q == Pos(q.bin, q.path);
  }

  /** Another node moved into x's place keeps the trie well formed. */
  lemma RelinkReplace(m: BinMem, t: Trie, pos: Places, sz: Sizes, q: Pos, r: int)
    requires TrieOk(t, pos, sz, m.child, m.parent, m.roots) && TreeMapOk(t, m.treemap)
    requires q in t && q.bin < NTREEBINS && r !in pos && r > 0 && r in sz && Fits(sz[r], q)
    requires Kid(m.child, r, false) == 0 && Kid(m.child, r, true) == 0
    ensures |m.roots| == NTREEBINS
    ensures var m' := Relink(m, t[q], r, At(m.parent, t[q]), q.bin);
            && TrieOk(t[q := r], Moved(pos, t[q], r, q), sz, m'.child, m'.parent, m'.roots)
            && TreeMapOk(t[q := r], m'.treemap)
            && m'.smallmap == m.smallmap && m'.fd == m.fd && m'.bk == m.bk && m'.index == m.index
  {
    assert |m.roots| == NTREEBINS;
    hide Inverse, Sized, Closed, KidsOk, ParentsOk, RootsOk, TreeMapOk, Relink, Moved, Fits;
    var m' := Relink(m, t[q], r, At(m.parent, t[q]), q.bin);
    RelinkRootsOf(m, t, pos, q, r);
    RelinkKidsOf(m, t, pos, q, r);
    RelinkParentsOf(m, t, pos, q, r);
    ReplaceShape(t, pos, sz, q, r);
    ReplaceKids(t, pos, q, r, m.child, m'.child);
    ReplaceParents(t, pos, q, r, m.parent, m'.parent);
  }

  // ----- nothing in x's place

  lemma RelinkLeafKids(m: BinMem, t: Trie, pos: Places, q: Pos)
    requires Inverse(t, pos) && Closed(t) && KidsOk(t, pos, m.child) && ParentsOk(t, pos, m.parent)
    requires RootsOk(t, m.roots)
    requires q in t && q.bin < NTREEBINS
    ensures var m' := Relink(m, t[q], 0, At(m.parent, t[q]), q.bin);
            && m'.parent == m.parent
            && (forall a, b | a in pos && a != t[q] ::
                  Kid(m'.child, a, b) == if ChildPos(pos[a], b) == q then 0 else Kid(m.child, a, b))
  {
    hide Closed, ParentsOk, RootsOk;
    SlotOf(t, pos, m.child, m.parent, m.roots, q);
    var x, xp := t[q], At(m.parent, t[q]);
    var m' := Relink(m, x, 0, xp, q.bin);
    forall a, b | a in pos && a != x
      ensures Kid(m'.child, a, b) == if ChildPos(pos[a], b) == q then 0 else Kid(m.child, a, b)
    {
      ChildNotSelf(pos[a], b);
      if q.path != [] {
        ChildSide(pos[a], b, q);
      }
    }
  }

  lemma ZeroNotPlaced(t: Trie, pos: Places)
    requires Inverse(t, pos)
    ensures 0 !in pos
  {}

  lemma RelinkRemove(m: BinMem, t: Trie, pos: Places, sz: Sizes, q: Pos)
    requires TrieOk(t, pos, sz, m.child, m.parent, m.roots) && TreeMapOk(t, m.treemap)
    requires q in t && q.bin < NTREEBINS && IsLeaf(t, q)
    ensures |m.roots| == NTREEBINS
    ensures var m' := Relink(m, t[q], 0, At(m.parent, t[q]), q.bin);
            && TrieOk(t - {q}, pos - {t[q]}, sz, m'.child, m'.parent, m'.roots)
            && TreeMapOk(t - {q}, m'.treemap)
            && m'.smallmap == m.smallmap && m'.fd == m.fd && m'.bk == m.bk && m'.index == m.index
            && m'.parent == m.parent
  {
    assert |m.roots| == NTREEBINS;
    hide Inverse, Sized, Closed, KidsOk, ParentsOk, RootsOk, TreeMapOk, Relink, IsLeaf;
    var m' := Relink(m, t[q], 0, At(m.parent, t[q]), q.bin);
    ZeroNotPlaced(t, pos);
    RelinkRootsOf(m, t, pos, q, 0);
    RelinkLeafKids(m, t, pos, q);
    RemoveLeafShape(t, pos, sz, q);
    RemoveLeafKids(t, pos, q, m.child, m'.child);
    RemoveLeafParents(t, pos, q, m.parent, m'.parent);
  }
}
