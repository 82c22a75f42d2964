/**
 The bitwise digital tries of the tree bins.

 A trie is described by the positions its nodes occupy: a position is a bin and the path of bits
 from the bin's root.  The pointer fields child, parent and treebins are tied to that description.
 */
module Tries {
  import opened Words
  import opened TreeIndex
  import opened Keys
  import opened Rings

  datatype Pos = Pos(bin: nat, path: Path)

  type Trie = map<Pos, int>
  type Places = map<int, Pos>
  type Sizes = map<int, nat>
  type Kids = map<(int, bool), int>

  /** child[b] of node a; unwritten memory reads as null. */
  function Kid(child: Kids, a: int, b: bool): int { if (a, b) in child then child[(a, b)] else 0 }

  function Slot(t: Trie, q: Pos): int { if q in t then t[q] else 0 }

  function ChildPos(q: Pos, b: bool): Pos { Pos(q.bin, q.path + [b]) }

  function ParentPos(q: Pos): Pos
    requires q.path != []
  {
    Pos(q.bin, q.path[..|q.path| - 1])
  }

  function Side(q: Pos): bool
    requires q.path != []
  {
    q.path[|q.path| - 1]
  }

  /** The address of the treebins[] slot, stored as the parent of a root. */
  function TreeHeader(i: nat): int { -100 - i }

  function ParentPtr(t: Trie, q: Pos): int {
    if q.path == [] then TreeHeader(q.bin) else Slot(t, ParentPos(q))
  }

  // ----- the invariant, one clause at a time

  predicate Inverse(t: Trie, pos: Places) {
    && (forall q | q in t :: t[q] in pos && pos[t[q]] == q && t[q] > 0)
    && (forall a | a in pos :: pos[a] in t && t[pos[a]] == a)
  }

  /** A size may sit at a position when it indexes that bin and its leading bits spell the path. */
  predicate Fits(s: nat, q: Pos) {
    256 <= s < TWO32 && BinOf(s) == q.bin < NTREEBINS && q.path <= PathOf(s)
  }

  predicate Sized(t: Trie, sz: Sizes) {
    forall q | q in t :: t[q] in sz && Fits(sz[t[q]], q)
  }

  predicate Closed(t: Trie) {
    forall q, k | q in t && 0 <= k <= |q.path| :: Pos(q.bin, q.path[..k]) in t
  }

  predicate KidsOk(t: Trie, pos: Places, child: Kids) {
    forall a, b | a in pos :: Kid(child, a, b) == Slot(t, ChildPos(pos[a], b))
  }

  predicate ParentsOk(t: Trie, pos: Places, parent: Ptrs) {
    forall a | a in pos :: At(parent, a) == ParentPtr(t, pos[a])
  }

  predicate RootsOk(t: Trie, roots: seq<int>) {
    |roots| == NTREEBINS && forall i | 0 <= i < NTREEBINS :: roots[i] == Slot(t, Pos(i, []))
  }

  ghost predicate TrieOk(t: Trie, pos: Places, sz: Sizes, child: Kids, parent: Ptrs, roots: seq<int>) {
    && Inverse(t, pos)
    && Sized(t, sz)
    && Closed(t)
    && KidsOk(t, pos, child)
    && ParentsOk(t, pos, parent)
    && RootsOk(t, roots)
  }

  // ----- consequences

  lemma NothingBelow(t: Trie, q: Pos, p: Pos)
    requires Closed(t) && q !in t
    requires p.bin == q.bin && q.path <= p.path
    ensures p !in t
  {
    assert p.path[..|q.path|] == q.path;
  }

  lemma ParentIn(t: Trie, q: Pos)
    requires Closed(t) && q in t && q.path != []
    ensures ParentPos(q) in t && ChildPos(ParentPos(q), Side(q)) == q
  {
    assert q.path[..|q.path| - 1] + [Side(q)] == q.path;
  }

  lemma ChildNotSelf(q: Pos, b: bool)
    ensures ChildPos(q, b) != q && ParentPos(ChildPos(q, b)) == q && Side(ChildPos(q, b)) == b
  {
    assert |ChildPos(q, b).path| == |q.path| + 1;
    assert (q.path + [b])[..|q.path|] == q.path;
  }

  // ----- adding a leaf

  lemma AddLeafClosed(t: Trie, q: Pos, x: int)
    requires Closed(t)
    requires q.path != [] ==> ParentPos(q) in t
    ensures Closed(t[q := x])
  {
    var t' := t[q := x];
    forall p, k | p in t' && 0 <= k <= |p.path| ensures Pos(p.bin, p.path[..k]) in t' {
      if p == q {
        if k < |q.path| {
          assert ParentPos(q).path[..k] == q.path[..k];
        } else {
          assert q.path[..k] == q.path;
        }
      }
    }
  }

  lemma AddLeafShape(t: Trie, pos: Places, sz: Sizes, q: Pos, x: int)
    requires Inverse(t, pos) && Sized(t, sz) && Closed(t)
    requires q !in t && x !in pos && x > 0 && x in sz && Fits(sz[x], q)
    requires q.path != [] ==> ParentPos(q) in t
    ensures Inverse(t[q := x], pos[x := q]) && Sized(t[q := x], sz) && Closed(t[q := x])
  {
    hide Fits, Closed;
    AddLeafClosed(t, q, x);
  }

  lemma AddLeafKids(t: Trie, pos: Places, q: Pos, x: int, child: Kids, child': Kids)
    requires Inverse(t, pos) && Closed(t) && KidsOk(t, pos, child)
    requires q !in t && x !in pos
    requires forall b :: Kid(child', x, b) == 0
    requires forall a, b | a in pos :: Kid(child', a, b) == if ChildPos(pos[a], b) == q then x else Kid(child, a, b)
    ensures KidsOk(t[q := x], pos[x := q], child')
  {
    var t', pos' := t[q := x], pos[x := q];
    forall a, b | a in pos' ensures Kid(child', a, b) == Slot(t', ChildPos(pos'[a], b)) {
      if a == x {
        ChildNotSelf(q, b);
        NothingBelow(t, q, ChildPos(q, b));
      }
    }
  }

  lemma AddLeafParents(t: Trie, pos: Places, q: Pos, x: int, parent: Ptrs, parent': Ptrs)
    requires Inverse(t, pos) && Closed(t) && ParentsOk(t, pos, parent)
    requires q !in t && x !in pos
    requires At(parent', x) == ParentPtr(t, q)
    requires forall a | a in pos :: At(parent', a) == At(parent, a)
    ensures ParentsOk(t[q := x], pos[x := q], parent')
  {
    var t', pos' := t[q := x], pos[x := q];
    forall a | a in pos' ensures At(parent', a) == ParentPtr(t', pos'[a]) {
      var p := pos'[a];
      if p.path != [] {
        if a == x {
          ChildNotSelf(ParentPos(q), Side(q));
          assert q.path == ParentPos(q).path + [Side(q)];
        } else {
          ParentIn(t, p);
        }
      }
    }
  }

  // ----- removing a leaf

  predicate IsLeaf(t: Trie, q: Pos) { forall b :: ChildPos(q, b) !in t }

  lemma RemoveLeafClosed(t: Trie, q: Pos)
    requires Closed(t)
    requires q in t && IsLeaf(t, q)
    ensures Closed(t - {q})
  {
    var t' := t - {q};
    forall p, k | p in t' && 0 <= k <= |p.path| ensures Pos(p.bin, p.path[..k]) in t' {
      if k < |p.path| {
        assert p.path[..k + 1] == p.path[..k] + [p.path[k]];
        assert ChildPos(Pos(p.bin, p.path[..k]), p.path[k]) in t;
      } else {
        assert p.path[..k] == p.path;
      }
    }
  }

  lemma RemoveLeafShape(t: Trie, pos: Places, sz: Sizes, q: Pos)
    requires Inverse(t, pos) && Sized(t, sz) && Closed(t)
    requires q in t && IsLeaf(t, q)
    ensures Inverse(t - {q}, pos - {t[q]}) && Sized(t - {q}, sz) && Closed(t - {q})
  {
    hide Fits, Closed, IsLeaf;
    RemoveLeafClosed(t, q);
  }

  lemma RemoveLeafKids(t: Trie, pos: Places, q: Pos, child: Kids, child': Kids)
    requires Inverse(t, pos) && KidsOk(t, pos, child)
    requires q in t
    requires forall a, b | a in pos && a != t[q] ::
               Kid(child', a, b) == if ChildPos(pos[a], b) == q then 0 else Kid(child, a, b)
    ensures KidsOk(t - {q}, pos - {t[q]}, child')
  {}

  lemma RemoveLeafParents(t: Trie, pos: Places, q: Pos, parent: Ptrs, parent': Ptrs)
    requires Inverse(t, pos) && Closed(t) && ParentsOk(t, pos, parent)
    requires q in t && IsLeaf(t, q)
    requires forall a | a in pos && a != t[q] :: At(parent', a) == At(parent, a)
    ensures ParentsOk(t - {q}, pos - {t[q]}, parent')
  {
    forall a | a in pos && a != t[q] ensures At(parent', a) == ParentPtr(t - {q}, pos[a]) {
      var p := pos[a];
      if p.path != [] {
        ParentIn(t, p);
        assert ChildPos(ParentPos(p), Side(p)) in t;
      }
    }
  }

  // ----- putting another node in a position

  function Moved(pos: Places, x: int, r: int, q: Pos): Places { (pos - {x})[r := q] }

  lemma ReplaceClosed(t: Trie, q: Pos, r: int)
    requires Closed(t) && q in t
    ensures Closed(t[q := r])
  {}

  lemma ReplaceShape(t: Trie, pos: Places, sz: Sizes, q: Pos, r: int)
    requires Inverse(t, pos) && Sized(t, sz) && Closed(t)
    requires q in t && (r !in pos || r == t[q]) && r > 0 && r in sz && Fits(sz[r], q)
    ensures Inverse(t[q := r], Moved(pos, t[q], r, q)) && Sized(t[q := r], sz) && Closed(t[q := r])
  {
    hide Fits, Closed;
    ReplaceClosed(t, q, r);
  }

  lemma ReplaceKids(t: Trie, pos: Places, q: Pos, r: int, child: Kids, child': Kids)
    requires Inverse(t, pos) && KidsOk(t, pos, child)
    requires q in t && r !in pos
    requires forall b :: Kid(child', r, b) == Kid(child, t[q], b)
    requires forall a, b | a in pos && a != t[q] ::
               Kid(child', a, b) == if ChildPos(pos[a], b) == q then r else Kid(child, a, b)
    ensures KidsOk(t[q := r], Moved(pos, t[q], r, q), child')
  {
    var t', pos' := t[q := r], Moved(pos, t[q], r, q);
    forall a, b | a in pos' ensures Kid(child', a, b) == Slot(t', ChildPos(pos'[a], b)) {
      if a == r { ChildNotSelf(q, b); }
    }
  }

  lemma ReplaceParents(t: Trie, pos: Places, q: Pos, r: int, parent: Ptrs, parent': Ptrs)
    requires Inverse(t, pos) && Closed(t) && ParentsOk(t, pos, parent)
    requires q in t && r !in pos
    requires At(parent', r) == At(parent, t[q])
    requires forall a | a in pos && a != t[q] ::
               At(parent', a) == if pos[a].path != [] && ParentPos(pos[a]) == q then r else At(parent, a)
    ensures ParentsOk(t[q := r], Moved(pos, t[q], r, q), parent')
  {
    var t', pos' := t[q := r], Moved(pos, t[q], r, q);
    forall a | a in pos' ensures At(parent', a) == ParentPtr(t', pos'[a]) {
      if a == r && q.path != [] { ChildNotSelf(ParentPos(q), Side(q)); ParentIn(t, q); }
    }
  }

  /** Only the root slot of the changed position's bin changes, and only at a root position. */
  lemma RootsSet(t: Trie, roots: seq<int>, q: Pos, x: int)
    requires RootsOk(t, roots) && q.bin < NTREEBINS
    ensures q.path == [] ==> RootsOk(t[q := x], roots[q.bin := x]) && RootsOk(t - {q}, roots[q.bin := 0])
    ensures q.path != [] ==> RootsOk(t[q := x], roots) && RootsOk(t - {q}, roots)
  {}
}
