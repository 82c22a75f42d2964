/**
 The invariant of the bins: every binned chunk is in exactly the ring of its size, small rings are
 anchored at a header, large rings hang off the trie node of their size, and the bit maps say
 which bins are non-empty.  While a small bin's bit is clear its header links may be stale.
 */
module Bins {
  import opened Words
  import opened BitMaps
  import opened TreeIndex
  import opened Keys
  import opened Rings
  import opened Tries

  /** The memory words and malloc_state fields the bins live in. */
  datatype BinMem = BinMem(
    smallmap: Word, treemap: Word, roots: seq<int>,
    fd: Ptrs, bk: Ptrs, child: Kids, parent: Ptrs, index: map<int, int>)

  /** What they hold: the ring of each size, the sizes of binned chunks, the tries. */
  datatype BinView = BinView(rings: map<nat, seq<int>>, sz: Sizes, trie: Trie, pos: Places)

  /** smallbin_at: the header acting as a chunk. */
  function SmallHeader(i: nat): int { -1 - i }

  predicate IsSmall(s: nat) { s < MIN_LARGE_SIZE }

  function Full(s: nat, r: seq<int>): seq<int> { if IsSmall(s) then [SmallHeader(s / 8)] + r else r }

  predicate GoodSize(s: nat) { MIN_CHUNK_SIZE <= s < TWO32 && s % 8 == 0 }

  predicate RingsOk(rings: map<nat, seq<int>>, fd: Ptrs, bk: Ptrs) {
    forall s | s in rings :: rings[s] != [] && Ring(fd, bk, Full(s, rings[s]))
  }

  predicate Members(rings: map<nat, seq<int>>, sz: Sizes) {
    && (forall s, a | s in rings && a in rings[s] :: a in sz && sz[a] == s)
    && (forall a | a in sz :: a > 0 && GoodSize(sz[a]) && sz[a] in rings && a in rings[sz[a]])
    && (forall s | s in rings :: rings[s] != [])
  }

  predicate SmallMapOk(rings: map<nat, seq<int>>, smallmap: Word) {
    forall i | 0 <= i < WORD :: smallmap[i] == (8 * i in rings)
  }

  predicate TreeMapOk(t: Trie, treemap: Word) {
    forall i | 0 <= i < WORD :: treemap[i] == (Pos(i, []) in t)
  }

  /** The trie nodes are exactly the first members of the large rings. */
  predicate NodesOk(rings: map<nat, seq<int>>, sz: Sizes, pos: Places) {
    && (forall s | s in rings && !IsSmall(s) :: rings[s] != [] && rings[s][0] in pos)
    && (forall a | a in pos ::
          a in sz && !IsSmall(sz[a]) && sz[a] in rings && rings[sz[a]] != [] && rings[sz[a]][0] == a)
  }

  /** A large chunk outside the trie has no trie links. */
  predicate ChainedOk(sz: Sizes, pos: Places, child: Kids, parent: Ptrs) {
    forall a | a in sz && !IsSmall(sz[a]) && a !in pos ::
      At(parent, a) == 0 && Kid(child, a, false) == 0 && Kid(child, a, true) == 0
  }

  predicate IndexOk(sz: Sizes, index: map<int, int>) {
    forall a | a in sz && !IsSmall(sz[a]) :: At(index, a) == BinOf(sz[a])
  }

  ghost predicate BinsInv(m: BinMem, v: BinView) {
    && RingsOk(v.rings, m.fd, m.bk)
    && Members(v.rings, v.sz)
    && SmallMapOk(v.rings, m.smallmap)
    && TreeMapOk(v.trie, m.treemap)
    && NodesOk(v.rings, v.sz, v.pos)
    && ChainedOk(v.sz, v.pos, m.child, m.parent)
    && IndexOk(v.sz, m.index)
    && TrieOk(v.trie, v.pos, v.sz, m.child, m.parent, m.roots)
  }

  // ----- frames

  /** Link writes confined to the ring of size s: its header, its members and unbinned chunks. */
  ghost predicate OnlyRing(fd: Ptrs, bk: Ptrs, fd': Ptrs, bk': Ptrs, sz: Sizes, s: nat) {
    && (forall a | a in sz && sz[a] != s :: At(fd', a) == At(fd, a) && At(bk', a) == At(bk, a))
    && (forall i: nat | !(IsSmall(s) && i == s / 8) ::
          At(fd', SmallHeader(i)) == At(fd, SmallHeader(i)) && At(bk', SmallHeader(i)) == At(bk, SmallHeader(i)))
  }

  lemma OtherRing(rings: map<nat, seq<int>>, sz: Sizes, fd: Ptrs, bk: Ptrs, fd': Ptrs, bk': Ptrs, s: nat, s': nat)
    requires RingsOk(rings, fd, bk) && Members(rings, sz) && OnlyRing(fd, bk, fd', bk', sz, s)
    requires s' in rings && s' != s && s % 8 == 0
    ensures Ring(fd', bk', Full(s', rings[s']))
  {
    var r := rings[s'];
    var h := r[0];
    assert h in rings[s'];
    assert h in sz && GoodSize(sz[h]);
    forall a | a in Full(s', r) ensures At(fd', a) == At(fd, a) && At(bk', a) == At(bk, a) {
      if a !in r { assert a == SmallHeader(s' / 8); }
    }
    RingFrame(fd, bk, fd', bk', Full(s', r));
  }

  /** Updating one ring, when the rest is left alone. */
  lemma SetRing(rings: map<nat, seq<int>>, sz: Sizes, fd: Ptrs, bk: Ptrs, fd': Ptrs, bk': Ptrs, s: nat, r: seq<int>)
    requires RingsOk(rings, fd, bk) && Members(rings, sz) && OnlyRing(fd, bk, fd', bk', sz, s)
    requires s % 8 == 0 && r != [] && Ring(fd', bk', Full(s, r))
    ensures RingsOk(rings[s := r], fd', bk')
  {
    var rings' := rings[s := r];
    forall s' | s' in rings' ensures rings'[s'] != [] && Ring(fd', bk', Full(s', rings'[s'])) {
      if s' != s { OtherRing(rings, sz, fd, bk, fd', bk', s, s'); }
    }
  }

  lemma ClearRing(rings: map<nat, seq<int>>, sz: Sizes, fd: Ptrs, bk: Ptrs, fd': Ptrs, bk': Ptrs, s: nat)
    requires RingsOk(rings, fd, bk) && Members(rings, sz) && OnlyRing(fd, bk, fd', bk', sz, s)
    requires s % 8 == 0
    ensures RingsOk(rings - {s}, fd', bk')
  {
    forall s' | s' in rings - {s} ensures rings[s'] != [] && Ring(fd', bk', Full(s', rings[s'])) {
      OtherRing(rings, sz, fd, bk, fd', bk', s, s');
    }
  }

  // ----- membership after adding or removing one chunk

  lemma MembersAdd(rings: map<nat, seq<int>>, sz: Sizes, p: int, s: nat, r: seq<int>)
    requires Members(rings, sz) && p !in sz && p > 0 && GoodSize(s)
    requires forall a :: a in r <==> a == p || (s in rings && a in rings[s])
    ensures Members(rings[s := r], sz[p := s])
  {
    assert p in r;
  }

  lemma MembersDrop(rings: map<nat, seq<int>>, sz: Sizes, p: int, r: seq<int>)
    requires Members(rings, sz) && p in sz
    requires forall a :: a in r <==> a != p && a in rings[sz[p]]
    ensures r != [] ==> Members(rings[sz[p] := r], sz - {p})
    ensures r == [] ==> Members(rings - {sz[p]}, sz - {p})
  {
    if r == [] {
      assert forall a | a in sz && a != p :: sz[a] != sz[p];
    }
  }
}
