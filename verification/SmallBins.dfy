/** insert_small_chunk, unlink_small_chunk and unlink_first_small_chunk. */
module SmallBins {
  import opened Words
  import opened BitMaps
  import opened Rings
  import opened Tries
  import opened Bins
  import opened Tiling
  import opened State
  import opened Keeping

  /** The ring of size s, empty if there is none. */
  function RingOf(rings: map<nat, seq<int>>, s: nat): seq<int> { if s in rings then rings[s] else [] }

  /** Pushing p onto the ring of its size. */
  function PushView(v: BinView, p: int, s: nat): BinView {
    v.(rings := v.rings[s := [p] + RingOf(v.rings, s)], sz := v.sz[p := s])
  }

  /** Taking p, the j-th of its small ring, out. */
  function TakeView(v: BinView, p: int, j: nat): BinView
    requires p in v.sz && j < |RingOf(v.rings, v.sz[p])|
  {
    var s := v.sz[p];
    var r := Drop(RingOf(v.rings, s), j);
    v.(rings := if r == [] then v.rings - {s} else v.rings[s := r], sz := v.sz - {p})
  }

  /** The chunk freed last is the first to be handed out, and that undoes the freeing. */
  lemma LastFirst(v: BinView, p: int, s: nat)
    requires p !in v.sz && (s in v.rings ==> v.rings[s] != [])
    ensures var v' := PushView(v, p, s);
            RingOf(v'.rings, s) != [] && RingOf(v'.rings, s)[0] == p && TakeView(v', p, 0) == v
  {
    var v' := PushView(v, p, s);
    assert Drop(v'.rings[s], 0) == RingOf(v.rings, s);
    assert v'.sz - {p} == v.sz;
    if s in v.rings {
      assert v'.rings[s := v.rings[s]] == v.rings;
    } else {
      assert v'.rings - {s} == v.rings;
    }
  }

  /** The tree side does not depend on small chunks. */
  lemma SmallAddTrees(m: BinMem, v: BinView, p: int, s: nat, r: seq<int>)
    requires NodesOk(v.rings, v.sz, v.pos) && ChainedOk(v.sz, v.pos, m.child, m.parent) && IndexOk(v.sz, m.index)
    requires Sized(v.trie, v.sz) && Inverse(v.trie, v.pos)
    requires p !in v.sz && IsSmall(s)
    ensures var sz', rings' := v.sz[p := s], v.rings[s := r];
            && NodesOk(rings', sz', v.pos) && ChainedOk(sz', v.pos, m.child, m.parent) && IndexOk(sz', m.index)
            && Sized(v.trie, sz')
  {
    hide Fits;
  }

  lemma SmallDropTrees(m: BinMem, v: BinView, p: int, rings': map<nat, seq<int>>)
    requires NodesOk(v.rings, v.sz, v.pos) && ChainedOk(v.sz, v.pos, m.child, m.parent) && IndexOk(v.sz, m.index)
    requires Sized(v.trie, v.sz) && Inverse(v.trie, v.pos)
    requires p in v.sz && IsSmall(v.sz[p])
    requires forall s | !IsSmall(s) :: s in rings' <==> s in v.rings
    requires forall s | !IsSmall(s) && s in rings' :: rings'[s] == v.rings[s]
    ensures var sz' := v.sz - {p};
            && NodesOk(rings', sz', v.pos) && ChainedOk(sz', v.pos, m.child, m.parent) && IndexOk(sz', m.index)
            && Sized(v.trie, sz')
  {
    hide Fits;
  }

  lemma PushSmallRing(m: BinMem, v: BinView, p: int, s: nat, f: int)
    requires RingsOk(v.rings, m.fd, m.bk) && Members(v.rings, v.sz) && SmallMapOk(v.rings, m.smallmap)
    requires p !in v.sz && p > 0 && GoodSize(s) && IsSmall(s)
    requires f == if m.smallmap[s / 8] then At(m.fd, SmallHeader(s / 8)) else SmallHeader(s / 8)
    ensures var b := SmallHeader(s / 8);
            && RingsOk(v.rings[s := [p] + RingOf(v.rings, s)], m.fd[b := p][p := f], m.bk[f := p][p := b])
            && (f == b || f in v.sz)
  {
    assert 8 * (s / 8) == s;
    PushedRing(m, v, p, s, f);
    var b := SmallHeader(s / 8);
    SetRing(v.rings, v.sz, m.fd, m.bk, m.fd[b := p][p := f], m.bk[f := p][p := b], s, [p] + RingOf(v.rings, s));
    hide Ring, RingsOk, Members, SmallMapOk;
  }

  lemma PushedRing(m: BinMem, v: BinView, p: int, s: nat, f: int)
    requires RingsOk(v.rings, m.fd, m.bk) && Members(v.rings, v.sz) && SmallMapOk(v.rings, m.smallmap)
    requires p !in v.sz && p > 0 && GoodSize(s) && IsSmall(s) && 8 * (s / 8) == s
    requires f == if m.smallmap[s / 8] then At(m.fd, SmallHeader(s / 8)) else SmallHeader(s / 8)
    ensures var b := SmallHeader(s / 8);
            var fd', bk' := m.fd[b := p][p := f], m.bk[f := p][p := b];
            && Ring(fd', bk', [b] + ([p] + RingOf(v.rings, s))) && OnlyRing(m.fd, m.bk, fd', bk', v.sz, s)
            && (f == b || f in v.sz)
  {
    var b := SmallHeader(s / 8);
    if s in v.rings {
      PushOnto(m, v, p, s, f);
    } else {
      var fd', bk' := m.fd[b := p][p := f], m.bk[f := p][p := b];
      assert [b] + ([p] + RingOf(v.rings, s)) == [b, p];
      assert Linked(fd', bk', [b, p], 0) && Linked(fd', bk', [b, p], 1);
    }
  }

  lemma PushOnto(m: BinMem, v: BinView, p: int, s: nat, f: int)
    requires RingsOk(v.rings, m.fd, m.bk) && Members(v.rings, v.sz) && s in v.rings && IsSmall(s)
    requires p !in v.sz && p > 0 && f == At(m.fd, SmallHeader(s / 8))
    ensures var b := SmallHeader(s / 8);
            && Ring(m.fd[b := p][p := f], m.bk[f := p][p := b], [b] + ([p] + v.rings[s])) && (f == b || f in v.sz)
            && OnlyRing(m.fd, m.bk, m.fd[b := p][p := f], m.bk[f := p][p := b], v.sz, s)
  {
    var b, r := SmallHeader(s / 8), v.rings[s];
    var full := [b] + r;
    assert Ring(m.fd, m.bk, full);
    RingNeighbours(m.fd, m.bk, full, 0);
    assert p !in full;
    RingInsert(m.fd, m.bk, full, p);
    assert Insert2(full, p) == [b] + ([p] + r);
    assert f in full;
  }

  lemma MembersPush(rings: map<nat, seq<int>>, sz: Sizes, p: int, s: nat)
    requires Members(rings, sz) && p !in sz && p > 0 && GoodSize(s)
    ensures Members(rings[s := [p] + RingOf(rings, s)], sz[p := s])
  {
    MembersAdd(rings, sz, p, s, [p] + RingOf(rings, s));
  }

  function Mark(w: Word, i: nat): Word
    requires i < WORD
  {
    if w[i] then w else Or(w, Bit(i))
  }

  lemma MarkSmall(rings: map<nat, seq<int>>, smallmap: Word, s: nat, r: seq<int>)
    requires SmallMapOk(rings, smallmap) && s % 8 == 0 && IsSmall(s)
    ensures SmallMapOk(rings[s := r], Mark(smallmap, s / 8))
  {}

  /** What insert_small_chunk leaves behind is again well formed. */
  lemma PushSmall(m: BinMem, m': BinMem, v: BinView, p: int, s: nat, f: int)
    requires BinsInv(m, v)
    requires p !in v.sz && p > 0 && GoodSize(s) && IsSmall(s)
    requires f == if m.smallmap[s / 8] then At(m.fd, SmallHeader(s / 8)) else SmallHeader(s / 8)
    requires var b := SmallHeader(s / 8);
             m' == m.(smallmap := Mark(m.smallmap, s / 8),
                      fd := m.fd[b := p][p := f], bk := m.bk[f := p][p := b])
    ensures BinsInv(m', PushView(v, p, s))
    ensures f == SmallHeader(s / 8) || f in v.sz
  {
    hide RingsOk, Members, SmallMapOk, TreeMapOk, NodesOk, ChainedOk, IndexOk;
    hide Inverse, Sized, Closed, KidsOk, ParentsOk, RootsOk;
    var r := [p] + RingOf(v.rings, s);
    PushSmallRing(m, v, p, s, f);
    MembersPush(v.rings, v.sz, p, s);
    MarkSmall(v.rings, m.smallmap, s, r);
    SmallAddTrees(m, v, p, s, r);
  }

  /** Where a binned chunk stands in its ring. */
  ghost function IndexIn(r: seq<int>, p: int): (j: nat)
    requires p in r
    ensures j < |r| && r[j] == p
  {
    var j :| 0 <= j < |r| && r[j] == p; j
  }

  lemma SmallNeighbours(m: BinMem, v: BinView, p: int, j: nat)
    requires RingsOk(v.rings, m.fd, m.bk) && Members(v.rings, v.sz)
    requires p in v.sz && IsSmall(v.sz[p]) && j < |RingOf(v.rings, v.sz[p])| && RingOf(v.rings, v.sz[p])[j] == p
    ensures var f, b, h, r := At(m.fd, p), At(m.bk, p), SmallHeader(v.sz[p] / 8), RingOf(v.rings, v.sz[p]);
            && At(m.bk, f) == p && At(m.fd, b) == p
            && (f == h || (f in v.sz && v.sz[f] == v.sz[p])) && (b == h || (b in v.sz && v.sz[b] == v.sz[p]))
            && (f == b <==> |r| == 1) && (|r| == 1 ==> f == h)
            && (|r| > 1 ==> Ring(m.fd[b := f], m.bk[f := b], [h] + Drop(r, j)))
            && f != p && b != p
  {
    var s := v.sz[p];
    var r, h := RingOf(v.rings, s), SmallHeader(s / 8);
    var full := [h] + r;
    assert Ring(m.fd, m.bk, full);
    assert full[j + 1] == p;
    RingNeighbours(m.fd, m.bk, full, j + 1);
    var f, b := At(m.fd, p), At(m.bk, p);
    assert f in full && b in full;
    if |r| > 1 { DropSmall(m, h, r, j); }
    hide Ring;
  }

  lemma DropSmall(m: BinMem, h: int, r: seq<int>, j: nat)
    requires j < |r| && |r| > 1 && Ring(m.fd, m.bk, [h] + r)
    ensures var f, b := At(m.fd, r[j]), At(m.bk, r[j]); Ring(m.fd[b := f], m.bk[f := b], [h] + Drop(r, j))
  {
    var full := [h] + r;
    assert full[j + 1] == r[j];
    RingRemove(m.fd, m.bk, full, j + 1);
    assert Drop(full, j + 1) == [h] + Drop(r, j);
  }

  /** One chunk of a small ring is unlinked: the ring is relinked, or its bit cleared when it was the last. */
  lemma TakeSmallRing(m: BinMem, m': BinMem, v: BinView, p: int, j: nat)
    requires RingsOk(v.rings, m.fd, m.bk) && Members(v.rings, v.sz) && SmallMapOk(v.rings, m.smallmap)
    requires p in v.sz && IsSmall(v.sz[p]) && j < |RingOf(v.rings, v.sz[p])| && RingOf(v.rings, v.sz[p])[j] == p
    requires var f, b := At(m.fd, p), At(m.bk, p);
             m' == if b == f then m.(smallmap := And(m.smallmap, Not(Bit(v.sz[p] / 8))))
                   else m.(fd := m.fd[b := f], bk := m.bk[f := b])
    ensures var v' := TakeView(v, p, j);
            RingsOk(v'.rings, m'.fd, m'.bk) && Members(v'.rings, v'.sz) && SmallMapOk(v'.rings, m'.smallmap)
  {
    hide Ring;
    var s := v.sz[p];
    var r := RingOf(v.rings, s);
    SmallNeighbours(m, v, p, j);
    assert s in v.rings && GoodSize(s);
    DropMembers(m, v, s, j);
    MembersDrop(v.rings, v.sz, p, Drop(r, j));
    if |r| == 1 {
      assert Drop(r, j) == [];
      ClearRing(v.rings, v.sz, m.fd, m.bk, m.fd, m.bk, s);
    } else {
      SetRing(v.rings, v.sz, m.fd, m.bk, m'.fd, m'.bk, s, Drop(r, j));
    }
  }

  lemma DropMembers(m: BinMem, v: BinView, s: nat, j: nat)
    requires RingsOk(v.rings, m.fd, m.bk) && s in v.rings && j < |v.rings[s]|
    ensures forall a :: a in Drop(v.rings[s], j) <==> a in v.rings[s] && a != v.rings[s][j]
  {
    var r := v.rings[s];
    var full := Full(s, r);
    assert Distinct(full);
    var o := |full| - |r|;
    assert forall i | 0 <= i < |r| :: r[i] == full[o + i];
    DropDistinct(r, j);
  }

  lemma TakeSmall(m: BinMem, m': BinMem, v: BinView, p: int, j: nat)
    requires BinsInv(m, v)
    requires p in v.sz && IsSmall(v.sz[p]) && j < |RingOf(v.rings, v.sz[p])| && RingOf(v.rings, v.sz[p])[j] == p
    requires var f, b := At(m.fd, p), At(m.bk, p);
             m' == if b == f then m.(smallmap := And(m.smallmap, Not(Bit(v.sz[p] / 8))))
                   else m.(fd := m.fd[b := f], bk := m.bk[f := b])
    ensures BinsInv(m', TakeView(v, p, j))
  {
    hide RingsOk, Members, SmallMapOk, TreeMapOk, NodesOk, ChainedOk, IndexOk;
    hide Inverse, Sized, Closed, KidsOk, ParentsOk, RootsOk;
    TakeSmallRing(m, m', v, p, j);
    SmallDropTrees(m, v, p, TakeView(v, p, j).rings);
  }

  /** While a bin's bit is set its header leads to its first chunk. */
  lemma SmallFirst(m: BinMem, v: BinView, i: nat)
    requires BinsInv(m, v) && i < WORD && m.smallmap[i]
    ensures var f := At(m.fd, SmallHeader(i));
            && f in v.sz && v.sz[f] == 8 * i && 8 * i in v.rings && v.rings[8 * i] != [] && v.rings[8 * i][0] == f
            && GoodSize(8 * i)
  {
    hide TreeMapOk, NodesOk, ChainedOk, IndexOk, TrieOk;
    SmallFirstRing(m, v, i);
  }

  lemma SmallFirstRing(m: BinMem, v: BinView, i: nat)
    requires RingsOk(v.rings, m.fd, m.bk) && Members(v.rings, v.sz) && SmallMapOk(v.rings, m.smallmap)
    requires i < WORD && m.smallmap[i]
    ensures var f := At(m.fd, SmallHeader(i));
            && f in v.sz && v.sz[f] == 8 * i && 8 * i in v.rings && v.rings[8 * i] != [] && v.rings[8 * i][0] == f
            && GoodSize(8 * i)
  {
    var full := [SmallHeader(i)] + v.rings[8 * i];
    assert Ring(m.fd, m.bk, full);
    assert Linked(m.fd, m.bk, full, 0);
    var f := full[1];
    assert f in v.rings[8 * i];
  }

  /** A binned small chunk is linked where its ring says. */
  lemma SmallMember(m: BinMem, v: BinView, p: int) returns (j: nat)
    requires BinsInv(m, v) && p in v.sz && IsSmall(v.sz[p])
    ensures j < |RingOf(v.rings, v.sz[p])| && RingOf(v.rings, v.sz[p])[j] == p
    ensures var f, b, h := At(m.fd, p), At(m.bk, p), SmallHeader(v.sz[p] / 8);
            && At(m.bk, f) == p && At(m.fd, b) == p && (f == h || f in v.sz) && (b == h || b in v.sz)
            && GoodSize(v.sz[p])
  {
    hide TreeMapOk, NodesOk, ChainedOk, IndexOk, TrieOk;
    j := IndexIn(RingOf(v.rings, v.sz[p]), p);
    SmallNeighbours(m, v, p, j);
  }

  lemma SmallHeaderBack(m: BinMem, v: BinView, p: int)
    requires BinsInv(m, v) && p in v.sz && IsSmall(v.sz[p])
    requires v.sz[p] in v.rings && v.rings[v.sz[p]] != [] && v.rings[v.sz[p]][0] == p
    ensures At(m.bk, p) == SmallHeader(v.sz[p] / 8)
  {
    hide TreeMapOk, NodesOk, ChainedOk, IndexOk, TrieOk;
    var full := Full(v.sz[p], v.rings[v.sz[p]]);
    assert full[1] == p;
    assert Linked(m.fd, m.bk, full, 0);
  }

  // ----- the operations

  lemma PushLinks(m: BinMem, m': BinMem, sz: Sizes, p: int, s: nat, f: int, b: int)
    requires b < 0 && (f == b || f in sz)
    requires m' == m.(smallmap := m'.smallmap, fd := m.fd[b := p][p := f], bk := m.bk[f := p][p := b])
    ensures LinksIn(m, m', sz[p := s])
  {}

  lemma TakeLinks(m: BinMem, m': BinMem, sz: Sizes, f: int, b: int)
    requires (f < 0 || f in sz) && (b < 0 || b in sz)
    requires m' == m.(smallmap := m'.smallmap) || m' == m.(fd := m.fd[b := f], bk := m.bk[f := b])
    ensures LinksIn(m, m', sz)
  {}

  /** insert_small_chunk.  CORRUPTION_ERROR_ACTION is where `assert false` stands. */
  method InsertSmallChunk(m: MState, p: int, s: nat)
    requires m.BinsOk() && p !in m.v.sz && p > 0 && p >= m.least && GoodSize(s) && IsSmall(s)
    requires HeadAt(m.head, p).size == s
    modifies m`smallmap, m`fd, m`bk, m`v
    ensures m.BinsOk() && m.v == PushView(old(m.v), p, s) && LinksIn(old(m.Mem()), m.Mem(), m.v.sz)
  {
    hide BinsInv, Or, LinksIn;
    var i := s / 8;
    if m.smallmap[i] { SmallFirst(m.Mem(), m.v, i); }
    var b := SmallHeader(i);
    var f := b;
    if !m.smallmap[i] {
      m.smallmap := Or(m.smallmap, Bit(i));
    } else if At(m.fd, b) >= m.least {
      f := At(m.fd, b);
    } else {
      assert false;
    }
    m.fd := m.fd[b := p];
    m.bk := m.bk[f := p];
    m.fd := m.fd[p := f];
    m.bk := m.bk[p := b];
    PushSmall(old(m.Mem()), m.Mem(), old(m.v), p, s, f);
    PushLinks(old(m.Mem()), m.Mem(), m.v.sz, p, s, f, b);
    m.v := PushView(m.v, p, s);
  }

  /** unlink_small_chunk */
  method UnlinkSmallChunk(m: MState, p: int, s: nat)
    requires m.BinsOk() && p in m.v.sz && m.v.sz[p] == s && IsSmall(s)
    modifies m`smallmap, m`fd, m`bk, m`v
    ensures m.BinsOk() && m.v.sz == old(m.v.sz) - {p} && LinksIn(old(m.Mem()), m.Mem(), old(m.v.sz))
    ensures exists j: nat ::
              j < |RingOf(old(m.v.rings), s)| && RingOf(old(m.v.rings), s)[j] == p && m.v == TakeView(old(m.v), p, j)
  {
    hide BinsInv, LinksIn;
    var f, b, i := At(m.fd, p), At(m.bk, p), s / 8;
    ghost var j := SmallMember(m.Mem(), m.v, p);
    if f == SmallHeader(i) || (f >= m.least && At(m.bk, f) == p) {
      if b == f {
        m.smallmap := And(m.smallmap, Not(Bit(i)));
      } else if b == SmallHeader(i) || (b >= m.least && At(m.fd, b) == p) {
        m.bk := m.bk[f := b];
        m.fd := m.fd[b := f];
      } else {
        assert false;
      }
    } else {
      assert false;
    }
    TakeSmall(old(m.Mem()), m.Mem(), old(m.v), p, j);
    TakeLinks(old(m.Mem()), m.Mem(), m.v.sz, f, b);
    m.v := TakeView(m.v, p, j);
  }

  /** unlink_first_small_chunk: the first chunk of bin i, which the header leads to. */
  method UnlinkFirstSmallChunk(m: MState, b: int, p: int, i: nat)
    requires m.BinsOk() && i < WORD && m.smallmap[i] && b == SmallHeader(i) && p == At(m.fd, b)
    modifies m`smallmap, m`fd, m`bk, m`v
    ensures m.BinsOk() && LinksIn(old(m.Mem()), m.Mem(), old(m.v.sz))
    ensures p in old(m.v.sz) && old(m.v.sz[p]) == 8 * i && RingOf(old(m.v.rings), 8 * i) != []
    ensures RingOf(old(m.v.rings), 8 * i)[0] == p && m.v == TakeView(old(m.v), p, 0)
  {
    hide BinsInv, LinksIn;
    SmallFirst(m.Mem(), m.v, i);
    ghost var j := SmallMember(m.Mem(), m.v, p);
    SmallHeaderBack(m.Mem(), m.v, p);
    var f := At(m.fd, p);
    if b == f {
      m.smallmap := And(m.smallmap, Not(Bit(i)));
    } else if f >= m.least && At(m.bk, f) == p {
      m.bk := m.bk[f := b];
      m.fd := m.fd[b := f];
    } else {
      assert false;
    }
    TakeSmall(old(m.Mem()), m.Mem(), old(m.v), p, 0);
    TakeLinks(old(m.Mem()), m.Mem(), m.v.sz, f, b);
    m.v := TakeView(m.v, p, 0);
  }
}
