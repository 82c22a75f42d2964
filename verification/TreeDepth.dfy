/** How deep a trie can be: chunk sizes are multiples of 8, so a path runs out of bits to split on. */
module TreeDepth {
  import opened Words
  import opened TreeIndex
  import opened Keys
  import opened Rings
  import opened Tries
  import opened Bins

  /** The number of size bits above the low three that a bin does not fix. */
  function DepthLimit(i: nat): nat { if i == NTREEBINS - 1 then 29 else i / 2 + 4 }

  lemma {:induction false} BitsPrefix(k: nat, n: nat, d: nat)
    requires k < TWO32 && d <= n
    ensures Bits(k, n)[..d] == Bits(k, d)
    decreases d
  {
    if d > 0 {
      BitsPrefix(Shl1(k), n - 1, d - 1);
      assert Bits(k, n)[..d] == [Top(k)] + Bits(Shl1(k), n - 1)[..d - 1];
    }
  }

  /** 2^(32 - limit) spans less than one step between multiples of 8. */
  lemma LimitScale(i: nat)
    requires i < NTREEBINS
    ensures DepthLimit(i) <= 32 && Pow2(32 - DepthLimit(i)) == 8 * Pow2(LeftShift(i))
  {
    assert Pow2(3) == 8;
    if i < NTREEBINS - 1 {
      assert 32 - DepthLimit(i) == 3 + LeftShift(i);
      Pow2Add(3, LeftShift(i));
    } else {
      assert Pow2(0) == 1;
    }
  }

  lemma Grows(x: nat, y: nat, p: nat)
    requires x >= y
    ensures x * p >= y * p
  {}

  lemma CloseSizes(s: nat, u: nat, p: nat)
    requires s <= u && (u - s) * p < 8 * p && s % 8 == 0 && u % 8 == 0
    ensures s == u
  {
    if u - s >= 8 { Grows(u - s, 8, p); }
    Mod8(u, s);
  }

  lemma KeyGap(s: nat, u: nat, b: nat, p: nat)
    requires b <= s <= u
    ensures (u - b) * p - (s - b) * p == (u - s) * p
  {}

  lemma KeysClose(s: nat, u: nat, d: nat)
    requires BinOf(s) == BinOf(u) < NTREEBINS && d <= 32 && PathOf(s)[..d] == PathOf(u)[..d]
    ensures Key(u) - Key(s) < Pow2(32 - d)
  {
    hide BinOf, Key, Pow2;
    BitsPrefix(Key(s), 32, d);
    BitsPrefix(Key(u), 32, d);
    BitsClose(Key(s), Key(u), d);
  }

  /** Sizes of one bin that agree on as many bits as the limit are equal. */
  lemma LimitDecides(s: nat, u: nat)
    requires 256 <= s <= u < TWO32 && s % 8 == 0 && u % 8 == 0 && BinOf(s) == BinOf(u) < NTREEBINS
    requires DepthLimit(BinOf(s)) <= 32 && PathOf(s)[..DepthLimit(BinOf(s))] == PathOf(u)[..DepthLimit(BinOf(s))]
    ensures s == u
  {
    hide BinOf, Key, LeftShift, Pow2, PathOf, DepthLimit, BinBase;
    var i := BinOf(s);
    KeysClose(s, u, DepthLimit(i));
    LimitScale(i);
    KeyScale(s);
    KeyScale(u);
    KeyGap(s, u, BinBase(i), Pow2(LeftShift(i)));
    CloseSizes(s, u, Pow2(LeftShift(i)));
  }

  lemma DistinctSizes(rings: map<nat, seq<int>>, sz: Sizes, pos: Places, a: int, b: int)
    requires NodesOk(rings, sz, pos) && a in pos && b in pos && sz[a] == sz[b]
    ensures a == b
  {}

  /** No descent is longer than the limit: I/2 + 4 edges in bin I, 29 in the last bin. */
  lemma DepthBound(m: BinMem, v: BinView, q: Pos)
    requires BinsInv(m, v) && q in v.trie && (forall a | a in v.sz :: v.sz[a] % 8 == 0)
    ensures |q.path| <= DepthLimit(q.bin)
  {
    hide PathOf, DepthLimit, RingsOk, Members, KidsOk, ParentsOk, RootsOk, TreeMapOk, SmallMapOk, ChainedOk, IndexOk;
    LimitScale(q.bin);
    var d := DepthLimit(q.bin);
    if |q.path| > d {
      var r := Pos(q.bin, q.path[..d]);
      assert r in v.trie;
      var a, b := v.trie[q], v.trie[r];
      var s, u := v.sz[a], v.sz[b];
      assert PathOf(s)[..|q.path|] == q.path && PathOf(u)[..d] == q.path[..d];
      assert PathOf(s)[..d] == q.path[..d];
      if s <= u { LimitDecides(s, u); } else { LimitDecides(u, s); }
      DistinctSizes(v.rings, v.sz, v.pos, a, b);
      assert false;
    }
  }
}
