/** The slab caches of k/memory.c: free lists of equal nodes, and the caches chained to a cache when it grows. */
module Caches {
  import opened Words
  import Rings
  import opened MemMap

  /** struct cache without its lists. */
  datatype Desc = Desc(base: int, size: nat, bsize: nat)

  type Lists = map<int, seq<int>>

  /** A free list or a list of chained caches; none is kept for other addresses. */
  function ListOf(l: Lists, c: int): seq<int> { if c in l then l[c] else [] }

  /** All that is kept about the caches. */
  datatype Books = Books(free: Lists, chain: Lists, desc: map<int, Desc>)

  /** All the memory the routines keep for themselves: map nodes, caches and their free nodes. */
  datatype Objects = Objects(blocks: seq<int>, free: Lists, desc: map<int, Desc>)

  class Kernel {
    /** memory_map: the nodes of the block list, in list order, and what they say. */
    var blocks: seq<int>
    var node: map<int, Block>
    /** The caches in existence: their free lists, the caches chained to them, their other fields. */
    var free: Lists
    var chain: Lists
    var desc: map<int, Desc>
    /** memory_map_cache and metadata_cache */
    var mapCache: int
    var metaCache: int

    function View(): seq<Block>
      reads this
    {
      ViewOf(blocks, node)
    }

    ghost function Caches(): Books
      reads this
    {
      Books(free, chain, desc)
    }

    ghost function Own(): Objects
      reads this
    {
      Objects(blocks, free, desc)
    }
  }

  function BlockAt(node: map<int, Block>, x: int): Block { if x in node then node[x] else Block(0, 0, 1) }

  function ViewOf(blocks: seq<int>, node: map<int, Block>): (v: seq<Block>)
    ensures |v| == |blocks| && forall i | 0 <= i < |v| :: v[i] == BlockAt(node, blocks[i])
  {
    seq(|blocks|, i requires 0 <= i < |blocks| => BlockAt(node, blocks[i]))
  }

  // ----- counting free nodes

  /** freelist_size: one more than the length, unless the list is empty. */
  method FreelistSize(k: Kernel, c: int) returns (len: nat)
    ensures len == Counted(ListOf(k.free, c))
  {
    var l := ListOf(k.free, c);
    if l == [] {
      return 0;
    }
    len := 1;
    var i := 0;
    while i < |l|
      invariant 0 <= i <= |l| && len == 1 + i
    {
      len := len + 1;
      i := i + 1;
    }
  }

  function Counted(l: seq<int>): nat { if l == [] then 0 else |l| + 1 }

  function SumCounted(free: Lists, cs: seq<int>): nat {
    if cs == [] then 0 else Counted(ListOf(free, cs[0])) + SumCounted(free, cs[1..])
  }

  /** The free nodes of the caches cs. */
  function SumFree(free: Lists, cs: seq<int>): nat {
    if cs == [] then 0 else |ListOf(free, cs[0])| + SumFree(free, cs[1..])
  }

  /** c and the caches chained to it. */
  function Family(chain: Lists, c: int): seq<int> { [c] + ListOf(chain, c) }

  /** The number of free nodes cache_alloc(c) can hand out. */
  function Available(free: Lists, chain: Lists, c: int): nat { SumFree(free, Family(chain, c)) }

  lemma {:induction false} CountedStep(free: Lists, cs: seq<int>, n: nat)
    requires n < |cs|
    ensures SumCounted(free, cs[..n + 1]) == SumCounted(free, cs[..n]) + Counted(ListOf(free, cs[n]))
  {
    if n > 0 {
      assert cs[..n + 1][1..] == cs[1..][..n] && cs[..n][1..] == cs[1..][..n - 1];
      CountedStep(free, cs[1..], n - 1);
    } else {
      assert cs[..1][1..] == [] && cs[..0] == [];
    }
  }

  /** cache_remaining */
  method CacheRemaining(k: Kernel, c: int) returns (len: nat)
    ensures len == SumCounted(k.free, Family(k.chain, c))
  {
    len := FreelistSize(k, c);
    var l := ListOf(k.chain, c);
    var i := 0;
    assert l[..0] == [];
    while i < |l|
      invariant 0 <= i <= |l|
      invariant len == Counted(ListOf(k.free, c)) + SumCounted(k.free, l[..i])
    {
      CountedStep(k.free, l, i);
      var n := FreelistSize(k, l[i]);
      len := len + n;
      i := i + 1;
    }
    assert l[..i] == l && Family(k.chain, c)[1..] == l;
  }

  /** The miscount does no harm at the watermark: two or less means at most one free node. */
  lemma {:induction false} Watermark(free: Lists, cs: seq<int>)
    ensures SumCounted(free, cs) >= SumFree(free, cs)
    ensures SumFree(free, cs) > 0 ==> SumCounted(free, cs) > SumFree(free, cs)
    ensures SumCounted(free, cs) <= 2 <==> SumFree(free, cs) <= 1
    ensures SumFree(free, cs) == 0 <==> SumCounted(free, cs) == 0
  {
    if cs != [] { Watermark(free, cs[1..]); }
  }

  // ----- cache_initialize

  /** The node addresses of a slab. */
  function Slab(p: int, n: nat, bsize: nat): (s: seq<int>)
    ensures |s| == n && forall i | 0 <= i < n :: s[i] == p + i * bsize
  {
    seq(n, i requires 0 <= i < n => p + i * bsize)
  }

  method CacheInitialize(k: Kernel, c: int, p: int, sz: nat, bsize: nat)
    requires bsize > 0
    modifies k`free, k`chain, k`desc
    ensures k.free == old(k.free)[c := Slab(p, sz / bsize, bsize)]
    ensures k.chain == old(k.chain)[c := []]
    ensures k.desc == old(k.desc)[c := Desc(p, sz, bsize)]
  {
    var list: seq<int> := [];
    k.chain := k.chain[c := []];
    k.desc := k.desc[c := Desc(p, sz, bsize)];
    var i := 0;
    while i < sz / bsize
      invariant 0 <= i <= sz / bsize && list == Slab(p, i, bsize)
    {
      list := list + [p + i * bsize];
      i := i + 1;
    }
    k.free := k.free[c := list];
  }
}
