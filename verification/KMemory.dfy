/** k/memory.c: reserving and releasing physical memory, with descriptors that come from the memory reserved. */
module KMemory {
  import opened Words
  import opened Rings
  import opened MemMap
  import opened Caches

  /** sizeof(struct memory_map), sizeof(struct cache), and what an extension asks for. */
  const MAP_NODE := 20
  const CACHE_NODE := 28
  const EXTEND_NODES := 10
  const EXTEND_SIZE := 280

  // ----- the invariant

  /** The slab of cache c; an unknown cache has an empty one. */
  function SlabOf(desc: map<int, Desc>, c: int): Desc { if c in desc then desc[c] else Desc(0, 0, 0) }

  /** x is one of the nodes of slab d. */
  predicate NodeOf(d: Desc, x: int) {
    d.bsize > 0 && d.base <= x && x + d.bsize <= d.base + d.size && (x - d.base) % d.bsize == 0
  }

  /** The n bytes from x and [p, p + size) have none in common. */
  predicate Outside(x: int, n: nat, p: int, size: nat) { x + n <= p || p + size <= x || size == 0 || n == 0 }

  /** Every free node is a node of its own slab, and no two slabs have a byte in common. */
  ghost predicate Homed(free: Lists, desc: map<int, Desc>) {
    && (forall c, x | c in free && x in free[c] :: NodeOf(SlabOf(desc, c), x))
    && (forall c, d | c in free && d in free && c != d ::
          Outside(SlabOf(desc, c).base, SlabOf(desc, c).size, SlabOf(desc, d).base, SlabOf(desc, d).size))
  }

  /** No node is on two lists, a cache in use is on none, and free nodes are on the list of their slab. */
  ghost predicate NodesApart(o: Objects) {
    && Distinct(o.blocks) && (forall c | c in o.free :: Distinct(o.free[c]) && c !in o.blocks)
    && (forall c, x | c in o.free && x in o.free[c] :: x !in o.blocks && x !in o.free)
    && (forall c, d, x | c in o.free && d in o.free && c != d && x in o.free[c] :: x !in o.free[d])
    && Homed(o.free, o.desc)
  }

  /** The n bytes from x are not memory still to be given out. */
  predicate Solid(v: seq<Block>, x: int, n: nat) { forall a | x <= a < x + n :: !FreeAt(v, a) }

  /** The size of the nodes in the slab of cache c. */
  function Width(desc: map<int, Desc>, c: int): nat { SlabOf(desc, c).bsize }

  /** Map nodes, caches in use, their slabs and free nodes lie, whole, outside the memory that is still to be given
      out. */
  ghost predicate NodesSolid(v: seq<Block>, o: Objects) {
    && (forall x | x in o.blocks :: Solid(v, x, MAP_NODE))
    && (forall c | c in o.free :: Solid(v, c, CACHE_NODE))
    && (forall c, x | c in o.free && x in o.free[c] :: Solid(v, x, Width(o.desc, c)))
    && (forall c | c in o.free :: Solid(v, SlabOf(o.desc, c).base, SlabOf(o.desc, c).size))
  }

  /** Nodes have a size, and those of the reserver's own caches can be what they are taken for. */
  ghost predicate WidthsOk(a: Books, mapCache: int, metaCache: int) {
    && (forall c | c in a.free :: Width(a.desc, c) > 0)
    && (forall c | c in Family(a.chain, mapCache) :: Width(a.desc, c) >= MAP_NODE)
    && (forall c | c in Family(a.chain, metaCache) :: Width(a.desc, c) >= CACHE_NODE)
  }

  /** The two caches the reserver itself uses are different families of caches in use. */
  ghost predicate ChainsOk(free: Lists, chain: Lists, mapCache: int, metaCache: int) {
    && Distinct(Family(chain, mapCache)) && Distinct(Family(chain, metaCache))
    && (forall c | c in Family(chain, mapCache) :: c in free && c !in Family(chain, metaCache))
    && (forall c | c in Family(chain, metaCache) :: c in free)
  }

  ghost predicate Sound(k: Kernel)
    reads k
  {
    && Ordered(k.View()) && NodesApart(k.Own()) && NodesSolid(k.View(), k.Own())
    && ChainsOk(k.free, k.chain, k.mapCache, k.metaCache) && WidthsOk(k.Caches(), k.mapCache, k.metaCache)
  }

  /** Free memory_map nodes, and free cache descriptors. */
  ghost function MapNodes(k: Kernel): nat
    reads k
  {
    Available(k.free, k.chain, k.mapCache)
  }

  ghost function Descriptors(k: Kernel): nat
    reads k
  {
    Available(k.free, k.chain, k.metaCache)
  }

  // ----- taking a node

  /** x is on no list and is no cache in use. */
  ghost predicate Detached(o: Objects, x: int) {
    x !in o.blocks && x !in o.free && forall c | c in o.free :: x !in o.free[c]
  }

  lemma TakeFirst(v: seq<Block>, o: Objects, f: int)
    requires NodesApart(o) && NodesSolid(v, o) && f in o.free && o.free[f] != []
    ensures var o', x := o.(free := o.free[f := o.free[f][1..]]), o.free[f][0];
            && NodesApart(o') && NodesSolid(v, o') && Detached(o', x) && Solid(v, x, Width(o.desc, f))
            && NodeOf(SlabOf(o.desc, f), x)
  {
    hide Solid, SlabOf, NodeOf, Outside, Width;
    var free', x := o.free[f := o.free[f][1..]], o.free[f][0];
    assert x in o.free[f];
    forall y | y in o.free[f][1..] ensures y in o.free[f] && y != x {
      var i :| 0 <= i < |o.free[f][1..]| && o.free[f][1..][i] == y;
      assert o.free[f][i + 1] == y;
    }
    assert Distinct(o.free[f][1..]);
  }

  lemma {:induction false} SumTake(free: Lists, cs: seq<int>, f: int, l: seq<int>)
    requires Distinct(cs)
    ensures f !in cs ==> SumFree(free[f := l], cs) == SumFree(free, cs)
    ensures f in cs ==> SumFree(free[f := l], cs) == SumFree(free, cs) - |ListOf(free, f)| + |l|
  {
    if cs != [] {
      assert forall i | 0 < i < |cs| :: cs[i] == cs[1..][i - 1] && cs[i] != cs[0];
      SumTake(free, cs[1..], f, l);
    }
  }

  lemma {:induction false} SomeFree(free: Lists, cs: seq<int>)
    ensures SumFree(free, cs) > 0 <==> exists i: nat :: i < |cs| && ListOf(free, cs[i]) != []
  {
    if cs != [] {
      SomeFree(free, cs[1..]);
      if i: nat :| i < |cs[1..]| && ListOf(free, cs[1..][i]) != [] { assert cs[i + 1] == cs[1..][i]; }
      if i: nat :| i < |cs| && ListOf(free, cs[i]) != [] { assert i > 0 ==> cs[i] == cs[1..][i - 1]; }
    }
  }

  /** f is the first of the caches cs with a free node. */
  ghost predicate FirstWith(free: Lists, cs: seq<int>, f: int) {
    exists i: nat ::
      i < |cs| && cs[i] == f && ListOf(free, f) != [] && forall j | 0 <= j < i :: ListOf(free, cs[j]) == []
  }

  lemma FirstAt(free: Lists, chain: Lists, cache: int, i: nat)
    requires i < |Family(chain, cache)| && ListOf(free, Family(chain, cache)[i]) != []
    requires forall j | 0 <= j < i :: ListOf(free, Family(chain, cache)[j]) == []
    ensures FirstWith(free, Family(chain, cache), Family(chain, cache)[i]) && Available(free, chain, cache) > 0
  {
    hide Family, SumFree;
    SomeFree(free, Family(chain, cache));
  }

  lemma FamilyAt(chain: Lists, cache: int)
    ensures var l, f := ListOf(chain, cache), Family(chain, cache);
            |f| == |l| + 1 && f[0] == cache && forall i | 0 <= i < |l| :: f[i + 1] == l[i] && l[i] in f
  {
    var l, f := ListOf(chain, cache), Family(chain, cache);
    forall i | 0 <= i < |l| ensures l[i] in f { assert f[i + 1] == l[i]; }
  }

  lemma NoneAvailable(free: Lists, chain: Lists, cache: int)
    requires forall i | 0 <= i < |Family(chain, cache)| :: ListOf(free, Family(chain, cache)[i]) == []
    ensures Available(free, chain, cache) == 0
  {
    hide Family, SumFree;
    SomeFree(free, Family(chain, cache));
  }

  /** The first half of __cache_alloc: the first free node of the cache or, if it has none, of those chained to it. */
  method TryTake(k: Kernel, cache: int) returns (found: bool, x: int, ghost f: int)
    requires forall c | c in Family(k.chain, cache) :: c in k.free
    modifies k`free
    ensures found <==> Available(old(k.free), k.chain, cache) > 0
    ensures !found ==> k.free == old(k.free)
    ensures found ==>
              f in Family(k.chain, cache) && f in old(k.free) && FirstWith(old(k.free), Family(k.chain, cache), f)
    ensures found ==> old(k.free[f]) != [] && x == old(k.free[f][0]) && k.free == old(k.free)[f := old(k.free[f])[1..]]
  {
    hide SumFree, Family, Available, FirstWith;
    ghost var fam := Family(k.chain, cache);
    FamilyAt(k.chain, cache);
    assert fam[0] in fam;
    f, x := cache, 0;
    if k.free[cache] != [] {
      FirstAt(k.free, k.chain, cache, 0);
      x := k.free[cache][0];
      k.free := k.free[cache := k.free[cache][1..]];
      return true, x, f;
    }
    var l := ListOf(k.chain, cache);
    var i := 0;
    while i < |l|
      invariant 0 <= i <= |l| && k.free == old(k.free) && forall j | 0 <= j <= i :: ListOf(k.free, fam[j]) == []
    {
      var c := l[i];
      assert fam[i + 1] == c && c in fam;
      if k.free[c] != [] {
        FirstAt(k.free, k.chain, cache, i + 1);
        f := c;
        x := k.free[c][0];
        k.free := k.free[c := k.free[c][1..]];
        return true, x, f;
      }
      i := i + 1;
    }
    NoneAvailable(k.free, k.chain, cache);
    found := false;
  }

  /** One node of a family fewer; the other family is as it was. */
  lemma TakeCounts(free: Lists, chain: Lists, cache: int, other: int, f: int)
    requires Distinct(Family(chain, cache)) && Distinct(Family(chain, other)) && f in Family(chain, cache)
    requires f !in Family(chain, other)
    requires f in free && free[f] != []
    ensures var free' := free[f := free[f][1..]];
            && Available(free', chain, cache) == Available(free, chain, cache) - 1
            && Available(free', chain, other) == Available(free, chain, other)
  {
    SumTake(free, Family(chain, cache), f, free[f][1..]);
    SumTake(free, Family(chain, other), f, free[f][1..]);
  }

  lemma TakeChains(free: Lists, chain: Lists, mapCache: int, metaCache: int, f: int, l: seq<int>)
    requires ChainsOk(free, chain, mapCache, metaCache) && f in free
    ensures ChainsOk(free[f := l], chain, mapCache, metaCache)
  {}

  // ----- memory_split

  lemma InsertNode(v: seq<Block>, o: Objects, i: nat, t: int)
    requires NodesApart(o) && NodesSolid(v, o) && Detached(o, t) && Solid(v, t, MAP_NODE) && i <= |o.blocks|
    ensures var o' := o.(blocks := o.blocks[..i] + [t] + o.blocks[i..]); NodesApart(o') && NodesSolid(v, o')
  {
    hide Solid, Homed;
    var b := o.blocks[..i] + [t] + o.blocks[i..];
    forall j | 0 <= j < |b| ensures b[j] == (if j < i then o.blocks[j] else if j == i then t else o.blocks[j - 1]) {}
    forall x ensures x in b <==> x in o.blocks || x == t {
      if x in o.blocks {
        var j :| 0 <= j < |o.blocks| && o.blocks[j] == x;
        assert b[if j < i then j else j + 1] == x;
      }
      assert b[i] == t;
    }
    DistinctInsert(o.blocks, i, t);
  }

  lemma DistinctInsert(blocks: seq<int>, i: nat, t: int)
    requires Distinct(blocks) && t !in blocks && i <= |blocks|
    ensures Distinct(blocks[..i] + [t] + blocks[i..])
  {
    var b := blocks[..i] + [t] + blocks[i..];
    forall j, l | 0 <= j < l < |b| ensures b[j] != b[l] {
      if j != i && l != i {
        var j', l' := if j < i then j else j - 1, if l < i then l else l - 1;
        assert b[j] == blocks[j'] && b[l] == blocks[l'];
      }
    }
  }

  lemma SplitView(blocks: seq<int>, node: map<int, Block>, i: nat, t: int, size: nat)
    requires i < |blocks| && Distinct(blocks) && t !in blocks
    requires size <= BlockAt(node, blocks[i]).size
    ensures var m := blocks[i];
            var b := BlockAt(node, m);
            ViewOf(blocks[..i] + [t] + blocks[i..],
                   node[t := Block(b.base, size, 2)][m := Block(b.base + size, b.size - size, b.kind)])
            == Carve(ViewOf(blocks, node), i, size)
  {
    var m := blocks[i];
    var b := BlockAt(node, m);
    var v, blocks' := ViewOf(blocks, node), blocks[..i] + [t] + blocks[i..];
    var v' := ViewOf(blocks', node[t := Block(b.base, size, 2)][m := Block(b.base + size, b.size - size, b.kind)]);
    CarveAt(v, i, size);
    hide Carve;
    forall j | 0 <= j < |v'| ensures v'[j] == Carve(v, i, size)[j] {
      if j > i + 1 { assert blocks'[j] == blocks[j - 1] && blocks[j - 1] != m; }
      if j < i { assert blocks'[j] == blocks[j] && blocks[j] != m; }
    }
  }

  lemma SolidTighter(v: seq<Block>, w: seq<Block>, o: Objects)
    requires NodesSolid(v, o) && Tighter(v, w)
    ensures NodesSolid(w, o)
  {
    hide FreeAt;
    forall x, n | Solid(v, x, n) ensures Solid(w, x, n) {}
    hide Solid;
  }

  /** memory_split: the front of a block becomes a reserved block, described by a node from the cache. Without one,
      the source recurses for ever. */
  method MemorySplit(k: Kernel, i: nat, size: nat) returns (ok: bool, p: nat)
    requires Sound(k) && i < |k.blocks| && size <= k.View()[i].size && k.View()[i].kind == 0
    modifies k`free, k`blocks, k`node
    ensures Sound(k) && NodesSolid(old(k.View()), k.Own()) && Descriptors(k) == old(Descriptors(k))
    ensures ok <==> old(MapNodes(k)) > 0
    ensures ok ==>
              && k.View() == Carve(old(k.View()), i, size) && p == old(k.View()[i].base)
              && MapNodes(k) == old(MapNodes(k)) - 1
    ensures !ok ==> p == 0 && k.View() == old(k.View()) && MapNodes(k) == old(MapNodes(k))
    ensures KeepsCaches(old(k.Caches()), k.Caches(), k.mapCache, k.mapCache, k.metaCache)
    ensures NodesFrom(old(k.View()), old(k.Own()), k.Own())
  {
    hide NodesApart, NodesSolid, ChainsOk, WidthsOk, Ordered, Carve, Available, KeepsCaches, FirstWith, NodesFrom;
    ghost var v, o := k.View(), k.Own();
    FamilyFree(k.free, k.chain, k.mapCache, k.metaCache);
    KeepsSelf(k.Caches(), k.mapCache, k.mapCache, k.metaCache);
    NodesSame(v, o);
    var t;
    ghost var f;
    ok, t, f := TryTake(k, k.mapCache);
    if !ok {
      return false, 0;
    }
    SplitTaken(v, k.blocks, old(k.Caches()), k.mapCache, k.metaCache, f, i);
    SplitView(k.blocks, k.node, i, t, size);
    CarveGrants(v, i, size);
    TakeKeeps(old(k.Caches()), k.Caches(), f, k.mapCache, k.mapCache, k.metaCache);
    p := Link(k, i, size, t);
    SolidTighter(v, k.View(), k.Own());
  }

  /** A map node goes from its free list to place i of the map. */
  lemma SplitTaken(v: seq<Block>, blocks: seq<int>, a: Books, mapCache: int, metaCache: int, f: int, i: nat)
    requires var o := Objects(blocks, a.free, a.desc); NodesApart(o) && NodesSolid(v, o)
    requires ChainsOk(a.free, a.chain, mapCache, metaCache) && WidthsOk(a, mapCache, metaCache)
    requires f in Family(a.chain, mapCache) && f in a.free && a.free[f] != [] && i <= |blocks|
    ensures var free', t := a.free[f := a.free[f][1..]], a.free[f][0];
            var o, o' := Objects(blocks, a.free, a.desc), Objects(blocks[..i] + [t] + blocks[i..], free', a.desc);
            && NodesApart(o') && NodesSolid(v, o')
            && ChainsOk(free', a.chain, mapCache, metaCache) && WidthsOk(a.(free := free'), mapCache, metaCache)
            && t !in blocks && Distinct(blocks) && NodesFrom(v, o, o')
            && Available(free', a.chain, mapCache) == Available(a.free, a.chain, mapCache) - 1
            && Available(free', a.chain, metaCache) == Available(a.free, a.chain, metaCache)
  {
    hide NodesApart, NodesSolid, ChainsOk, Available, Family, NodesFrom;
    var o := Objects(blocks, a.free, a.desc);
    FamilyFree(a.free, a.chain, mapCache, metaCache);
    TakeFirst(v, o, f);
    TakeCounts(a.free, a.chain, mapCache, metaCache, f);
    TakeChains(a.free, a.chain, mapCache, metaCache, f, a.free[f][1..]);
    SolidPart(v, a.free[f][0], Width(a.desc, f), MAP_NODE);
    InsertNode(v, o.(free := a.free[f := a.free[f][1..]]), i, a.free[f][0]);
    BlocksDistinct(o);
    MovedNode(v, o, f, i);
  }

  lemma SolidPart(v: seq<Block>, x: int, n: nat, m: nat)
    requires Solid(v, x, n) && m <= n
    ensures Solid(v, x, m)
  {}

  /** The first n bytes from x are part of a map node, a cache in use or a free node. */
  ghost predicate Node(o: Objects, x: int, n: nat) {
    || (x in o.blocks && n <= MAP_NODE)
    || (x in o.free && n <= CACHE_NODE)
    || (exists c :: c in o.free && x in o.free[c] && n <= Width(o.desc, c))
  }

  /** Nodes and slabs come from nowhere but memory that was free. */
  ghost predicate NodesFrom(v: seq<Block>, o: Objects, o': Objects) {
    && (forall x, n: nat | Node(o', x, n) :: Node(o, x, n) || forall a | x <= a < x + n :: FreeAt(v, a))
    && (forall c | c in o'.free ::
          || (c in o.free && SlabOf(o'.desc, c) == SlabOf(o.desc, c))
          || AllFree(v, SlabOf(o'.desc, c)))
  }

  /** Slab d is free memory. */
  ghost predicate AllFree(v: seq<Block>, d: Desc) { forall a | d.base <= a < d.base + d.size :: FreeAt(v, a) }

  lemma NodesSame(v: seq<Block>, o: Objects)
    ensures NodesFrom(v, o, o)
  {}

  lemma NodesTrans(v: seq<Block>, w: seq<Block>, o0: Objects, o1: Objects, o2: Objects)
    requires Tighter(v, w) && NodesFrom(v, o0, o1) && NodesFrom(w, o1, o2)
    ensures NodesFrom(v, o0, o2)
  {
    hide Node, FreeAt, SlabOf;
  }

  lemma MovedNode(v: seq<Block>, o: Objects, f: int, i: nat)
    requires f in o.free && o.free[f] != [] && i <= |o.blocks| && Width(o.desc, f) >= MAP_NODE
    ensures NodesFrom(v, o,
                      o.(blocks := o.blocks[..i] + [o.free[f][0]] + o.blocks[i..], free := o.free[f := o.free[f][1..]]))
  {
    hide FreeAt, AllFree, SlabOf;
    assert o.free[f][0] in o.free[f];
    forall y | y in o.free[f][1..] ensures y in o.free[f] {}
  }

  lemma BlocksDistinct(o: Objects)
    requires NodesApart(o)
    ensures Distinct(o.blocks)
  {}

  lemma FamilyFree(free: Lists, chain: Lists, mapCache: int, metaCache: int)
    requires ChainsOk(free, chain, mapCache, metaCache)
    ensures Distinct(Family(chain, mapCache)) && Distinct(Family(chain, metaCache))
    ensures forall c | c in Family(chain, mapCache) :: c in free && c !in Family(chain, metaCache)
    ensures forall c | c in Family(chain, metaCache) :: c in free && c !in Family(chain, mapCache)
  {}

  /** The stores of memory_split once the node is there. */
  method Link(k: Kernel, i: nat, size: nat, t: int) returns (p: nat)
    requires i < |k.blocks| && size <= BlockAt(k.node, k.blocks[i]).size && t !in k.blocks
    modifies k`blocks, k`node
    ensures k.blocks == old(k.blocks)[..i] + [t] + old(k.blocks)[i..]
    ensures p == BlockAt(old(k.node), old(k.blocks[i])).base
    ensures var m := old(k.blocks[i]);
            var b := BlockAt(old(k.node), m);
            k.node == old(k.node)[t := Block(b.base, size, 2)][m := Block(b.base + size, b.size - size, b.kind)]
  {
    var m := k.blocks[i];
    var b := BlockAt(k.node, m);
    k.node := k.node[t := Block(b.base, size, 2)];
    k.blocks := k.blocks[..i] + [t] + k.blocks[i..];
    k.node := k.node[m := Block(b.base + size, b.size - size, b.kind)];
    p := k.node[t].base;
  }

  // ----- cache_extend

  /** No node, no cache and no slab has a byte in [p, p + size). */
  ghost predicate Clear(o: Objects, p: int, size: nat) {
    && (forall x | x in o.blocks :: Outside(x, MAP_NODE, p, size))
    && (forall c | c in o.free :: Outside(c, CACHE_NODE, p, size))
    && (forall c, x | c in o.free && x in o.free[c] :: Outside(x, Width(o.desc, c), p, size))
    && (forall c | c in o.free :: Outside(SlabOf(o.desc, c).base, SlabOf(o.desc, c).size, p, size))
  }

  lemma SolidClear(v: seq<Block>, o: Objects, p: int, size: nat)
    requires NodesSolid(v, o) && forall a | p <= a < p + size :: FreeAt(v, a)
    ensures Clear(o, p, size)
  {
    hide Solid, FreeAt, Outside;
    forall x | x in o.blocks ensures Outside(x, MAP_NODE, p, size) { SolidOutside(v, x, MAP_NODE, p, size); }
    forall c | c in o.free ensures Outside(c, CACHE_NODE, p, size) { SolidOutside(v, c, CACHE_NODE, p, size); }
    forall c, x | c in o.free && x in o.free[c] ensures Outside(x, Width(o.desc, c), p, size) {
      SolidOutside(v, x, Width(o.desc, c), p, size);
    }
    forall c | c in o.free ensures Outside(SlabOf(o.desc, c).base, SlabOf(o.desc, c).size, p, size) {
      SolidOutside(v, SlabOf(o.desc, c).base, SlabOf(o.desc, c).size, p, size);
    }
  }

  lemma SolidOutside(v: seq<Block>, x: int, n: nat, p: int, size: nat)
    requires Solid(v, x, n) && forall a | p <= a < p + size :: FreeAt(v, a)
    ensures Outside(x, n, p, size)
  {
    hide FreeAt;
    var a := if x < p then p else x;
    assert !Outside(x, n, p, size) ==> x <= a < x + n && p <= a < p + size && FreeAt(v, a);
  }

  lemma SlabAt(n: nat, bsize: nat, size: nat, i: nat)
    requires n * bsize <= size && i < n
    ensures 0 <= i * bsize && i * bsize + bsize <= size
  {
    Distribute(i, 1, n - i - 1, bsize);
  }

  lemma Distribute(a: nat, b: nat, c: nat, k: nat)
    ensures (a + b + c) * k == a * k + b * k + c * k && a * k >= 0 && c * k >= 0
  {}

  /** A new slab of free nodes. */
  lemma HomedSlab(o: Objects, c: int, p: int, size: nat, n: nat, bsize: nat)
    requires Homed(o.free, o.desc) && Clear(o, p, size) && c !in o.free && bsize > 0 && n * bsize <= size
    ensures Homed(o.free[c := Slab(p, n, bsize)], o.desc[c := Desc(p, size, bsize)])
  {
    hide Outside, NodeOf;
    var s, d := Slab(p, n, bsize), Desc(p, size, bsize);
    forall x | x in s ensures NodeOf(d, x) {
      var i :| 0 <= i < |s| && s[i] == x;
      NodeAt(p, size, n, bsize, i);
    }
    hide Slab;
    forall e | e in o.free
      ensures Outside(p, size, SlabOf(o.desc, e).base, SlabOf(o.desc, e).size)
    {
      OutsideBack(SlabOf(o.desc, e).base, SlabOf(o.desc, e).size, p, size);
    }
  }

  lemma NodeAt(p: int, size: nat, n: nat, bsize: nat, i: nat)
    requires bsize > 0 && n * bsize <= size && i < n
    ensures NodeOf(Desc(p, size, bsize), p + i * bsize)
  {
    SlabAt(n, bsize, size, i);
    MultipleMod(bsize, i, i * bsize);
  }

  lemma OutsideBack(x: int, n: nat, p: int, size: nat)
    requires Outside(x, n, p, size)
    ensures Outside(p, size, x, n)
  {}

  lemma SlabApart(p: int, n: nat, bsize: nat)
    requires bsize > 0
    ensures Distinct(Slab(p, n, bsize))
  {
    forall i: nat, j: nat | i < j < n ensures i * bsize < j * bsize { Distribute(i, 1, j - i - 1, bsize); }
  }

  lemma SlabNodes(v: seq<Block>, o: Objects, c: int, p: int, size: nat, n: nat, bsize: nat)
    requires NodesApart(o) && NodesSolid(v, o) && Detached(o, c) && Solid(v, c, CACHE_NODE)
    requires (forall d | d in o.free :: Width(o.desc, d) > 0)
    requires Clear(o, p, size) && Outside(c, CACHE_NODE, p, size) && bsize > 0 && n * bsize <= size
    requires forall a | p <= a < p + size :: !FreeAt(v, a)
    ensures var o' := o.(free := o.free[c := Slab(p, n, bsize)], desc := o.desc[c := Desc(p, size, bsize)]);
            NodesApart(o') && NodesSolid(v, o')
  {
    var s := Slab(p, n, bsize);
    forall x | x in s ensures p <= x && x + bsize <= p + size {
      var i :| 0 <= i < |s| && s[i] == x;
      SlabAt(n, bsize, size, i);
    }
    SlabApart(p, n, bsize);
    forall x | x in s ensures Solid(v, x, bsize) {}
    forall x | x in s ensures x !in o.blocks && x !in o.free && x != c && forall d | d in o.free :: x !in o.free[d] {
      forall k: nat | k > 0 ensures !Outside(x, k, p, size) {}
    }
    HomedSlab(o, c, p, size, n, bsize);
    assert Solid(v, p, size);
    hide Solid, FreeAt, Slab, Outside, Homed;
  }

  lemma {:induction false} SumAppend(free: Lists, cs: seq<int>, c: int)
    ensures SumFree(free, cs + [c]) == SumFree(free, cs) + |ListOf(free, c)|
  {
    if cs == [] {
      assert ([] + [c])[1..] == [];
    } else {
      assert (cs + [c])[1..] == cs[1..] + [c];
      SumAppend(free, cs[1..], c);
    }
  }

  /** Cache c joins the family of owner with the free nodes l: what that means for the family of q. */
  lemma FamilyGrows(free: Lists, chain: Lists, owner: int, c: int, l: seq<int>, q: int)
    requires c !in free && (forall d | d in Family(chain, q) :: d in free) && Distinct(Family(chain, q)) && owner != c
    ensures var free', chain' := free[c := l], chain[c := []][owner := ListOf(chain, owner) + [c]];
            && Family(chain', q) == Family(chain, q) + (if q == owner then [c] else [])
            && Distinct(Family(chain', q)) && (forall d | d in Family(chain', q) :: d in free')
            && Available(free', chain', q) == Available(free, chain, q) + if q == owner then |l| else 0
  {
    var free', chain' := free[c := l], chain[c := []][owner := ListOf(chain, owner) + [c]];
    var f := Family(chain, q);
    assert q == f[0] && q in f;
    assert ListOf(chain', q) == ListOf(chain, q) + if q == owner then [c] else [];
    assert Family(chain', q) == f + if q == owner then [c] else [];
    SumAppend(free', f, c);
    SumTake(free, f, c, l);
    assert q != owner ==> f + [] == f;
  }

  /** The caches the reserver uses stay in order when c joins the family of some cache. */
  lemma SlabChains(free: Lists, chain: Lists, mapCache: int, metaCache: int, owner: int, c: int, l: seq<int>)
    requires ChainsOk(free, chain, mapCache, metaCache) && c !in free && owner in free
    ensures var free', chain' := free[c := l], chain[c := []][owner := ListOf(chain, owner) + [c]];
            && ChainsOk(free', chain', mapCache, metaCache)
            && Available(free', chain', mapCache)
               == Available(free, chain, mapCache) + (if owner == mapCache then |l| else 0)
            && Available(free', chain', metaCache)
               == Available(free, chain, metaCache) + if owner == metaCache then |l| else 0
  {
    hide Available;
    FamilyGrows(free, chain, owner, c, l, mapCache);
    FamilyGrows(free, chain, owner, c, l, metaCache);
    assert mapCache == Family(chain, mapCache)[0];
    hide Family;
  }

  /** Descriptor c, the first free one, heads a slab of nodes of bsize bytes in [p, p + size), chained to owner. */
  ghost predicate Extended(a: Books, b: Books, metaCache: int, owner: int, p: int, size: nat, bsize: nat, f: int)
    requires bsize > 0
  {
    && FirstWith(a.free, Family(a.chain, metaCache), f) && f in a.free && a.free[f] != []
    && b == ExtendedBooks(a, owner, p, size, bsize, f)
  }

  lemma SlabFits(size: nat, bsize: nat)
    requires bsize > 0
    ensures size / bsize * bsize <= size
  {}

  /** The size of node the family of owner must have. */
  function LeastWidth(owner: int, mapCache: int, metaCache: int): nat {
    if owner == mapCache then MAP_NODE else if owner == metaCache then CACHE_NODE else 1
  }

  /** cache_extend: a descriptor is spent on a slab of new nodes for owner. Without one, the source recurses for
      ever. */
  method CacheExtend(k: Kernel, owner: int, p: int, size: nat, bsize: nat) returns (ok: bool, ghost f: int)
    requires Sound(k) && Clear(k.Own(), p, size) && owner in k.free
    requires bsize >= LeastWidth(owner, k.mapCache, k.metaCache)
    requires forall a | p <= a < p + size :: !FreeAt(k.View(), a)
    modifies k`free, k`chain, k`desc
    ensures Sound(k) && k.View() == old(k.View()) && (ok <==> old(Descriptors(k)) > 0)
    ensures !ok ==> k.Caches() == old(k.Caches())
    ensures ok ==> MapNodes(k) == old(MapNodes(k)) + if owner == k.mapCache then size / bsize else 0
    ensures ok ==> Descriptors(k) == old(Descriptors(k)) - 1 + if owner == k.metaCache then size / bsize else 0
    ensures ok ==> Extended(old(k.Caches()), k.Caches(), k.metaCache, owner, p, size, bsize, f)
    ensures ok ==> old(k.free[f][0]) !in old(k.free)
  {
    hide NodesApart, NodesSolid, ChainsOk, WidthsOk, Ordered, Available, FreeAt, Clear, Family, FirstWith;
    ghost var v, o, b0 := k.View(), k.Own(), k.Caches();
    FamilyIn(b0.free, b0.chain, k.mapCache, k.metaCache);
    var c;
    ok, c, f := TryTake(k, k.metaCache);
    if !ok {
      return;
    }
    ExtendSound(v, k.blocks, b0, k.mapCache, k.metaCache, owner, p, size, bsize, f);
    CacheInitialize(k, c, p, size, bsize);
    AppendChain(k, owner, c);
  }

  lemma FamilyIn(free: Lists, chain: Lists, mapCache: int, metaCache: int)
    requires ChainsOk(free, chain, mapCache, metaCache)
    ensures forall c | c in Family(chain, metaCache) :: c in free
  {}

  /** The caches once free node c of metadata_cache, from list f, heads a slab for owner. */
  function ExtendedBooks(a: Books, owner: int, p: int, size: nat, bsize: nat, f: int): Books
    requires f in a.free && a.free[f] != [] && bsize > 0
  {
    var c := a.free[f][0];
    Books(a.free[f := a.free[f][1..]][c := Slab(p, size / bsize, bsize)],
          a.chain[c := []][owner := ListOf(a.chain, owner) + [c]], a.desc[c := Desc(p, size, bsize)])
  }

  lemma ExtendSound(v: seq<Block>, blocks: seq<int>, a: Books, mapCache: int, metaCache: int, owner: int, p: int,
                    size: nat, bsize: nat, f: int)
    requires var o := Objects(blocks, a.free, a.desc); NodesApart(o) && NodesSolid(v, o) && Clear(o, p, size)
    requires ChainsOk(a.free, a.chain, mapCache, metaCache) && WidthsOk(a, mapCache, metaCache)
    requires owner in a.free && bsize >= LeastWidth(owner, mapCache, metaCache) && bsize > 0
    requires forall x | p <= x < p + size :: !FreeAt(v, x)
    requires f in Family(a.chain, metaCache) && f in a.free && a.free[f] != []
    ensures var b := ExtendedBooks(a, owner, p, size, bsize, f);
            var o := Objects(blocks, b.free, b.desc);
            && NodesApart(o) && NodesSolid(v, o) && ChainsOk(b.free, b.chain, mapCache, metaCache)
            && WidthsOk(b, mapCache, metaCache)
            && Available(b.free, b.chain, mapCache)
               == Available(a.free, a.chain, mapCache) + (if owner == mapCache then size / bsize else 0)
            && Available(b.free, b.chain, metaCache)
               == Available(a.free, a.chain, metaCache) - 1 + if owner == metaCache then size / bsize else 0
    ensures a.free[f][0] !in a.free && a.free[f][0] != owner
  {
    hide NodesApart, NodesSolid, ChainsOk, Available, Clear, WidthsOk, Family, FreeAt;
    var o, c, l := Objects(blocks, a.free, a.desc), a.free[f][0], a.free[f][1..];
    FamilyFree(a.free, a.chain, mapCache, metaCache);
    NeverOnList(o, f);
    TakeCounts(a.free, a.chain, metaCache, mapCache, f);
    TakeChains(a.free, a.chain, mapCache, metaCache, f, l);
    SlabChains(a.free[f := l], a.chain, mapCache, metaCache, owner, c, Slab(p, size / bsize, bsize));
    SlabWidths(a, mapCache, metaCache, owner, c, p, size, bsize, f, l, Slab(p, size / bsize, bsize));
    ExtendObjects(v, o, a, mapCache, metaCache, p, size, bsize, f);
  }

  lemma ExtendObjects(v: seq<Block>, o: Objects, a: Books, mapCache: int, metaCache: int, p: int, size: nat, bsize: nat,
                      f: int)
    requires NodesApart(o) && NodesSolid(v, o) && Clear(o, p, size) && o.free == a.free && o.desc == a.desc
    requires WidthsOk(a, mapCache, metaCache) && bsize > 0 && forall x | p <= x < p + size :: !FreeAt(v, x)
    requires f in Family(a.chain, metaCache) && f in a.free && a.free[f] != []
    ensures var c := a.free[f][0];
            var o' := Objects(o.blocks, a.free[f := a.free[f][1..]][c := Slab(p, size / bsize, bsize)],
                              a.desc[c := Desc(p, size, bsize)]);
            NodesApart(o') && NodesSolid(v, o')
  {
    hide NodesApart, NodesSolid, Clear, WidthsOk, Family, FreeAt, Detached, Outside, Solid, Slab;
    var c, l := a.free[f][0], a.free[f][1..];
    TakeFirst(v, o, f);
    WidthsAt(a, mapCache, metaCache, f, l);
    SolidPart(v, c, Width(a.desc, f), CACHE_NODE);
    TakenClear(o, f, p, size);
    OutsidePart(c, Width(a.desc, f), CACHE_NODE, p, size);
    SlabFits(size, bsize);
    SlabNodes(v, o.(free := a.free[f := l]), c, p, size, size / bsize, bsize);
  }

  lemma WidthsAt(a: Books, mapCache: int, metaCache: int, f: int, l: seq<int>)
    requires WidthsOk(a, mapCache, metaCache) && f in a.free
    ensures f in Family(a.chain, metaCache) ==> Width(a.desc, f) >= CACHE_NODE
    ensures WidthsOk(a.(free := a.free[f := l]), mapCache, metaCache)
    ensures forall c | c in a.free[f := l] :: Width(a.desc, c) > 0
  {
    hide Family, Width;
  }

  lemma SlabWidths(a: Books, mapCache: int, metaCache: int, owner: int, c: int, p: int, size: nat, bsize: nat, f: int,
                   l: seq<int>, m: seq<int>)
    requires WidthsOk(a, mapCache, metaCache) && ChainsOk(a.free, a.chain, mapCache, metaCache)
    requires c !in a.free && owner in a.free && f in a.free && bsize >= LeastWidth(owner, mapCache, metaCache)
    requires bsize > 0
    ensures WidthsOk(Books(a.free[f := l][c := m], a.chain[c := []][owner := ListOf(a.chain, owner) + [c]],
                           a.desc[c := Desc(p, size, bsize)]), mapCache, metaCache)
  {
    var chain' := a.chain[c := []][owner := ListOf(a.chain, owner) + [c]];
    Owners(a.free, a.chain, mapCache, metaCache);
    FamilyOwned(a.chain, owner, c, mapCache);
    FamilyOwned(a.chain, owner, c, metaCache);
    hide Family;
  }

  lemma FamilyOwned(chain: Lists, owner: int, c: int, q: int)
    requires q != c && owner != c
    ensures Family(chain[c := []][owner := ListOf(chain, owner) + [c]], q)
            == Family(chain, q) + if q == owner then [c] else []
  {}

  /** The nodes of a new slab lie in the memory it was given. */
  lemma ExtendNodes(v: seq<Block>, blocks: seq<int>, a: Books, b: Books, mapCache: int, metaCache: int, owner: int,
                    p: int, size: nat, bsize: nat, f: int)
    requires bsize > 0 && Extended(a, b, metaCache, owner, p, size, bsize, f) && WidthsOk(a, mapCache, metaCache)
    requires a.free[f][0] !in a.free
    requires forall x | p <= x < p + size :: FreeAt(v, x)
    ensures NodesFrom(v, Objects(blocks, a.free, a.desc), Objects(blocks, b.free, b.desc))
  {
    var n := size / bsize;
    var s, c := Slab(p, n, bsize), a.free[f][0];
    SlabFits(size, bsize);
    forall x | x in s ensures p <= x && x + bsize <= p + size {
      var i :| 0 <= i < |s| && s[i] == x;
      SlabAt(n, bsize, size, i);
    }
    assert f in Family(a.chain, metaCache);
    WidthsAt(a, mapCache, metaCache, f, []);
    hide FirstWith, Family, WidthsOk, Slab;
    SlabNew(v, Objects(blocks, a.free, a.desc), f, c, p, size, bsize, s);
  }

  lemma SlabNew(v: seq<Block>, o: Objects, f: int, c: int, p: int, size: nat, bsize: nat, s: seq<int>)
    requires f in o.free && o.free[f] != [] && c == o.free[f][0] && c !in o.free && Width(o.desc, f) >= CACHE_NODE
    requires (forall x | x in s :: p <= x && x + bsize <= p + size) && forall x | p <= x < p + size :: FreeAt(v, x)
    ensures NodesFrom(v, o, o.(free := o.free[f := o.free[f][1..]][c := s], desc := o.desc[c := Desc(p, size, bsize)]))
  {
    hide FreeAt;
    assert c in o.free[f];
    forall y | y in o.free[f][1..] ensures y in o.free[f] {}
    assert AllFree(v, Desc(p, size, bsize));
  }

  /** Both caches exist, and they are two. */
  lemma Owners(free: Lists, chain: Lists, mapCache: int, metaCache: int)
    requires ChainsOk(free, chain, mapCache, metaCache)
    ensures mapCache in free && metaCache in free && mapCache != metaCache
  {
    assert mapCache == Family(chain, mapCache)[0] && metaCache == Family(chain, metaCache)[0];
  }

  /** Growing the family of owner and using up nodes of the two internal families leaves the other caches as they
      are. */
  ghost predicate KeepsCaches(a: Books, b: Books, owner: int, mapCache: int, metaCache: int) {
    && (forall c | c in a.free :: c in b.free && (c != owner ==> ListOf(b.chain, c) == ListOf(a.chain, c)))
    && (forall c | c in a.free && c !in Family(a.chain, mapCache) && c !in Family(a.chain, metaCache) ::
          b.free[c] == a.free[c])
    && (forall c | c in a.free && c in a.desc :: c in b.desc && b.desc[c] == a.desc[c])
    && (forall c | c in Family(b.chain, owner) :: c in Family(a.chain, owner) || c !in a.free)
  }

  lemma KeepsSelf(a: Books, owner: int, mapCache: int, metaCache: int)
    ensures KeepsCaches(a, a, owner, mapCache, metaCache)
  {}

  lemma KeepsTrans(a: Books, b: Books, c: Books, owner: int, mapCache: int, metaCache: int)
    requires ChainsOk(a.free, a.chain, mapCache, metaCache) && (owner == mapCache || owner == metaCache)
    requires KeepsCaches(a, b, owner, mapCache, metaCache) && KeepsCaches(b, c, owner, mapCache, metaCache)
    ensures KeepsCaches(a, c, owner, mapCache, metaCache)
  {
    Owners(a.free, a.chain, mapCache, metaCache);
    var other := if owner == mapCache then metaCache else mapCache;
    assert Family(b.chain, other) == Family(a.chain, other);
    hide Family, ChainsOk;
  }

  lemma TakeKeeps(a: Books, b: Books, f: int, owner: int, mapCache: int, metaCache: int)
    requires f in a.free && a.free[f] != [] && b == a.(free := a.free[f := a.free[f][1..]])
    requires f in Family(a.chain, mapCache) || f in Family(a.chain, metaCache)
    ensures KeepsCaches(a, b, owner, mapCache, metaCache)
  {
    hide Family;
  }

  lemma ExtendKeeps(a: Books, b: Books, owner: int, mapCache: int, metaCache: int, p: int, size: nat, bsize: nat,
                    f: int)
    requires ChainsOk(a.free, a.chain, mapCache, metaCache) && bsize > 0 && owner in a.free
    requires Extended(a, b, metaCache, owner, p, size, bsize, f) && a.free[f][0] !in a.free
    ensures KeepsCaches(a, b, owner, mapCache, metaCache)
  {
    var c := a.free[f][0];
    assert f in Family(a.chain, metaCache);
    assert ListOf(b.chain, owner) == ListOf(a.chain, owner) + [c];
    assert Family(b.chain, owner) == Family(a.chain, owner) + [c];
    hide Family, ChainsOk, FirstWith;
  }

  lemma NeverOnList(o: Objects, f: int)
    requires NodesApart(o) && f in o.free && o.free[f] != []
    ensures o.free[f][0] !in o.blocks && o.free[f][0] !in o.free
  {
    assert o.free[f][0] in o.free[f];
  }

  /** list_insert(old->caches.prev, &c->caches) */
  method AppendChain(k: Kernel, owner: int, c: int)
    requires c != owner
    modifies k`chain
    ensures k.chain == old(k.chain)[owner := ListOf(old(k.chain), owner) + [c]]
  {
    k.chain := k.chain[owner := ListOf(k.chain, owner) + [c]];
  }

  lemma OutsidePart(x: int, n: nat, m: nat, p: int, size: nat)
    requires Outside(x, n, p, size) && m <= n
    ensures Outside(x, m, p, size)
  {}

  lemma TakenClear(o: Objects, f: int, p: int, size: nat)
    requires Clear(o, p, size) && f in o.free && o.free[f] != []
    ensures Clear(o.(free := o.free[f := o.free[f][1..]]), p, size) && Outside(o.free[f][0], Width(o.desc, f), p, size)
  {
    hide Outside;
    assert o.free[f][0] in o.free[f];
    forall y | y in o.free[f][1..] ensures y in o.free[f] {}
  }

  // ----- __memory_reserve_ex

  /** The request would split a prefix off block b. */
  predicate NeedsPrefix(b: Block, base: nat, size: nat) {
    !Fits(b, base, size) && !Refused(b, base, size) && b.base < base
  }

  /** The free block that holds base, if any, begins there. */
  predicate NoPrefix(v: seq<Block>, base: nat) {
    forall j | 0 <= j < |v| && v[j].kind == 0 && Holds(v[j], base) :: v[j].base == base
  }

  /** A block for any address is found, and not at the null address. */
  ghost predicate FoundAbove(v: seq<Block>, size: nat) {
    exists i: nat :: StopsAt(v, 0, size, i) && Fits(v[i], 0, size) && v[i].base > 0
  }

  /** Ten nodes can be made: for one descriptor, and one node of those left if their memory is cut from a larger
      block. */
  ghost predicate Replenished(v: seq<Block>, nodes: nat, descriptors: nat) {
    descriptors > 0 && FoundAbove(v, EXTEND_SIZE) && (nodes == 0 ==> !Splits(v, EXTEND_SIZE))
  }

  /** Should the node caches have to grow on the way, they can. */
  ghost predicate CanGrow(v: seq<Block>, nodes: nat, descriptors: nat, base: nat, size: nat) {
    && (nodes <= 1 ==> Replenished(v, nodes, descriptors))
    && (nodes == 2 ==> forall i: nat | StopsAt(v, base, size, i) && NeedsPrefix(v[i], base, size) ::
                         && descriptors > 0 && base - v[i].base <= v[i].size
                         && FoundAbove(Carve(v, i, base - v[i].base), EXTEND_SIZE))
  }

  lemma HoldsOnce(w: seq<Block>, a: int, l: nat)
    requires Ordered(w) && l < |w| && Holds(w[l], a)
    ensures forall j | 0 <= j < |w| && Holds(w[j], a) :: j == l
  {}

  lemma PrefixGone(v: seq<Block>, i: nat, base: nat)
    requires Ordered(v) && i < |v| && v[i].base < base < v[i].base + v[i].size
    ensures NoPrefix(Carve(v, i, base - v[i].base), base)
  {
    CarveAt(v, i, base - v[i].base);
    CarveOrdered(v, i, base - v[i].base);
    HoldsOnce(Carve(v, i, base - v[i].base), base, i + 1);
  }

  lemma PrefixStays(v: seq<Block>, i: nat, size: nat, base: nat)
    requires Ordered(v) && NoPrefix(v, base) && i < |v| && 0 < size <= v[i].size
    ensures NoPrefix(Carve(v, i, size), base) && NoPrefix(Mark(v, i, 2), base)
  {
    CarveAt(v, i, size);
    hide Carve;
    var w := Carve(v, i, size);
    forall j | 0 <= j < |w| && w[j].kind == 0 && Holds(w[j], base) ensures w[j].base == base {
      var j' := if j <= i then j else j - 1;
      if v[j'].kind == 0 && Holds(v[j'], base) { assert v[j'].base == base; }
    }
  }

  /** The search loop: the first block at which one of the tests holds. */
  method Search(k: Kernel, base: nat, size: nat) returns (i: nat)
    ensures i <= |k.blocks| && (i < |k.blocks| ==> StopsAt(k.View(), base, size, i))
    ensures i == |k.blocks| ==> forall j: nat :: !StopsAt(k.View(), base, size, j)
  {
    i := 0;
    while i < |k.blocks|
      invariant i <= |k.blocks| && forall j | 0 <= j < i :: !Stops(k.View()[j], base, size)
    {
      var m := BlockAt(k.node, k.blocks[i]);
      if m.kind == 0 && ((base == 0 && m.size >= size) || (m.base <= base < Wrap(m.base + m.size))) {
        return;
      }
      i := i + 1;
    }
  }

  /** m->type = 2 */
  method MarkReserved(k: Kernel, i: nat) returns (p: nat)
    requires Sound(k) && i < |k.blocks| && k.View()[i].kind == 0
    modifies k`node
    ensures Sound(k) && k.View() == Mark(old(k.View()), i, 2) && p == old(k.View()[i].base)
  {
    hide NodesApart, NodesSolid, ChainsOk, WidthsOk, Ordered, FreeAt;
    ghost var v := k.View();
    BlocksDistinct(k.Own());
    MarkGrants(v, i);
    var m := k.blocks[i];
    var b := BlockAt(k.node, m);
    k.node := k.node[m := Block(b.base, b.size, 2)];
    assert k.View() == Mark(v, i, 2);
    SolidTighter(v, k.View(), k.Own());
    return b.base;
  }

  /** A request for any address that leaves the watermark aside. */
  method ReserveAnywhere(k: Kernel, size: nat) returns (ok: bool, p: nat)
    requires Sound(k) && size < TWO32
    modifies k`free, k`blocks, k`node
    ensures Sound(k) && Tighter(old(k.View()), k.View()) && NodesSolid(old(k.View()), k.Own())
    ensures ok <==> old(MapNodes(k)) > 0 || !Splits(old(k.View()), size)
    ensures ok ==> Settled(old(k.View()), k.View(), 0, size) && (p != 0 <==> FoundAbove(old(k.View()), size))
    ensures ok ==> MapNodes(k) == old(MapNodes(k)) - if Splits(old(k.View()), size) then 1 else 0
    ensures !ok ==> p == 0 && k.View() == old(k.View()) && MapNodes(k) == old(MapNodes(k))
    ensures MapNodes(k) + |k.View()| == old(MapNodes(k)) + |old(k.View())|
    ensures Descriptors(k) == old(Descriptors(k))
    ensures KeepsCaches(old(k.Caches()), k.Caches(), k.mapCache, k.mapCache, k.metaCache)
    ensures NodesFrom(old(k.View()), old(k.Own()), k.Own())
    ensures p != 0 ==> Granted(old(k.View()), k.View(), p, size)
    ensures size > 0 ==> forall base: nat :: NoPrefix(old(k.View()), base) ==> NoPrefix(k.View(), base)
  {
    hide NodesApart, NodesSolid, ChainsOk, WidthsOk, Ordered, FreeAt, Carve, Available, Granted, Tighter, NoPrefix;
    hide KeepsCaches, Settled, NodesFrom;
    ghost var v := k.View();
    var i := Search(k, 0, size);
    TighterSelf(v);
    KeepsSelf(k.Caches(), k.mapCache, k.mapCache, k.metaCache);
    NodesSame(v, k.Own());
    ok, p := true, 0;
    if i == |k.blocks| {
      assert k.View() == v;
      NoStop(v, 0, size);
      return;
    }
    StopUnique(v, size, i);
    SettledAt(v, 0, size, i);
    var m := BlockAt(k.node, k.blocks[i]);
    if m.size >= size {
      if size > 0 {
        forall base: nat | NoPrefix(v, base)
          ensures NoPrefix(Carve(v, i, size), base) && NoPrefix(Mark(v, i, 2), base)
        {
          PrefixStays(v, i, size, base);
        }
      }
      if m.size == size {
        MarkGrants(v, i);
        p := MarkReserved(k, i);
      } else {
        CarveGrants(v, i, size);
        CarveAt(v, i, size);
        ok, p := MemorySplit(k, i, size);
      }
    }
  }

  lemma TighterSelf(v: seq<Block>)
    requires Ordered(v)
    ensures Tighter(v, v)
  {}

  /** A request for any address is cut from a larger block. */
  ghost predicate Splits(v: seq<Block>, size: nat) {
    exists i: nat :: StopsAt(v, 0, size, i) && Fits(v[i], 0, size) && v[i].size != size
  }

  lemma StopUnique(v: seq<Block>, size: nat, i: nat)
    requires StopsAt(v, 0, size, i)
    ensures FoundAbove(v, size) <==> Fits(v[i], 0, size) && v[i].base > 0
    ensures Splits(v, size) <==> Fits(v[i], 0, size) && v[i].size != size
  {
    forall j: nat | StopsAt(v, 0, size, j) ensures j == i {}
  }

  /** The watermark: with at most one node left, ten more are made from memory of the map itself. Where that fails
      the source goes on with null or never returns. */
  method Replenish(k: Kernel) returns (ok: bool)
    requires Sound(k)
    modifies k`free, k`blocks, k`node, k`chain, k`desc
    ensures Sound(k) && Tighter(old(k.View()), k.View())
    ensures KeepsCaches(old(k.Caches()), k.Caches(), k.mapCache, k.mapCache, k.metaCache)
    ensures NodesFrom(old(k.View()), old(k.Own()), k.Own())
    ensures ok <==> old(MapNodes(k)) > 1 || Replenished(old(k.View()), old(MapNodes(k)), old(Descriptors(k)))
    ensures ok && old(MapNodes(k)) <= 1 ==>
              && MapNodes(k) >= EXTEND_NODES && Descriptors(k) == old(Descriptors(k)) - 1
              && Settled(old(k.View()), k.View(), 0, EXTEND_SIZE)
    ensures old(MapNodes(k)) > 1 ==>
              k.View() == old(k.View()) && MapNodes(k) == old(MapNodes(k)) && Descriptors(k) == old(Descriptors(k))
    ensures ok ==> MapNodes(k) + |k.View()|
                   == old(MapNodes(k)) + |old(k.View())| + if old(MapNodes(k)) <= 1 then EXTEND_NODES else 0
    ensures Descriptors(k) >= old(Descriptors(k)) - 1
    ensures forall base: nat :: NoPrefix(old(k.View()), base) ==> NoPrefix(k.View(), base)
  {
    hide NodesApart, NodesSolid, ChainsOk, WidthsOk, Ordered, FreeAt, FoundAbove, Granted, Tighter, NoPrefix, SumFree;
    hide SumCounted, KeepsCaches, Extended;
    hide NodesFrom, Settled, Splits, Clear;
    ghost var v, b0, o0 := k.View(), k.Caches(), k.Own();
    TighterSelf(v);
    KeepsSelf(b0, k.mapCache, k.mapCache, k.metaCache);
    NodesSame(v, o0);
    Watermark(k.free, Family(k.chain, k.mapCache));
    var remaining := CacheRemaining(k, k.mapCache);
    ok := true;
    if remaining <= 2 {
      var p;
      ok, p := ReserveAnywhere(k, EXTEND_SIZE);
      if p == 0 {
        return false;
      }
      GrantedClear(v, k.View(), k.Own(), p, EXTEND_SIZE);
      GrantedFree(v, k.View(), p, EXTEND_SIZE);
      Owners(k.free, k.chain, k.mapCache, k.metaCache);
      ghost var b1, o1, f := k.Caches(), k.Own(), 0;
      ok, f := CacheExtend(k, k.mapCache, p, EXTEND_SIZE, CACHE_NODE);
      if ok {
        ExtendKeeps(b1, k.Caches(), k.mapCache, k.mapCache, k.metaCache, p, EXTEND_SIZE, CACHE_NODE, f);
        KeepsTrans(b0, b1, k.Caches(), k.mapCache, k.mapCache, k.metaCache);
        ExtendNodes(v, k.blocks, b1, k.Caches(), k.mapCache, k.metaCache, k.mapCache, p, EXTEND_SIZE, CACHE_NODE, f);
        NodesTrans(v, v, o0, o1, k.Own());
      }
    }
  }

  lemma GrantedFree(v: seq<Block>, w: seq<Block>, p: nat, size: nat)
    requires Granted(v, w, p, size)
    ensures forall a | p <= a < p + size :: FreeAt(v, a) && !FreeAt(w, a)
  {
    hide FreeAt;
  }

  lemma GrantedClear(v: seq<Block>, w: seq<Block>, o: Objects, p: nat, size: nat)
    requires Granted(v, w, p, size) && NodesSolid(v, o)
    ensures Clear(o, p, size) && forall a | p <= a < p + size :: !FreeAt(w, a)
  {
    hide FreeAt, NodesSolid;
    SolidClear(v, o, p, size);
  }

  /** A fixed request ends strictly inside the free block that holds its start. */
  ghost predicate FitsAt(v: seq<Block>, base: nat, size: nat) {
    exists i: nat :: StopsAt(v, base, size, i) && !Refused(v[i], base, size)
  }

  /** The facts about the block the search stopped at. */
  lemma StopFacts(v: seq<Block>, base: nat, size: nat, i: nat)
    requires StopsAt(v, base, size, i) && !Fits(v[i], base, size) && Ordered(v)
    requires base + size < TWO32
    ensures v[i].kind == 0 && Holds(v[i], base) && v[i].base + v[i].size < TWO32
    ensures Refused(v[i], base, size) <==> base + size >= v[i].base + v[i].size
    ensures base == 0 ==> Refused(v[i], base, size)
    ensures FitsAt(v, base, size) <==> !Refused(v[i], base, size)
  {
    forall j: nat | StopsAt(v, base, size, j) ensures j == i {}
  }

  lemma StopKind(v: seq<Block>, base: nat, size: nat, i: nat)
    requires StopsAt(v, base, size, i)
    ensures i < |v| && v[i].kind == 0
  {}

  lemma NoStop(v: seq<Block>, base: nat, size: nat)
    requires forall j: nat :: !StopsAt(v, base, size, j)
    ensures !FitsAt(v, base, size) && (base == 0 ==> !FoundAbove(v, size)) && Settled(v, v, base, size)
  {}

  /** Once the prefix is gone the request stops at the block that begins there, and is not refused. */
  lemma FitsAfterPrefix(v: seq<Block>, i: nat, base: nat, size: nat)
    requires Ordered(v) && i < |v| && v[i].base < base && base + size < v[i].base + v[i].size < TWO32 && v[i].kind == 0
    ensures var w := Carve(v, i, base - v[i].base); FitsAt(w, base, size) && StopsAt(w, base, size, i + 1)
  {
    var first := base - v[i].base;
    CarveAt(v, i, first);
    CarveOrdered(v, i, first);
    hide Carve;
    var w := Carve(v, i, first);
    HoldsOnce(w, base, i + 1);
    forall j | 0 <= j < i + 1 ensures !Stops(w[j], base, size) {}
    assert StopsAt(w, base, size, i + 1);
  }

  /** Whether the second attempt, after a prefix split, can have its nodes. */
  lemma GrowAfterPrefix(v: seq<Block>, nodes: nat, descriptors: nat, i: nat, base: nat, size: nat)
    requires StopsAt(v, base, size, i) && NeedsPrefix(v[i], base, size) && base - v[i].base <= v[i].size
    requires nodes >= 2 && NoPrefix(Carve(v, i, base - v[i].base), base)
    ensures CanGrow(Carve(v, i, base - v[i].base), nodes - 1, descriptors, base, size)
            <==> CanGrow(v, nodes, descriptors, base, size)
  {
    hide FoundAbove, Carve, Splits;
    var w := Carve(v, i, base - v[i].base);
    forall j: nat | StopsAt(w, base, size, j) ensures !NeedsPrefix(w[j], base, size) {
      if !Fits(w[j], base, size) && w[j].base < base { WrapDown(w[j].base + w[j].size); }
    }
    forall j: nat | StopsAt(v, base, size, j) ensures j == i {}
  }

  lemma WrapDown(x: nat)
    ensures Wrap(x) <= x
  {}

  /** With nodes to spare nothing need grow. */
  lemma PlentyGrows(v: seq<Block>, nodes: nat, descriptors: nat, base: nat, size: nat)
    requires nodes >= 3
    ensures CanGrow(v, nodes, descriptors, base, size)
  {}

  /** With two nodes only a prefix can make the cache grow. */
  lemma PlainGrows(v: seq<Block>, nodes: nat, descriptors: nat, base: nat, size: nat, i: nat)
    requires nodes >= 2 && StopsAt(v, base, size, i) && !NeedsPrefix(v[i], base, size)
    ensures CanGrow(v, nodes, descriptors, base, size)
  {
    forall j: nat | StopsAt(v, base, size, j) ensures j == i {}
  }

  lemma NowhereGrows(v: seq<Block>, nodes: nat, descriptors: nat, base: nat, size: nat)
    requires nodes >= 2 && forall j: nat :: !StopsAt(v, base, size, j)
    ensures CanGrow(v, nodes, descriptors, base, size) && Prepared(v, nodes, base, size) == v
    ensures !Extends(v, nodes, base, size)
    ensures Final(v, base, size) == v && !Serves(v, base, size)
  {}

  lemma FewGrow(v: seq<Block>, nodes: nat, descriptors: nat, base: nat, size: nat)
    requires nodes <= 1
    ensures CanGrow(v, nodes, descriptors, base, size) <==> Replenished(v, nodes, descriptors)
  {}

  /** A block of NoPrefix that holds base begins there. */
  lemma PrefixFree(v: seq<Block>, base: nat, i: nat)
    requires NoPrefix(v, base) && i < |v| && v[i].kind == 0 && Holds(v[i], base)
    ensures v[i].base == base
  {}

  // ----- what a request comes to, extensions included

  /** The map a search for a request leaves. */
  ghost function Final(v: seq<Block>, base: nat, size: nat): seq<Block> {
    if exists i: nat :: StopsAt(v, base, size, i) then
      var i: nat :| StopsAt(v, base, size, i);
      Taken(v, base, size, i)
    else v
  }

  lemma FinalSettled(v: seq<Block>, w: seq<Block>, base: nat, size: nat)
    ensures Settled(v, w, base, size) <==> w == Final(v, base, size)
  {
    if i: nat :| StopsAt(v, base, size, i) { SettledAt(v, base, size, i); }
  }

  /** The search gives the caller something. */
  ghost predicate Serves(v: seq<Block>, base: nat, size: nat) {
    if base == 0 then FoundAbove(v, size) else FitsAt(v, base, size)
  }

  /** The request stops at block i and splits a prefix off it. */
  ghost predicate PrefixAt(v: seq<Block>, base: nat, size: nat, i: nat) {
    StopsAt(v, base, size, i) && NeedsPrefix(v[i], base, size) && base - v[i].base <= v[i].size
  }

  /** The caches of the reserver grow on the way: at the watermark, or when a prefix takes the last node but one. */
  ghost predicate Extends(v: seq<Block>, nodes: nat, base: nat, size: nat) {
    nodes <= 1 || (nodes == 2 && exists i: nat :: PrefixAt(v, base, size, i))
  }

  /** The map the request is served from: as it is, or after an extension, and a prefix before that. */
  ghost function Prepared(v: seq<Block>, nodes: nat, base: nat, size: nat): seq<Block> {
    if nodes <= 1 then Final(v, 0, EXTEND_SIZE)
    else if Extends(v, nodes, base, size) then
      var i: nat :| PrefixAt(v, base, size, i);
      Final(Carve(v, i, base - v[i].base), 0, EXTEND_SIZE)
    else v
  }

  /** Every block of the map is a node: their number together with that of the free nodes grows only by an extension. */
  ghost function NodesAndBlocks(v: seq<Block>, nodes: nat, base: nat, size: nat): nat {
    nodes + |v| + if Extends(v, nodes, base, size) then EXTEND_NODES else 0
  }

  /** An extension costs one descriptor. */
  ghost function DescriptorsLeft(v: seq<Block>, nodes: nat, descriptors: nat, base: nat, size: nat): int {
    descriptors - if Extends(v, nodes, base, size) then 1 else 0
  }

  lemma PreparedFew(v: seq<Block>, nodes: nat, base: nat, size: nat)
    requires nodes <= 1
    ensures Prepared(v, nodes, base, size) == Final(v, 0, EXTEND_SIZE) && Extends(v, nodes, base, size)
  {}

  lemma PreparedPlain(v: seq<Block>, nodes: nat, base: nat, size: nat)
    requires nodes >= 3 || (nodes == 2 && forall i: nat :: !PrefixAt(v, base, size, i))
    ensures Prepared(v, nodes, base, size) == v && !Extends(v, nodes, base, size)
  {}

  lemma PreparedStop(v: seq<Block>, nodes: nat, base: nat, size: nat, i: nat)
    requires nodes >= 2 && StopsAt(v, base, size, i) && !NeedsPrefix(v[i], base, size)
    ensures Prepared(v, nodes, base, size) == v && !Extends(v, nodes, base, size)
  {
    forall j: nat | StopsAt(v, base, size, j) ensures j == i {}
  }

  /** Serving the request after its prefix is gone is serving it, or what is left of it after the extension. */
  lemma PreparedPrefix(v: seq<Block>, nodes: nat, base: nat, size: nat, i: nat)
    requires Ordered(v) && nodes >= 2 && PrefixAt(v, base, size, i) && base + size < v[i].base + v[i].size < TWO32
    requires v[i].kind == 0
    ensures var w := Carve(v, i, base - v[i].base);
            var x, y := Prepared(v, nodes, base, size), Prepared(w, nodes - 1, base, size);
            && Final(y, base, size) == Final(x, base, size) && (Serves(y, base, size) <==> Serves(x, base, size))
            && (Extends(w, nodes - 1, base, size) <==> Extends(v, nodes, base, size))
  {
    if nodes >= 3 {
      PrefixSame(v, base, size, i);
      PreparedPlain(Carve(v, i, base - v[i].base), nodes - 1, base, size);
      PreparedPlain(v, nodes, base, size);
    } else {
      PrefixOnly(v, base, size, i);
      hide Final, Serves, Carve;
    }
  }

  lemma PrefixOnly(v: seq<Block>, base: nat, size: nat, i: nat)
    requires PrefixAt(v, base, size, i)
    ensures Prepared(v, 2, base, size) == Prepared(Carve(v, i, base - v[i].base), 1, base, size)
    ensures Extends(v, 2, base, size)
  {
    forall j: nat | StopsAt(v, base, size, j) ensures j == i {}
    hide Final, StopsAt, Carve;
  }

  lemma PrefixSame(v: seq<Block>, base: nat, size: nat, i: nat)
    requires Ordered(v) && PrefixAt(v, base, size, i) && base + size < v[i].base + v[i].size < TWO32 && v[i].kind == 0
    ensures var w := Carve(v, i, base - v[i].base);
            && Final(w, base, size) == Final(v, base, size) && Serves(w, base, size) && Serves(v, base, size)
            && forall j: nat :: !PrefixAt(w, base, size, j)
  {
    var w := Carve(v, i, base - v[i].base);
    FitsAfterPrefix(v, i, base, size);
    assert FitsAt(v, base, size);
    forall j: nat ensures !PrefixAt(w, base, size, j) {
      if StopsAt(w, base, size, j) { StopOnce(w, base, size, j, i + 1); CarveAt(v, i, base - v[i].base); }
    }
    FinalSettled(w, Final(w, base, size), base, size);
    hide Final, Carve;
    SettledInside(v, Final(w, base, size), base, size, i);
    FinalSettled(v, Final(w, base, size), base, size);
  }

  lemma StopOnce(v: seq<Block>, base: nat, size: nat, i: nat, j: nat)
    requires StopsAt(v, base, size, i) && StopsAt(v, base, size, j)
    ensures i == j
  {}

  /** With three free nodes, or two and no prefix to split, nothing grows, and the request is served from the map as
      it is. */
  lemma QuietGrows(v: seq<Block>, nodes: nat, descriptors: nat, base: nat, size: nat)
    requires nodes >= 3 || (nodes == 2 && (base == 0 || NoPrefix(v, base)))
    ensures CanGrow(v, nodes, descriptors, base, size) && Prepared(v, nodes, base, size) == v
    ensures !Extends(v, nodes, base, size)
  {
    forall i: nat | nodes == 2 && StopsAt(v, base, size, i) ensures !NeedsPrefix(v[i], base, size) {
      if !Fits(v[i], base, size) { WrapDown(v[i].base + v[i].size); }
    }
  }

  // ----- when an extension costs a fixed request its memory

  /** What FitsAt means: the request ends strictly inside the free block that holds its start. */
  lemma FitsMeans(v: seq<Block>, base: nat, size: nat)
    requires Ordered(v) && 0 < base && base + size < TWO32
    ensures FitsAt(v, base, size) <==> exists i: nat :: FitsIn(v, base, size, i)
  {
    if FitsAt(v, base, size) {
      var i: nat :| StopsAt(v, base, size, i) && !Refused(v[i], base, size);
      StopFacts(v, base, size, i);
      assert FitsIn(v, base, size, i);
    }
    if i: nat :| FitsIn(v, base, size, i) {
      HoldsOnce(v, base, i);
      forall j | 0 <= j < i ensures !Stops(v[j], base, size) { WrapDown(v[j].base + v[j].size); }
      assert StopsAt(v, base, size, i);
    }
  }

  predicate FitsIn(v: seq<Block>, base: nat, size: nat, i: nat) {
    i < |v| && v[i].kind == 0 && Holds(v[i], base) && base + size < v[i].base + v[i].size < TWO32
  }

  /** The block an extension takes begins at most EXTEND_SIZE below a. */
  ghost predicate ExtensionTakes(v: seq<Block>, a: int) {
    exists j: nat :: StopsAt(v, 0, EXTEND_SIZE, j) && v[j].base <= a < v[j].base + EXTEND_SIZE
  }

  /** After an extension a fixed request is served exactly if it was before and the extension has not taken its first
      byte. */
  lemma FitsAfterExtension(v: seq<Block>, base: nat, size: nat)
    requires Ordered(v) && FoundAbove(v, EXTEND_SIZE) && 0 < base && base + size < TWO32
    ensures FitsAt(Final(v, 0, EXTEND_SIZE), base, size) <==> FitsAt(v, base, size) && !ExtensionTakes(v, base)
  {
    var j: nat :| StopsAt(v, 0, EXTEND_SIZE, j) && Fits(v[j], 0, EXTEND_SIZE) && v[j].base > 0;
    forall i: nat | StopsAt(v, 0, EXTEND_SIZE, i) ensures i == j {}
    hide StopsAt, FitsAt, FoundAbove;
    FitsMeans(v, base, size);
    if v[j].size == EXTEND_SIZE {
      MarkGrants(v, j);
      FitsMeans(Mark(v, j, 2), base, size);
      FitsMarked(v, j, base, size);
    } else {
      CarveGrants(v, j, EXTEND_SIZE);
      FitsMeans(Carve(v, j, EXTEND_SIZE), base, size);
      FitsCarved(v, j, EXTEND_SIZE, base, size);
    }
  }

  lemma FitsMarked(v: seq<Block>, j: nat, base: nat, size: nat)
    requires Ordered(v) && j < |v| && v[j].kind == 0
    ensures (exists i: nat :: FitsIn(Mark(v, j, 2), base, size, i))
            <==> (exists i: nat :: FitsIn(v, base, size, i)) && !Holds(v[j], base)
  {
    if i: nat :| FitsIn(Mark(v, j, 2), base, size, i) {
      assert FitsIn(v, base, size, i);
      if Holds(v[j], base) { HoldsOnce(v, base, j); }
    }
    if i: nat :| FitsIn(v, base, size, i) {
      if !Holds(v[j], base) { assert FitsIn(Mark(v, j, 2), base, size, i); }
    }
  }

  lemma FitsCarved(v: seq<Block>, j: nat, n: nat, base: nat, size: nat)
    requires Ordered(v) && j < |v| && v[j].kind == 0 && n <= v[j].size
    ensures (exists i: nat :: FitsIn(Carve(v, j, n), base, size, i))
            <==> (exists i: nat :: FitsIn(v, base, size, i)) && !(v[j].base <= base < v[j].base + n)
  {
    var w := Carve(v, j, n);
    CarveAt(v, j, n);
    hide Carve;
    if i: nat :| FitsIn(w, base, size, i) {
      assert FitsIn(v, base, size, if i <= j then i else i - 1);
      if v[j].base <= base < v[j].base + n { HoldsOnce(v, base, j); }
    }
    if i: nat :| FitsIn(v, base, size, i) {
      if !(v[j].base <= base < v[j].base + n) { assert FitsIn(w, base, size, if i < j then i else i + 1); }
    }
  }

  /** The rest of the block after a prefix is the first that an extension can use. */
  predicate RestTaken(v: seq<Block>, base: nat, i: nat)
    requires i < |v|
  {
    v[i].base + v[i].size - base >= EXTEND_SIZE && forall j | 0 <= j < i && v[j].kind == 0 :: v[j].size < EXTEND_SIZE
  }

  /** A request that splits a prefix with two nodes left fails, although it fits, exactly if the extension takes what
      follows the prefix. */
  lemma PrefixLostExact(v: seq<Block>, descriptors: nat, base: nat, size: nat, i: nat)
    requires Ordered(v) && PrefixAt(v, base, size, i) && base + size < v[i].base + v[i].size < TWO32 && v[i].kind == 0
    requires CanGrow(v, 2, descriptors, base, size)
    ensures FitsAt(v, base, size) && (Serves(Prepared(v, 2, base, size), base, size) <==> !RestTaken(v, base, i))
  {
    forall j: nat | StopsAt(v, base, size, j) ensures j == i {}
    assert FitsAt(v, base, size);
    FitsAfterPrefix(v, i, base, size);
    CarveOrdered(v, i, base - v[i].base);
    PrefixPrepares(v, base, size, i);
    hide StopsAt, Carve, FitsAt, Prepared, CanGrow;
    FoundAfter(v, descriptors, base, size, i);
    FitsAfterExtension(Carve(v, i, base - v[i].base), base, size);
    TakesRest(v, i, base);
  }

  lemma PrefixPrepares(v: seq<Block>, base: nat, size: nat, i: nat)
    requires PrefixAt(v, base, size, i)
    ensures Prepared(v, 2, base, size) == Final(Carve(v, i, base - v[i].base), 0, EXTEND_SIZE)
  {
    PrefixOnly(v, base, size, i);
    hide Final, Carve;
  }

  lemma FoundAfter(v: seq<Block>, descriptors: nat, base: nat, size: nat, i: nat)
    requires PrefixAt(v, base, size, i) && CanGrow(v, 2, descriptors, base, size)
    ensures FoundAbove(Carve(v, i, base - v[i].base), EXTEND_SIZE)
  {
    hide FoundAbove, Carve;
  }

  lemma TakesRest(v: seq<Block>, i: nat, base: nat)
    requires Ordered(v) && i < |v| && v[i].kind == 0 && v[i].base < base < v[i].base + v[i].size
    requires FoundAbove(Carve(v, i, base - v[i].base), EXTEND_SIZE)
    ensures ExtensionTakes(Carve(v, i, base - v[i].base), base) <==> RestTaken(v, base, i)
  {
    var w := Carve(v, i, base - v[i].base);
    CarveAt(v, i, base - v[i].base);
    CarveOrdered(v, i, base - v[i].base);
    hide Carve;
    var j: nat :| StopsAt(w, 0, EXTEND_SIZE, j) && Fits(w[j], 0, EXTEND_SIZE) && w[j].base > 0;
    forall l: nat | StopsAt(w, 0, EXTEND_SIZE, l) ensures l == j {}
    HoldsOnce(w, base, i + 1);
    assert ExtensionTakes(w, base) <==> j == i + 1;
    if RestTaken(v, base, i) {
      assert Stops(w[i + 1], 0, EXTEND_SIZE);
      assert j <= i + 1;
    }
    if j == i + 1 {
      forall l | 0 <= l < i && v[l].kind == 0 ensures v[l].size < EXTEND_SIZE { assert !Stops(w[l], 0, EXTEND_SIZE); }
    }
  }

  /** Such a request: one page free, two nodes, and the extension takes the 280 bytes after the prefix. */
  lemma PrefixLost()
    ensures var v := [Block(0x10_0000, 0x1000, 0)];
            && Ordered(v) && FitsAt(v, 0x10_0010, 0x100) && CanGrow(v, 2, 1, 0x10_0010, 0x100)
            && !Serves(Prepared(v, 2, 0x10_0010, 0x100), 0x10_0010, 0x100)
  {
    var v, base, size := [Block(0x10_0000, 0x1000, 0)], 0x10_0010, 0x100;
    assert StopsAt(v, base, size, 0);
    var w := Carve(v, 0, 0x10);
    CarveAt(v, 0, 0x10);
    assert StopsAt(w, 0, EXTEND_SIZE, 1) && Fits(w[1], 0, EXTEND_SIZE);
    forall j: nat | StopsAt(v, base, size, j) ensures j == 0 {}
    PrefixLostExact(v, 1, base, size, 0);
  }

  /** __memory_reserve_ex outside an extension, and memory_reserve_ex. Not ok means that a needed extension failed. */
  method MemoryReserveEx(k: Kernel, base: nat, size: nat) returns (ok: bool, p: nat)
    requires Sound(k) && base + size < TWO32
    modifies k
    ensures k.mapCache == old(k.mapCache) && k.metaCache == old(k.metaCache)
    ensures Sound(k) && Tighter(old(k.View()), k.View()) && Descriptors(k) >= old(Descriptors(k)) - 1
    ensures KeepsCaches(old(k.Caches()), k.Caches(), k.mapCache, k.mapCache, k.metaCache)
    ensures NodesFrom(old(k.View()), old(k.Own()), k.Own())
    ensures ok <==> CanGrow(old(k.View()), old(MapNodes(k)), old(Descriptors(k)), base, size)
    ensures ok ==> MapNodes(k) > 0
    ensures p != 0 ==>
              ok && Granted(old(k.View()), k.View(), p, size) && (base != 0 ==> p == base) && Clear(k.Own(), p, size)
    ensures ok ==> var v := Prepared(old(k.View()), old(MapNodes(k)), base, size);
                   && k.View() == Final(v, base, size) && (p != 0 <==> Serves(v, base, size))
                   && Descriptors(k) == DescriptorsLeft(old(k.View()), old(MapNodes(k)), old(Descriptors(k)), base,
                                                        size)
    ensures ok ==> MapNodes(k) + |k.View()| == NodesAndBlocks(old(k.View()), old(MapNodes(k)), base, size)
    decreases if NoPrefix(k.View(), base) then 0 else 1, 2
  {
    hide NodesApart, NodesSolid, ChainsOk, WidthsOk, Ordered, FreeAt, FoundAbove, Granted, Tighter, NoPrefix, Carve;
    hide Available, FitsAt, CanGrow, StopsAt, Settled, KeepsCaches, Clear;
    hide Splits, NodesFrom, Replenished, Final, Prepared, Extends, Serves, PrefixAt;
    ghost var v0, n0, d0, b0, o0 := k.View(), MapNodes(k), Descriptors(k), k.Caches(), k.Own();
    if n0 <= 1 { FewGrow(v0, n0, d0, base, size); }
    ok := Replenish(k);
    p := 0;
    if !ok {
      return;
    }
    ghost var v, b1, o1 := k.View(), k.Caches(), k.Own();
    if n0 <= 1 {
      PlentyGrows(v, MapNodes(k), Descriptors(k), base, size);
      PreparedPlain(v, MapNodes(k), base, size);
      FinalSettled(v0, v, 0, EXTEND_SIZE);
      PreparedFew(v0, n0, base, size);
    }
    var i := Search(k, base, size);
    if i == |k.blocks| {
      assert k.View() == v;
      NoStop(v, base, size);
      NowhereGrows(v, MapNodes(k), Descriptors(k), base, size);
      return;
    }
    ok, p := ReserveIn(k, base, size, i);
    KeepsTrans(b0, b1, k.Caches(), k.mapCache, k.mapCache, k.metaCache);
    NodesTrans(v0, v, o0, o1, k.Own());
    GrantedLater(v0, v, k.View(), p, size);
  }

  lemma GrantedLater(v0: seq<Block>, v: seq<Block>, w: seq<Block>, p: nat, size: nat)
    requires Tighter(v0, v) && Tighter(v, w) && (p != 0 ==> Granted(v, w, p, size))
    ensures Tighter(v0, w) && (p != 0 ==> Granted(v0, w, p, size))
  {
    TighterTrans(v0, v, w);
    if p != 0 { GrantedEarlier(v0, v, w, p, size); }
  }

  /** The body of the loop, for the block at which it stops. */
  method ReserveIn(k: Kernel, base: nat, size: nat, i: nat) returns (ok: bool, p: nat)
    requires Sound(k) && MapNodes(k) >= 2 && base + size < TWO32 && StopsAt(k.View(), base, size, i)
    modifies k
    ensures k.mapCache == old(k.mapCache) && k.metaCache == old(k.metaCache)
    ensures Sound(k) && Tighter(old(k.View()), k.View()) && Descriptors(k) >= old(Descriptors(k)) - 1
    ensures KeepsCaches(old(k.Caches()), k.Caches(), k.mapCache, k.mapCache, k.metaCache)
    ensures NodesFrom(old(k.View()), old(k.Own()), k.Own())
    ensures ok <==> CanGrow(old(k.View()), old(MapNodes(k)), old(Descriptors(k)), base, size)
    ensures ok ==> MapNodes(k) > 0
    ensures p != 0 ==>
              ok && Granted(old(k.View()), k.View(), p, size) && (base != 0 ==> p == base) && Clear(k.Own(), p, size)
    ensures ok ==> var v := Prepared(old(k.View()), old(MapNodes(k)), base, size);
                   && k.View() == Final(v, base, size) && (p != 0 <==> Serves(v, base, size))
                   && Descriptors(k) == DescriptorsLeft(old(k.View()), old(MapNodes(k)), old(Descriptors(k)), base,
                                                        size)
    ensures ok ==> MapNodes(k) + |k.View()| == NodesAndBlocks(old(k.View()), old(MapNodes(k)), base, size)
    decreases if NoPrefix(k.View(), base) then 0 else 1, 1
  {
    hide NodesApart, NodesSolid, ChainsOk, WidthsOk, Ordered, FreeAt, FoundAbove, Granted, Tighter, NoPrefix, Carve;
    hide Available, FitsAt, CanGrow, StopsAt, Settled, KeepsCaches, Clear;
    hide Splits, NodesFrom, Replenished, Final, Prepared, Extends, PrefixAt;
    ghost var v, n, d := k.View(), MapNodes(k), Descriptors(k);
    TighterSelf(v);
    KeepsSelf(k.Caches(), k.mapCache, k.mapCache, k.metaCache);
    NodesSame(v, k.Own());
    StopKind(v, base, size, i);
    if base == 0 { StopUnique(v, size, i); }
    SettledAt(v, base, size, i);
    FinalSettled(v, Taken(v, base, size, i), base, size);
    if !NeedsPrefix(v[i], base, size) {
      PlainGrows(v, n, d, base, size, i);
      PreparedStop(v, n, base, size, i);
    }
    ok, p := true, 0;
    var m := BlockAt(k.node, k.blocks[i]);
    if base == 0 && m.size >= size {
      if m.size == size {
        MarkGrants(v, i);
        p := MarkReserved(k, i);
      } else {
        CarveGrants(v, i, size);
        CarveAt(v, i, size);
        ok, p := MemorySplit(k, i, size);
      }
      GrantedClear(v, k.View(), k.Own(), p, size);
    } else {
      StopFacts(v, base, size, i);
      if Wrap(base + size) >= Wrap(m.base + m.size) {
        return;
      }
      var first := base - m.base;
      if first != 0 {
        ok, p := ReserveAfterPrefix(k, base, size, i);
      } else {
        CarveGrants(v, i, size);
        CarveAt(v, i, size);
        ok, p := MemorySplit(k, i, size);
        GrantedClear(v, k.View(), k.Own(), p, size);
      }
    }
  }

  /** memory_split(m, first_size) and the second attempt. */
  method ReserveAfterPrefix(k: Kernel, base: nat, size: nat, i: nat) returns (ok: bool, p: nat)
    requires Sound(k) && MapNodes(k) >= 2 && base + size < TWO32 && StopsAt(k.View(), base, size, i)
    requires var b := k.View()[i];
             NeedsPrefix(b, base, size) && Holds(b, base) && b.kind == 0 && base + size < b.base + b.size < TWO32
    modifies k
    ensures k.mapCache == old(k.mapCache) && k.metaCache == old(k.metaCache)
    ensures Sound(k) && Tighter(old(k.View()), k.View()) && Descriptors(k) >= old(Descriptors(k)) - 1
    ensures KeepsCaches(old(k.Caches()), k.Caches(), k.mapCache, k.mapCache, k.metaCache)
    ensures NodesFrom(old(k.View()), old(k.Own()), k.Own())
    ensures ok <==> CanGrow(old(k.View()), old(MapNodes(k)), old(Descriptors(k)), base, size)
    ensures ok ==> MapNodes(k) > 0
    ensures p != 0 ==>
              ok && Granted(old(k.View()), k.View(), p, size) && (base != 0 ==> p == base) && Clear(k.Own(), p, size)
    ensures ok ==> var v := Prepared(old(k.View()), old(MapNodes(k)), base, size);
                   && k.View() == Final(v, base, size) && (p != 0 <==> Serves(v, base, size))
                   && Descriptors(k) == DescriptorsLeft(old(k.View()), old(MapNodes(k)), old(Descriptors(k)), base,
                                                        size)
    ensures ok ==> MapNodes(k) + |k.View()| == NodesAndBlocks(old(k.View()), old(MapNodes(k)), base, size)
    decreases if NoPrefix(k.View(), base) then 0 else 1, 0
  {
    hide NodesApart, NodesSolid, ChainsOk, WidthsOk, Ordered, FreeAt, FoundAbove, Granted, Tighter, NoPrefix, Carve;
    hide Available, FitsAt, CanGrow, StopsAt, Settled, KeepsCaches, Clear;
    hide Splits, NodesFrom, Replenished, Final, Prepared, Extends, Serves;
    ghost var v, b0, o0 := k.View(), k.Caches(), k.Own();
    StopKind(v, base, size, i);
    StopFacts(v, base, size, i);
    var first := base - BlockAt(k.node, k.blocks[i]).base;
    if NoPrefix(v, base) { PrefixFree(v, base, i); }
    PrefixGone(v, i, base);
    CarveGrants(v, i, first);
    CarveAt(v, i, first);
    FitsAfterPrefix(v, i, base, size);
    GrowAfterPrefix(v, MapNodes(k), Descriptors(k), i, base, size);
    var split, q := MemorySplit(k, i, first);
    ghost var w, b1, o1 := k.View(), k.Caches(), k.Own();
    PreparedPrefix(v, MapNodes(k) + 1, base, size, i);
    ok, p := MemoryReserveEx(k, base, size);
    KeepsTrans(b0, b1, k.Caches(), k.mapCache, k.mapCache, k.metaCache);
    NodesTrans(v, w, o0, o1, k.Own());
    GrantedLater(v, w, k.View(), p, size);
  }

  // ----- memory_release

  /** The first block that begins at p. */
  ghost predicate BeginsAt(v: seq<Block>, p: int, i: nat) {
    i < |v| && v[i].base == p && forall j | 0 <= j < i :: v[j].base != p
  }

  lemma MarkedFree(v: seq<Block>, i: nat, a: int)
    requires i < |v|
    ensures FreeAt(Mark(v, i, 0), a) <==> FreeAt(v, a) || Holds(v[i], a)
  {
    var w := Mark(v, i, 0);
    if FreeAt(v, a) {
      var j :| 0 <= j < |v| && v[j].kind == 0 && Holds(v[j], a);
      assert w[j].kind == 0 && Holds(w[j], a);
    }
    if Holds(v[i], a) { assert w[i].kind == 0 && Holds(w[i], a); }
    if FreeAt(w, a) {
      var j :| 0 <= j < |w| && w[j].kind == 0 && Holds(w[j], a);
      assert j != i ==> v[j].kind == 0 && Holds(v[j], a);
    }
  }

  lemma ClearSolid(v: seq<Block>, i: nat, o: Objects)
    requires NodesSolid(v, o) && i < |v| && Clear(o, v[i].base, v[i].size)
    ensures NodesSolid(Mark(v, i, 0), o)
  {
    hide FreeAt, Mark;
    var w := Mark(v, i, 0);
    forall x, n: nat | Solid(v, x, n) && Outside(x, n, v[i].base, v[i].size) ensures Solid(w, x, n) {
      forall a | x <= a < x + n ensures !FreeAt(w, a) { MarkedFree(v, i, a); }
    }
    hide Solid;
  }

  /** What the source asks of its callers: no node, no cache and no slab lies in the block that begins at ptr. */
  ghost predicate MayRelease(k: Kernel, ptr: int)
    reads k
  {
    forall i: nat | BeginsAt(k.View(), ptr, i) :: Clear(k.Own(), k.View()[i].base, k.View()[i].size)
  }

  /** memory_release: the first block that begins at ptr becomes free, whatever it was; there is no merging. */
  method MemoryRelease(k: Kernel, ptr: int)
    requires Sound(k)
    modifies k`node
    ensures old(MayRelease(k, ptr)) ==> Sound(k)
    ensures forall i: nat | BeginsAt(old(k.View()), ptr, i) :: k.View() == Mark(old(k.View()), i, 0)
    ensures (forall i: nat :: !BeginsAt(old(k.View()), ptr, i)) ==> k.View() == old(k.View())
    ensures forall a :: CoversAt(k.View(), a) <==> CoversAt(old(k.View()), a)
  {
    hide NodesApart, NodesSolid, ChainsOk, WidthsOk, Clear, CoversAt;
    ghost var v := k.View();
    var i := 0;
    while i < |k.blocks|
      invariant 0 <= i <= |k.blocks| && k.node == old(k.node) && forall j | 0 <= j < i :: v[j].base != ptr
    {
      var m := k.blocks[i];
      if BlockAt(k.node, m).base == ptr {
        assert BeginsAt(v, ptr, i);
        Retype(k, i);
        return;
      }
      i := i + 1;
    }
  }

  /** m->type = 0 */
  method Retype(k: Kernel, i: nat)
    requires Sound(k) && i < |k.blocks|
    modifies k`node
    ensures k.View() == Mark(old(k.View()), i, 0)
    ensures Clear(k.Own(), old(k.View()[i].base), old(k.View()[i].size)) ==> Sound(k)
    ensures forall a :: CoversAt(k.View(), a) <==> CoversAt(old(k.View()), a)
  {
    hide NodesApart, NodesSolid, ChainsOk, WidthsOk, Clear, CoversAt;
    ghost var v := k.View();
    BlocksDistinct(k.Own());
    var m := k.blocks[i];
    var b := BlockAt(k.node, m);
    k.node := k.node[m := Block(b.base, b.size, 0)];
    assert k.View() == Mark(v, i, 0);
    if Clear(k.Own(), v[i].base, v[i].size) { ClearSolid(v, i, k.Own()); }
    forall a ensures CoversAt(k.View(), a) <==> CoversAt(v, a) { MarkCovers(v, i, 0, a); }
  }

  /** Releasing what was just carved makes exactly the same memory free again, though in two blocks. */
  lemma ReleaseUndoes(v: seq<Block>, i: nat, size: nat)
    requires Ordered(v) && i < |v| && size <= v[i].size && v[i].kind == 0
    ensures forall a :: FreeAt(Mark(Carve(v, i, size), i, 0), a) <==> FreeAt(v, a)
    ensures |Mark(Carve(v, i, size), i, 0)| == |v| + 1
  {
    var w := Carve(v, i, size);
    CarveAt(v, i, size);
    forall a ensures FreeAt(Mark(w, i, 0), a) <==> FreeAt(v, a) {
      CarveFree(v, i, size, a);
      MarkedFree(w, i, a);
      if v[i].base <= a < v[i].base + size { assert v[i].kind == 0 && Holds(v[i], a); }
    }
  }

  // ----- cache_free

  /** Nodes of slabs are the same or have no byte in common. */
  lemma NodesOutside(o: Objects, c: int, d: int, x: int, y: int)
    requires Homed(o.free, o.desc) && c in o.free && d in o.free && x != y
    requires NodeOf(SlabOf(o.desc, c), x) && NodeOf(SlabOf(o.desc, d), y)
    ensures Outside(x, Width(o.desc, c), y, Width(o.desc, d))
  {
    if c == d {
      if x < y { SameSlab(SlabOf(o.desc, c), x, y); } else { SameSlab(SlabOf(o.desc, c), y, x); }
    }
  }

  lemma SameSlab(d: Desc, x: int, y: int)
    requires NodeOf(d, x) && NodeOf(d, y) && x < y
    ensures x + d.bsize <= y
  {
    var i, j := (x - d.base) / d.bsize, (y - d.base) / d.bsize;
    assert x - d.base == d.bsize * i && y - d.base == d.bsize * j;
    Distributes(d.bsize, j, i);
    if j > i { AtLeastOnce(d.bsize, j - i); } else if i > j { Distributes(d.bsize, i, j); AtLeastOnce(d.bsize, i - j); }
  }

  /** ptr lies in the slab of cache c. */
  predicate InSlab(desc: map<int, Desc>, c: int, ptr: int) {
    c in desc && desc[c].base <= ptr < desc[c].base + desc[c].size
  }

  lemma NodeInside(desc: map<int, Desc>, c: int, x: int)
    requires NodeOf(SlabOf(desc, c), x)
    ensures InSlab(desc, c, x)
  {}

  /** Two caches do not have a slab at one address. */
  lemma OneSlab(o: Objects, c: int, d: int, x: int)
    requires NodesApart(o) && c in o.free && d in o.free && InSlab(o.desc, c, x) && InSlab(o.desc, d, x)
    ensures c == d
  {}

  lemma NodeSolid(v: seq<Block>, o: Objects, c: int, x: int)
    requires NodesSolid(v, o) && c in o.free && NodeOf(SlabOf(o.desc, c), x)
    ensures Solid(v, x, Width(o.desc, c))
  {
    hide FreeAt;
  }

  /** A node of its slab goes to the front of the list. */
  lemma PutFirst(v: seq<Block>, o: Objects, f: int, x: int)
    requires NodesApart(o) && NodesSolid(v, o) && f in o.free && Detached(o, x) && NodeOf(SlabOf(o.desc, f), x)
    ensures var o' := o.(free := o.free[f := [x] + o.free[f]]); NodesApart(o') && NodesSolid(v, o')
  {
    NodeSolid(v, o, f, x);
    hide Solid, SlabOf, NodeOf, Outside, Width;
    var free' := o.free[f := [x] + o.free[f]];
    forall i, j | 0 <= i < j < |free'[f]| ensures free'[f][i] != free'[f][j] {
      assert free'[f][j] == o.free[f][j - 1];
      if i > 0 { assert free'[f][i] == o.free[f][i - 1]; }
    }
  }

  /** cache_free: the node goes to the front of the free list of its slab, and a stranger is dropped. The kernel stays
      in order if an address in a slab is that of a node. */
  method CacheFree(k: Kernel, cache: int, ptr: int) returns (ghost f: int)
    requires Sound(k) && (forall c | c in Family(k.chain, cache) :: c in k.free) && Detached(k.Own(), ptr)
    modifies k`free
    ensures (forall c | c in Family(k.chain, cache) && InSlab(k.desc, c, ptr) :: NodeOf(SlabOf(k.desc, c), ptr)) ==>
              Sound(k)
    ensures (exists c :: c in Family(k.chain, cache) && InSlab(k.desc, c, ptr)) ==>
              && f in Family(k.chain, cache) && InSlab(k.desc, f, ptr) && f in old(k.free)
              && k.free == old(k.free)[f := [ptr] + old(k.free[f])]
    ensures forall c | c in Family(k.chain, cache) && NodeOf(SlabOf(k.desc, c), ptr) ::
              k.free == old(k.free)[c := [ptr] + old(k.free[c])]
    ensures (forall c | c in Family(k.chain, cache) ::
               Outside(ptr, 1, SlabOf(k.desc, c).base, SlabOf(k.desc, c).size)) ==> k.free == old(k.free)
  {
    hide NodesApart, NodesSolid, WidthsOk, Ordered, Solid, Detached, NodeOf, Family, ChainsOk;
    var l := Family(k.chain, cache);
    InOneSlab(k.Own(), l, ptr);
    var i := 0;
    f := cache;
    while i < |l|
      invariant 0 <= i <= |l| && k.free == old(k.free) && forall j | 0 <= j < i :: !InSlab(k.desc, l[j], ptr)
    {
      var c := l[i];
      if InSlab(k.desc, c, ptr) {
        f := c;
        if NodeOf(SlabOf(k.desc, c), ptr) { PutFirst(k.View(), k.Own(), c, ptr); }
        TakeChains(k.free, k.chain, k.mapCache, k.metaCache, c, [ptr] + k.free[c]);
        WidthsAt(k.Caches(), k.mapCache, k.metaCache, c, [ptr] + k.free[c]);
        k.free := k.free[c := [ptr] + k.free[c]];
        return;
      }
      i := i + 1;
    }
  }

  /** A node of one of the slabs lies in that slab, and in no other. */
  lemma InOneSlab(o: Objects, cs: seq<int>, x: int)
    requires NodesApart(o) && forall c | c in cs :: c in o.free
    ensures forall c | c in cs && NodeOf(SlabOf(o.desc, c), x) :: InSlab(o.desc, c, x)
    ensures forall c, d | c in cs && d in cs && InSlab(o.desc, c, x) && InSlab(o.desc, d, x) :: c == d
    ensures forall c | c in cs && InSlab(o.desc, c, x) ::
              !Outside(x, 1, SlabOf(o.desc, c).base, SlabOf(o.desc, c).size)
  {
    hide NodesApart, NodeOf, InSlab;
    forall c | c in cs && NodeOf(SlabOf(o.desc, c), x) ensures InSlab(o.desc, c, x) { NodeInside(o.desc, c, x); }
    forall c, d | c in cs && d in cs && InSlab(o.desc, c, x) && InSlab(o.desc, d, x) ensures c == d {
      OneSlab(o, c, d, x);
    }
    forall c | c in cs && InSlab(o.desc, c, x)
      ensures !Outside(x, 1, SlabOf(o.desc, c).base, SlabOf(o.desc, c).size)
    {
      SlabHolds(o.desc, c, x);
    }
  }

  lemma SlabHolds(desc: map<int, Desc>, c: int, x: int)
    requires InSlab(desc, c, x)
    ensures !Outside(x, 1, SlabOf(desc, c).base, SlabOf(desc, c).size)
  {}

  /** A node taken and given back at once: every free list is what it was. */
  method TakeAndFree(k: Kernel, cache: int) returns (found: bool)
    requires Sound(k) && forall c | c in Family(k.chain, cache) :: c in k.free
    modifies k`free
    ensures k.free == old(k.free) && (found <==> Available(k.free, k.chain, cache) > 0)
  {
    hide NodesApart, NodesSolid, WidthsOk, Ordered, Detached, NodeOf, Family, ChainsOk, Available, FirstWith;
    ghost var o, b, f, g := k.Own(), k.Caches(), 0, 0;
    var x;
    found, x, f := TryTake(k, cache);
    if found {
      TakeFirst(k.View(), o, f);
      TakeChains(b.free, b.chain, k.mapCache, k.metaCache, f, b.free[f][1..]);
      WidthsAt(b, k.mapCache, k.metaCache, f, b.free[f][1..]);
      g := CacheFree(k, cache, x);
      assert k.free == o.free[f := o.free[f][1..]][f := [x] + o.free[f][1..]];
      assert [x] + o.free[f][1..] == o.free[f];
    }
  }
}
