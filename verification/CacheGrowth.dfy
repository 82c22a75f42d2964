/** __cache_alloc on a cache that may be empty: the cache grows, and so, at the watermark, does metadata_cache. */
module CacheGrowth {
  import opened Words
  import opened Rings
  import opened MemMap
  import opened Caches
  import opened KMemory

  /** A cache of the callers: its family exists, is neither of the reserver's own, and has nodes of one size. */
  ghost predicate Private(a: Books, mapCache: int, metaCache: int, cache: int) {
    && Distinct(Family(a.chain, cache))
    && (forall c | c in Family(a.chain, cache) ::
          c in a.free && c !in Family(a.chain, mapCache) && c !in Family(a.chain, metaCache))
    && (forall c | c in Family(a.chain, cache) :: c in a.desc && Width(a.desc, c) == Width(a.desc, cache))
  }

  /** A slab of cache c has room for at least n nodes. */
  predicate Growable(desc: map<int, Desc>, c: int, n: nat) {
    c in desc && desc[c].bsize > 0 && desc[c].size < TWO32 && desc[c].size / desc[c].bsize >= n
  }

  /** Cache and metadata_cache are set up to grow. */
  ghost predicate Growing(a: Books, mapCache: int, metaCache: int, cache: int) {
    Private(a, mapCache, metaCache, cache) && Growable(a.desc, cache, 1) && Growable(a.desc, metaCache, 0)
  }

  /** x is a node of one of the slabs of the cache. */
  ghost predicate OwnNode(a: Books, cache: int, x: int) {
    exists c :: c in Family(a.chain, cache) && NodeOf(SlabOf(a.desc, c), x)
  }

  /** The slabs of the cache are where they were. */
  ghost predicate SlabsStay(a: Books, b: Books, cache: int) {
    forall c | c in Family(a.chain, cache) :: c in Family(b.chain, cache) && SlabOf(b.desc, c) == SlabOf(a.desc, c)
  }

  lemma OwnLater(a: Books, b: Books, cache: int, x: int)
    requires OwnNode(a, cache, x) && SlabsStay(a, b, cache)
    ensures OwnNode(b, cache, x)
  {
    hide Family, NodeOf, SlabOf;
  }

  lemma OwnIs(a: Books, cache: int, f: int, x: int)
    requires f in Family(a.chain, cache) && NodeOf(SlabOf(a.desc, f), x)
    ensures OwnNode(a, cache, x) && SlabsStay(a, a, cache)
  {
    hide Family, NodeOf, SlabOf;
  }

  /** The first free node of the family comes off its list. */
  ghost predicate Popped(a: Books, b: Books, cache: int, x: int) {
    exists f :: f in a.free && a.free[f] != [] && FirstWith(a.free, Family(a.chain, cache), f)
                && x == a.free[f][0] && b == a.(free := a.free[f := a.free[f][1..]])
  }

  // ----- exactly when a cache can grow

  /** A slab of size bytes can be had, and a descriptor is left for it. */
  ghost predicate GrowsAlone(v: seq<Block>, nodes: nat, descriptors: nat, size: nat) {
    && (nodes <= 1 ==> Replenished(v, nodes, descriptors)) && descriptors >= (if nodes <= 1 then 2 else 1)
    && FoundAbove(Prepared(v, nodes, 0, size), size)
  }

  /** The last descriptor can be spent on more of them. */
  ghost predicate MetaGrows(v: seq<Block>, nodes: nat, descriptors: nat, meta: Desc) {
    descriptors == 1 && FoundAbove(v, meta.size) && (nodes > 0 || !Splits(v, meta.size))
  }

  /** At its watermark metadata_cache grows first, and what it leaves of the map, of the nodes and of descriptors
      must do. */
  ghost predicate GrowsBoth(v: seq<Block>, nodes: nat, descriptors: nat, meta: Desc, size: nat)
    requires meta.bsize > 0
  {
    if descriptors >= 2 then GrowsAlone(v, nodes, descriptors, size)
    else MetaGrows(v, nodes, descriptors, meta)
         && GrowsAlone(Final(v, 0, meta.size), nodes - (if Splits(v, meta.size) then 1 else 0), meta.size / meta.bsize,
                       size)
  }

  /** What a slab of size bytes leaves of the map, of its nodes and of the descriptors. */
  ghost predicate SlabMade(v: seq<Block>, nodes: nat, descriptors: nat, size: nat,
                           w: seq<Block>, nodes': nat, descriptors': nat) {
    && w == Final(Prepared(v, nodes, 0, size), 0, size)
    && nodes' + |w| == NodesAndBlocks(v, nodes, 0, size)
    && descriptors' == DescriptorsLeft(v, nodes, descriptors, 0, size) - 1
  }

  /** The same where metadata_cache grows first at its watermark. */
  ghost predicate GrownTo(v: seq<Block>, nodes: nat, descriptors: nat, meta: Desc, size: nat,
                          w: seq<Block>, nodes': nat, descriptors': nat)
    requires meta.bsize > 0
  {
    if descriptors >= 2 then SlabMade(v, nodes, descriptors, size, w, nodes', descriptors')
    else
      && MetaGrows(v, nodes, descriptors, meta)
      && SlabMade(Final(v, 0, meta.size), nodes - (if Splits(v, meta.size) then 1 else 0), meta.size / meta.bsize, size,
                  w, nodes', descriptors')
  }

  /** A request for any address never splits a prefix. */
  lemma AnywhereGrows(v: seq<Block>, nodes: nat, descriptors: nat, size: nat)
    ensures CanGrow(v, nodes, descriptors, 0, size) <==> (nodes <= 1 ==> Replenished(v, nodes, descriptors))
    ensures Extends(v, nodes, 0, size) <==> nodes <= 1
  {
    hide Replenished;
  }

  /** A growth leaves a descriptor for the next one, unless nodes for the map had to be made, too. */
  lemma SpareLeft(v: seq<Block>, nodes: nat, descriptors: nat, meta: Desc, size: nat,
                  w: seq<Block>, nodes': nat, descriptors': nat)
    requires meta.bsize > 0 && meta.size / meta.bsize >= 2
    requires GrowsBoth(v, nodes, descriptors, meta, size)
    requires GrownTo(v, nodes, descriptors, meta, size, w, nodes', descriptors')
    ensures nodes >= 3 || (nodes == 2 && descriptors >= 2) ==> descriptors' >= 1
    ensures descriptors >= 2 ==> descriptors' == descriptors - if nodes <= 1 then 2 else 1
  {
    AnywhereGrows(v, nodes, descriptors, size);
    var nodes1 := nodes - if Splits(v, meta.size) then 1 else 0;
    if descriptors == 1 { AnywhereGrows(Final(v, 0, meta.size), nodes1, meta.size / meta.bsize, size); }
    hide Final, Splits, Prepared, Replenished, FoundAbove, Extends, NodesAndBlocks;
  }

  // ----- callers' caches while others grow

  lemma {:induction false} SameFree(free: Lists, free': Lists, cs: seq<int>)
    requires forall c | c in cs :: ListOf(free', c) == ListOf(free, c)
    ensures SumFree(free', cs) == SumFree(free, cs)
  {
    if cs != [] {
      assert cs[0] in cs;
      SameFree(free, free', cs[1..]);
    }
  }

  lemma PrivateSelf(a: Books, mapCache: int, metaCache: int, cache: int)
    requires Private(a, mapCache, metaCache, cache)
    ensures cache in a.free && cache != mapCache && cache != metaCache
  {
    SelfIn(a.chain, cache);
    SelfIn(a.chain, mapCache);
    SelfIn(a.chain, metaCache);
  }

  /** Growth of another family neither changes nor joins a cache of the callers. */
  lemma PrivateKept(a: Books, b: Books, owner: int, mapCache: int, metaCache: int, cache: int)
    requires ChainsOk(a.free, a.chain, mapCache, metaCache) && Private(a, mapCache, metaCache, cache)
    requires KeepsCaches(a, b, owner, mapCache, metaCache) && (owner == mapCache || owner == metaCache)
    ensures Private(b, mapCache, metaCache, cache) && Family(b.chain, cache) == Family(a.chain, cache)
    ensures Available(b.free, b.chain, cache) == Available(a.free, a.chain, cache)
    ensures forall d | d in Family(a.chain, cache) :: ListOf(b.free, d) == ListOf(a.free, d)
    ensures cache in a.desc ==> cache in b.desc && b.desc[cache] == a.desc[cache]
    ensures forall d | d in Family(a.chain, cache) :: d in a.desc && d in b.desc && b.desc[d] == a.desc[d]
  {
    var f := Family(a.chain, cache);
    assert cache == f[0] && cache in f;
    Owners(a.free, a.chain, mapCache, metaCache);
    assert owner in Family(a.chain, owner) by { assert owner == Family(a.chain, owner)[0]; }
    assert ListOf(b.chain, cache) == ListOf(a.chain, cache);
    var other := if owner == mapCache then metaCache else mapCache;
    assert Family(b.chain, other) == Family(a.chain, other);
    hide Family, ChainsOk;
    assert forall c | c in f :: Width(b.desc, c) == Width(a.desc, c);
    SameFree(a.free, b.free, f);
  }

  /** Cache c with a full slab at p is the last of the family now; the rest of it is as before. */
  ghost predicate NewSlab(a: Books, b: Books, cache: int, c: int, p: int, size: nat, bsize: nat) {
    && bsize > 0 && Family(b.chain, cache) == Family(a.chain, cache) + [c] && c !in Family(a.chain, cache)
    && ListOf(b.free, c) == Slab(p, size / bsize, bsize)
    && Available(b.free, b.chain, cache) == Available(a.free, a.chain, cache) + size / bsize
    && c in b.desc && b.desc[c] == Desc(p, size, bsize)
    && forall e | e in Family(a.chain, cache) ::
         ListOf(b.free, e) == ListOf(a.free, e) && e in a.desc && e in b.desc && b.desc[e] == a.desc[e]
  }

  /** What the books say once a slab has joined the family. */
  lemma GrownBooks(a: Books, b: Books, mapCache: int, metaCache: int, cache: int, p: int, size: nat, bsize: nat,
                   f: int)
    requires ChainsOk(a.free, a.chain, mapCache, metaCache) && Private(a, mapCache, metaCache, cache) && bsize > 0
    requires Extended(a, b, metaCache, cache, p, size, bsize, f) && a.free[f][0] !in a.free
    ensures var c, l := a.free[f][0], Slab(p, size / bsize, bsize);
            && Family(b.chain, cache) == Family(a.chain, cache) + [c] && c !in Family(a.chain, cache)
            && c !in Family(a.chain, mapCache) && c !in Family(a.chain, metaCache)
            && Family(b.chain, mapCache) == Family(a.chain, mapCache)
            && Family(b.chain, metaCache) == Family(a.chain, metaCache)
            && c in b.free && b.free[c] == l && b.desc == a.desc[c := Desc(p, size, bsize)]
            && (forall d | d in Family(a.chain, cache) :: d in a.free && d in b.free && b.free[d] == a.free[d])
            && Available(b.free, b.chain, cache) == Available(a.free, a.chain, cache) + size / bsize
  {
    var c, l := a.free[f][0], Slab(p, size / bsize, bsize);
    PrivateSelf(a, mapCache, metaCache, cache);
    Owners(a.free, a.chain, mapCache, metaCache);
    hide FirstWith, Slab, Available, Width;
    FamilyOwned(a.chain, cache, c, mapCache);
    FamilyOwned(a.chain, cache, c, metaCache);
    assert f in Family(a.chain, metaCache) && f !in Family(a.chain, cache);
    GrownCount(a, cache, f, c, l);
    FamilyGrows(a.free[f := a.free[f][1..]], a.chain, cache, c, l, cache);
    hide Family;
  }

  /** A new slab for the cache itself. */
  lemma PrivateGrown(a: Books, b: Books, mapCache: int, metaCache: int, cache: int, p: int, size: nat, bsize: nat,
                     f: int)
    requires ChainsOk(a.free, a.chain, mapCache, metaCache) && Private(a, mapCache, metaCache, cache) && bsize > 0
    requires bsize == Width(a.desc, cache)
    requires Extended(a, b, metaCache, cache, p, size, bsize, f) && a.free[f][0] !in a.free
    ensures Private(b, mapCache, metaCache, cache)
    ensures NewSlab(a, b, cache, a.free[f][0], p, size, bsize)
    ensures cache in a.desc ==> cache in b.desc && b.desc[cache] == a.desc[cache]
    ensures metaCache in a.desc ==> metaCache in b.desc && b.desc[metaCache] == a.desc[metaCache]
  {
    hide ChainsOk, Slab, Available, Family, Width, Extended;
    ExtendedBy(a, b, metaCache, cache, p, size, bsize, f);
    var c := a.free[f][0];
    GrownBooks(a, b, mapCache, metaCache, cache, p, size, bsize, f);
    PrivateSelf(a, mapCache, metaCache, cache);
    Owners(a.free, a.chain, mapCache, metaCache);
    ListedWidth(b.desc, c);
    forall d | d in Family(a.chain, cache)
      ensures d in b.desc && b.desc[d] == a.desc[d] && Width(b.desc, d) == Width(a.desc, d)
    {
      OtherWidth(a.desc, b.desc, d);
    }
    SelfIn(a.chain, cache);
    JoinedDistinct(Family(a.chain, cache), c);
  }

  lemma JoinedDistinct(cs: seq<int>, c: int)
    requires Distinct(cs) && c !in cs
    ensures Distinct(cs + [c])
  {}

  lemma ListedWidth(desc: map<int, Desc>, c: int)
    requires c in desc
    ensures Width(desc, c) == desc[c].bsize
  {}

  lemma OtherWidth(desc: map<int, Desc>, desc': map<int, Desc>, c: int)
    requires c in desc && c in desc' && desc'[c] == desc[c]
    ensures Width(desc', c) == Width(desc, c)
  {}

  lemma GrownCount(a: Books, cache: int, f: int, c: int, l: seq<int>)
    requires Distinct(Family(a.chain, cache)) && f in a.free && a.free[f] != [] && f !in Family(a.chain, cache)
    ensures Available(a.free[f := a.free[f][1..]], a.chain, cache) == Available(a.free, a.chain, cache)
  {
    SumTake(a.free, Family(a.chain, cache), f, a.free[f][1..]);
  }

  lemma SelfIn(chain: Lists, c: int)
    ensures c in Family(chain, c)
  {
    assert c == Family(chain, c)[0];
  }

  // ----- the watermark of metadata_cache

  lemma OtherOwner(a: Books, b: Books, mapCache: int, metaCache: int)
    requires KeepsCaches(a, b, mapCache, mapCache, metaCache) && b.chain == a.chain
    ensures KeepsCaches(a, b, metaCache, mapCache, metaCache)
  {
    hide Family;
  }

  /** The last free descriptor is spent on a slab of new ones. The reservation skips the map's own watermark, and can
      take the last map node. */
  method GrowMetadata(k: Kernel) returns (ok: bool)
    requires Sound(k) && Descriptors(k) <= 1 && Growable(k.desc, k.metaCache, 0)
    modifies k`free, k`blocks, k`node, k`chain, k`desc
    ensures Sound(k) && Tighter(old(k.View()), k.View())
    ensures KeepsCaches(old(k.Caches()), k.Caches(), k.metaCache, k.mapCache, k.metaCache)
    ensures NodesFrom(old(k.View()), old(k.Own()), k.Own())
    ensures ok <==> MetaGrows(old(k.View()), old(MapNodes(k)), old(Descriptors(k)), old(k.desc[k.metaCache]))
    ensures ok ==> var d := old(k.desc[k.metaCache]);
                   && k.View() == Final(old(k.View()), 0, d.size) && Descriptors(k) == d.size / d.bsize
                   && MapNodes(k) == old(MapNodes(k)) - if Splits(old(k.View()), d.size) then 1 else 0
  {
    hide NodesApart, NodesSolid, ChainsOk, WidthsOk, Ordered, FreeAt, FoundAbove, Granted, Tighter, Settled;
    hide KeepsCaches, Extended, Splits, Clear, NodesFrom;
    hide Family, Final, Available;
    ghost var v, b0, o0 := k.View(), k.Caches(), k.Own();
    MetaWidth(k);
    var d := k.desc[k.metaCache];
    var p;
    ok, p := ReserveAnywhere(k, d.size);
    FinalSettled(v, k.View(), 0, d.size);
    ghost var b1, o1, f := k.Caches(), k.Own(), 0;
    OtherOwner(b0, b1, k.mapCache, k.metaCache);
    if p == 0 {
      return false;
    }
    GrantedClear(v, k.View(), k.Own(), p, d.size);
    GrantedFree(v, k.View(), p, d.size);
    Owners(k.free, k.chain, k.mapCache, k.metaCache);
    ok, f := CacheExtend(k, k.metaCache, p, d.size, d.bsize);
    if ok {
      ExtendKeeps(b1, k.Caches(), k.metaCache, k.mapCache, k.metaCache, p, d.size, d.bsize, f);
      KeepsTrans(b0, b1, k.Caches(), k.metaCache, k.mapCache, k.metaCache);
      ExtendNodes(v, k.blocks, b1, k.Caches(), k.mapCache, k.metaCache, k.metaCache, p, d.size, d.bsize, f);
      NodesOnward(v, o0, o1, k.Own());
    }
  }

  lemma MetaWidth(k: Kernel)
    requires Sound(k) && k.metaCache in k.desc
    ensures k.desc[k.metaCache].bsize >= CACHE_NODE && k.metaCache != k.mapCache
  {
    SelfIn(k.chain, k.metaCache);
    Owners(k.free, k.chain, k.mapCache, k.metaCache);
    hide Family, NodesApart, NodesSolid, ChainsOk, Ordered;
  }

  lemma NodesOnward(v: seq<Block>, o0: Objects, o1: Objects, o2: Objects)
    requires NodesFrom(v, o0, o1) && NodesFrom(v, o1, o2)
    ensures NodesFrom(v, o0, o2)
  {
    hide Node, FreeAt;
  }

  // ----- growing the cache itself

  /** memory_reserve(c->size) and cache_extend. */
  method Grow(k: Kernel, cache: int) returns (ok: bool, ghost c: int, ghost p: nat)
    requires Sound(k) && Growing(k.Caches(), k.mapCache, k.metaCache, cache)
    modifies k
    ensures k.mapCache == old(k.mapCache) && k.metaCache == old(k.metaCache)
    ensures Sound(k) && Growing(k.Caches(), k.mapCache, k.metaCache, cache) && Tighter(old(k.View()), k.View())
    ensures NodesFrom(old(k.View()), old(k.Own()), k.Own())
    ensures k.desc[cache] == old(k.desc[cache])
    ensures ok <==> GrowsAlone(old(k.View()), old(MapNodes(k)), old(Descriptors(k)), k.desc[cache].size)
    ensures ok ==> MapNodes(k) > 0 && p != 0 && Granted(old(k.View()), k.View(), p, k.desc[cache].size)
    ensures ok ==> NewSlab(old(k.Caches()), k.Caches(), cache, c, p, k.desc[cache].size, k.desc[cache].bsize)
    ensures ok ==> SlabMade(old(k.View()), old(MapNodes(k)), old(Descriptors(k)), k.desc[cache].size,
                            k.View(), MapNodes(k), Descriptors(k))
    ensures k.desc[k.metaCache] == old(k.desc[k.metaCache])
    ensures !ok ==> SameFamily(old(k.Caches()), k.Caches(), cache)
  {
    hide NodesApart, NodesSolid, ChainsOk, WidthsOk, Ordered, FreeAt, FoundAbove, Granted, Tighter, Settled;
    hide KeepsCaches, Splits, Clear, NodesFrom, Family;
    hide NodesAndBlocks;
    hide Available, Private, NoPrefix, CanGrow, Extended, NewSlab, FitsAt, Prepared, Final, Extends, Replenished;
    ghost var v, b0, o0 := k.View(), k.Caches(), k.Own();
    var d := k.desc[cache];
    AnywhereGrows(v, MapNodes(k), Descriptors(k), d.size);
    var q;
    ok, q := MemoryReserveEx(k, 0, d.size);
    p, c := q, 0;
    ghost var b1, o1, f := k.Caches(), k.Own(), 0;
    GrowingKept(b0, b1, k.mapCache, k.mapCache, k.metaCache, cache);
    if q == 0 {
      return false, c, p;
    }
    PrivateSelf(b1, k.mapCache, k.metaCache, cache);
    GrantedFree(v, k.View(), p, d.size);
    ok, f := CacheExtend(k, cache, q, d.size, d.bsize);
    if ok {
      ExtendedBy(b1, k.Caches(), k.metaCache, cache, p, d.size, d.bsize, f);
      c := b1.free[f][0];
      PrivateGrown(b1, k.Caches(), k.mapCache, k.metaCache, cache, p, d.size, d.bsize, f);
      SlabSince(b0, b1, k.Caches(), cache, c, p, d.size, d.bsize);
      ExtendNodes(v, k.blocks, b1, k.Caches(), k.mapCache, k.metaCache, cache, p, d.size, d.bsize, f);
      NodesOnward(v, o0, o1, k.Own());
    }
  }

  lemma ExtendedBy(a: Books, b: Books, metaCache: int, owner: int, p: int, size: nat, bsize: nat, f: int)
    requires bsize > 0 && Extended(a, b, metaCache, owner, p, size, bsize, f)
    ensures f in a.free && a.free[f] != []
  {
    hide Family, FirstWith;
  }

  lemma GrowingKept(a: Books, b: Books, owner: int, mapCache: int, metaCache: int, cache: int)
    requires ChainsOk(a.free, a.chain, mapCache, metaCache) && Growing(a, mapCache, metaCache, cache)
    requires KeepsCaches(a, b, owner, mapCache, metaCache) && (owner == mapCache || owner == metaCache)
    ensures Growing(b, mapCache, metaCache, cache) && b.desc[cache] == a.desc[cache] && SameFamily(a, b, cache)
    ensures b.desc[metaCache] == a.desc[metaCache]
  {
    PrivateKept(a, b, owner, mapCache, metaCache, cache);
    Owners(a.free, a.chain, mapCache, metaCache);
    hide Private, ChainsOk, Family;
  }

  /** The cache and those chained to it have the free nodes they had. */
  ghost predicate SameFamily(a: Books, b: Books, cache: int) {
    && Family(b.chain, cache) == Family(a.chain, cache)
    && Available(b.free, b.chain, cache) == Available(a.free, a.chain, cache)
    && forall e | e in Family(a.chain, cache) ::
         ListOf(b.free, e) == ListOf(a.free, e) && e in a.desc && e in b.desc && b.desc[e] == a.desc[e]
  }

  lemma SlabSince(a: Books, b: Books, c: Books, cache: int, x: int, p: int, size: nat, bsize: nat)
    requires SameFamily(a, b, cache) && NewSlab(b, c, cache, x, p, size, bsize)
    ensures NewSlab(a, c, cache, x, p, size, bsize)
  {
    hide Family, Available;
  }

  // ----- __cache_alloc

  /** The first node of an otherwise empty family is that of the slab just added. */
  lemma FreshNode(a: Books, b: Books, cache: int, c: int, p: int, size: nat, bsize: nat, f: int)
    requires Available(a.free, a.chain, cache) == 0 && NewSlab(a, b, cache, c, p, size, bsize)
    requires FirstWith(b.free, Family(b.chain, cache), f)
    ensures f == c
  {
    var l := Family(a.chain, cache);
    SomeFree(a.free, l);
    hide Family, SumFree;
    var i: nat :| i < |l + [c]| && (l + [c])[i] == f && ListOf(b.free, f) != [];
    forall j | 0 <= j < |l| ensures ListOf(b.free, l[j]) == [] { assert l[j] in l; }
    assert i == |l|;
  }

  lemma PrivateTaken(a: Books, mapCache: int, metaCache: int, cache: int, f: int, l: seq<int>)
    requires Private(a, mapCache, metaCache, cache) && f in a.free
    ensures Private(a.(free := a.free[f := l]), mapCache, metaCache, cache)
  {
    hide Family;
  }

  /** A node comes off the free list f of the cache's family. */
  lemma TakenSound(v: seq<Block>, blocks: seq<int>, a: Books, mapCache: int, metaCache: int, cache: int, f: int)
    requires var o := Objects(blocks, a.free, a.desc); NodesApart(o) && NodesSolid(v, o)
    requires ChainsOk(a.free, a.chain, mapCache, metaCache) && WidthsOk(a, mapCache, metaCache)
    requires Private(a, mapCache, metaCache, cache) && f in Family(a.chain, cache) && f in a.free && a.free[f] != []
    ensures var free', x := a.free[f := a.free[f][1..]], a.free[f][0];
            var o' := Objects(blocks, free', a.desc);
            && NodesApart(o') && NodesSolid(v, o') && ChainsOk(free', a.chain, mapCache, metaCache)
            && WidthsOk(a.(free := free'), mapCache, metaCache)
            && Private(a.(free := free'), mapCache, metaCache, cache) && Detached(o', x)
            && Solid(v, x, Width(a.desc, cache)) && NodeOf(SlabOf(a.desc, f), x)
            && Available(free', a.chain, mapCache) == Available(a.free, a.chain, mapCache)
            && Available(free', a.chain, metaCache) == Available(a.free, a.chain, metaCache)
            && Available(free', a.chain, cache) == Available(a.free, a.chain, cache) - 1
  {
    hide NodesApart, NodesSolid, Solid, Detached, WidthsOk, NodeOf;
    TakeFirst(v, Objects(blocks, a.free, a.desc), f);
    FamilyFree(a.free, a.chain, mapCache, metaCache);
    TakeChains(a.free, a.chain, mapCache, metaCache, f, a.free[f][1..]);
    WidthsAt(a, mapCache, metaCache, f, a.free[f][1..]);
    PrivateTaken(a, mapCache, metaCache, cache, f, a.free[f][1..]);
    hide ChainsOk, Family;
    TakeCounts(a.free, a.chain, cache, mapCache, f);
    TakeCounts(a.free, a.chain, cache, metaCache, f);
  }

  lemma TakenNodes(v: seq<Block>, o: Objects, f: int)
    requires f in o.free && o.free[f] != []
    ensures NodesFrom(v, o, o.(free := o.free[f := o.free[f][1..]])) && Node(o, o.free[f][0], Width(o.desc, f))
  {
    hide FreeAt;
    assert o.free[f][0] in o.free[f];
    forall y | y in o.free[f][1..] ensures y in o.free[f] {}
  }

  /** The n bytes from x are on no list, and no memory still to be given out overlaps them; they were a node before,
      or free memory. */
  ghost predicate Handed(v: seq<Block>, o: Objects, w: seq<Block>, o': Objects, x: int, n: nat) {
    && Detached(o', x) && Solid(w, x, n) && NodesFrom(v, o, o')
    && (Node(o, x, n) || forall a | x <= a < x + n :: FreeAt(v, a))
  }

  lemma HandedOn(v: seq<Block>, o: Objects, w: seq<Block>, o1: Objects, f: int, n: nat)
    requires NodesFrom(v, o, o1) && f in o1.free && o1.free[f] != [] && n == Width(o1.desc, f)
    requires var o2, x := o1.(free := o1.free[f := o1.free[f][1..]]), o1.free[f][0]; Detached(o2, x) && Solid(w, x, n)
    ensures Handed(v, o, w, o1.(free := o1.free[f := o1.free[f][1..]]), o1.free[f][0], n)
  {
    TakenNodes(v, o1, f);
    NodesOnward(v, o, o1, o1.(free := o1.free[f := o1.free[f][1..]]));
    hide FreeAt, Solid, Detached, Node;
  }

  /** The empty cache: descriptors first, then a slab for the cache. */
  method GrowBoth(k: Kernel, cache: int) returns (ok: bool, ghost c: int, ghost p: nat)
    requires Sound(k) && Growing(k.Caches(), k.mapCache, k.metaCache, cache)
    modifies k
    ensures k.mapCache == old(k.mapCache) && k.metaCache == old(k.metaCache)
    ensures Sound(k) && Growing(k.Caches(), k.mapCache, k.metaCache, cache) && Tighter(old(k.View()), k.View())
    ensures NodesFrom(old(k.View()), old(k.Own()), k.Own())
    ensures k.desc[cache] == old(k.desc[cache])
    ensures ok <==> GrowsBoth(old(k.View()), old(MapNodes(k)), old(Descriptors(k)), old(k.desc[k.metaCache]),
                              k.desc[cache].size)
    ensures ok ==> MapNodes(k) > 0 && p != 0 && Granted(old(k.View()), k.View(), p, k.desc[cache].size)
    ensures ok ==> NewSlab(old(k.Caches()), k.Caches(), cache, c, p, k.desc[cache].size, k.desc[cache].bsize)
    ensures ok ==> GrownTo(old(k.View()), old(MapNodes(k)), old(Descriptors(k)), old(k.desc[k.metaCache]),
                           k.desc[cache].size, k.View(), MapNodes(k), Descriptors(k))
    ensures k.desc[k.metaCache] == old(k.desc[k.metaCache])
    ensures !ok ==> SameFamily(old(k.Caches()), k.Caches(), cache)
  {
    hide NodesApart, NodesSolid, ChainsOk, WidthsOk, Ordered, FreeAt, FoundAbove, Granted, Tighter, Settled;
    hide KeepsCaches, Splits, Clear, NodesFrom, Family;
    hide Available, Private, NoPrefix, SumFree, SumCounted, NewSlab, Final, Prepared, GrowsAlone, MetaGrows;
    ghost var v, b0, o0, size := k.View(), k.Caches(), k.Own(), k.desc[cache].size;
    TighterSelf(v);
    NodesSame(v, o0);
    Watermark(k.free, Family(k.chain, k.metaCache));
    DescriptorsAre(k);
    PrivateIn(b0, k.mapCache, k.metaCache, cache);
    SameSelf(b0, cache);
    var remaining := CacheRemaining(k, k.metaCache);
    ok, c, p := true, 0, 0;
    if remaining <= 2 {
      ok := GrowMetadata(k);
      GrowingKept(b0, k.Caches(), k.metaCache, k.mapCache, k.metaCache, cache);
    }
    ghost var w, b1, o1 := k.View(), k.Caches(), k.Own();
    if ok {
      ok, c, p := Grow(k, cache);
      GrantedLater(v, w, k.View(), if ok then p else 0, size);
      NodesTrans(v, w, o0, o1, k.Own());
      if ok { SlabSince(b0, b1, k.Caches(), cache, c, p, k.desc[cache].size, k.desc[cache].bsize); }
    }
  }

  lemma SameSelf(a: Books, cache: int)
    requires forall c | c in Family(a.chain, cache) :: c in a.desc
    ensures SameFamily(a, a, cache)
  {}

  lemma DescriptorsAre(k: Kernel)
    ensures Descriptors(k) == SumFree(k.free, Family(k.chain, k.metaCache))
  {}

  lemma SameStays(a: Books, b: Books, cache: int)
    requires SameFamily(a, b, cache)
    ensures SlabsStay(a, b, cache)
  {
    hide Family, Available;
  }

  lemma AddedStays(a: Books, b: Books, cache: int, c: int, p: nat, size: nat, bsize: nat)
    requires NewSlab(a, b, cache, c, p, size, bsize)
    ensures SlabsStay(a, b, cache)
  {
    hide Family, Available;
  }

  /** A cache that describes the slab at x has joined the family. */
  ghost predicate SlabAdded(a: Books, b: Books, cache: int, x: int)
    requires cache in a.desc
  {
    exists c ::
      && c !in Family(a.chain, cache) && Family(b.chain, cache) == Family(a.chain, cache) + [c]
      && c in b.desc && b.desc[c] == Desc(x, a.desc[cache].size, a.desc[cache].bsize)
      && forall e | e in Family(a.chain, cache) :: e in a.desc && e in b.desc && b.desc[e] == a.desc[e]
  }

  lemma AddedIs(a: Books, b: Books, cache: int, c: int, p: nat)
    requires cache in a.desc && NewSlab(a, b, cache, c, p, a.desc[cache].size, a.desc[cache].bsize)
    ensures SlabAdded(a, b, cache, p)
    ensures forall free :: SlabAdded(a, b.(free := free), cache, p)
  {
    hide Family, Available;
  }

  /** __cache_alloc for a cache of the callers; not ok means that a reservation failed, where the source goes on with
      a null slab or never returns. */
  method CacheAlloc(k: Kernel, cache: int) returns (ok: bool, x: int)
    requires Sound(k) && Growing(k.Caches(), k.mapCache, k.metaCache, cache)
    modifies k
    ensures k.mapCache == old(k.mapCache) && k.metaCache == old(k.metaCache)
    ensures Sound(k) && Growing(k.Caches(), k.mapCache, k.metaCache, cache) && Tighter(old(k.View()), k.View())
    ensures NodesFrom(old(k.View()), old(k.Own()), k.Own())
    ensures ok ==> Handed(old(k.View()), old(k.Own()), k.View(), k.Own(), x, k.desc[cache].bsize)
    ensures SlabsStay(old(k.Caches()), k.Caches(), cache) && (ok ==> OwnNode(k.Caches(), cache, x))
    ensures var n := old(Available(k.free, k.chain, cache));
            && (ok <==> n > 0 || GrowsBoth(old(k.View()), old(MapNodes(k)), old(Descriptors(k)),
                                           old(k.desc[k.metaCache]), k.desc[cache].size))
            && (n > 0 ==> k.View() == old(k.View()) && Available(k.free, k.chain, cache) == n - 1)
            && (n == 0 && !ok ==> Available(k.free, k.chain, cache) == 0)
            && (n == 0 && ok ==> MapNodes(k) > 0 && x > 0 && Granted(old(k.View()), k.View(), x, k.desc[cache].size)
                                 && Available(k.free, k.chain, cache) == k.desc[cache].size / k.desc[cache].bsize - 1)
    ensures k.desc[cache] == old(k.desc[cache]) && k.desc[k.metaCache] == old(k.desc[k.metaCache])
    ensures old(Available(k.free, k.chain, cache)) > 0 ==>
              && MapNodes(k) == old(MapNodes(k)) && Descriptors(k) == old(Descriptors(k))
              && Popped(old(k.Caches()), k.Caches(), cache, x)
    ensures ok && old(Available(k.free, k.chain, cache)) == 0 ==>
              && GrownTo(old(k.View()), old(MapNodes(k)), old(Descriptors(k)), old(k.desc[k.metaCache]),
                         k.desc[cache].size, k.View(), MapNodes(k), Descriptors(k))
              && SlabAdded(old(k.Caches()), k.Caches(), cache, x)
  {
    hide NodesApart, NodesSolid, ChainsOk, WidthsOk, Ordered, FreeAt, FoundAbove, Granted, Tighter, Settled;
    hide KeepsCaches, Splits, Clear, NodesFrom, Handed;
    hide Available, NoPrefix, SumFree, SumCounted, Family, FirstWith, Detached, Solid, Private, GrowsBoth;
    hide GrownTo, SlabAdded, NodeOf, OwnNode, SlabsStay;
    ghost var v, b0, o0 := k.View(), k.Caches(), k.Own();
    ghost var f;
    TighterSelf(v);
    NodesSame(v, o0);
    PrivateIn(b0, k.mapCache, k.metaCache, cache);
    ok, x, f := TryTake(k, cache);
    if ok {
      TakenSound(v, k.blocks, b0, k.mapCache, k.metaCache, cache, f);
      HandedOn(v, o0, v, o0, f, k.desc[cache].bsize);
      TakenNodes(v, o0, f);
      OwnIs(b0, cache, f, x);
      SlabsOnly(b0, k.Caches(), cache, x);
      return;
    }
    ghost var c, p;
    ok, c, p := GrowBoth(k, cache);
    if ok {
      ghost var b1 := k.Caches();
      AddedStays(b0, b1, cache, c, p, k.desc[cache].size, k.desc[cache].bsize);
      AddedIs(b0, b1, cache, c, p);
      x := TakeFresh(k, cache, v, o0, b0, c, p);
      assert k.Caches() == b1.(free := k.free);
      SlabsFree(b0, b1, cache, k.free);
    } else {
      SameStays(b0, k.Caches(), cache);
    }
  }

  /** Free lists are no part of what the slabs are. */
  lemma SlabsFree(a: Books, b: Books, cache: int, free: Lists)
    requires SlabsStay(a, b, cache)
    ensures SlabsStay(a, b.(free := free), cache)
  {
    hide Family, SlabOf;
  }

  lemma SlabsOnly(a: Books, b: Books, cache: int, x: int)
    requires b.chain == a.chain && b.desc == a.desc
    ensures SlabsStay(a, b, cache) && (OwnNode(a, cache, x) ==> OwnNode(b, cache, x))
  {
    hide Family, SlabOf, NodeOf;
  }

  lemma PrivateIn(a: Books, mapCache: int, metaCache: int, cache: int)
    requires Private(a, mapCache, metaCache, cache)
    ensures forall c | c in Family(a.chain, cache) ::
              c in a.free && c in a.desc && Width(a.desc, c) == Width(a.desc, cache)
  {
    hide Family, Width;
  }

  /** The second time round: the first node of the new slab. */
  method TakeFresh(k: Kernel, cache: int, ghost v: seq<Block>, ghost o0: Objects, ghost b0: Books, ghost c: int,
                   ghost p: nat) returns (x: int)
    requires Sound(k) && Growing(k.Caches(), k.mapCache, k.metaCache, cache)
    requires Available(b0.free, b0.chain, cache) == 0
    requires NewSlab(b0, k.Caches(), cache, c, p, k.desc[cache].size, k.desc[cache].bsize)
    requires NodesFrom(v, o0, k.Own())
    modifies k`free
    ensures Sound(k) && Growing(k.Caches(), k.mapCache, k.metaCache, cache) && NodesFrom(v, o0, k.Own())
    ensures x == p && Handed(v, o0, k.View(), k.Own(), x, k.desc[cache].bsize) && OwnNode(k.Caches(), cache, x)
    ensures Available(k.free, k.chain, cache) == k.desc[cache].size / k.desc[cache].bsize - 1
    ensures MapNodes(k) == old(MapNodes(k)) && Descriptors(k) == old(Descriptors(k))
  {
    hide NodesApart, NodesSolid, ChainsOk, WidthsOk, Ordered, FreeAt, KeepsCaches, NodesFrom, Handed, Available;
    hide SumFree, Family, FirstWith, Detached, Solid, Private, NodeOf, OwnNode, SlabsStay;
    ghost var b1, o1, f := k.Caches(), k.Own(), 0;
    var found;
    PrivateIn(b1, k.mapCache, k.metaCache, cache);
    found, x, f := TryTake(k, cache);
    FreshNode(b0, b1, cache, c, p, k.desc[cache].size, k.desc[cache].bsize, f);
    TakenSound(k.View(), k.blocks, b1, k.mapCache, k.metaCache, cache, f);
    HandedOn(v, o0, k.View(), o1, f, k.desc[cache].bsize);
    TakenNodes(v, o1, f);
    NodesOnward(v, o0, o1, k.Own());
    OwnIs(b1, cache, f, x);
    SlabsOnly(b1, k.Caches(), cache, x);
  }
}
