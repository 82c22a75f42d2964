/** Whole runs of the kernel's memory routines: what callers hold stays theirs, and the map stays a map of the same
    addresses. */
module KRuns {
  import opened Words
  import opened Rings
  import opened MemMap
  import opened Caches
  import opened KMemory
  import opened CacheGrowth

  datatype Region = Region(base: nat, size: nat)

  /** Two regions without a byte in common. */
  predicate Disjoint(r: Region, s: Region) {
    r.size == 0 || s.size == 0 || r.base + r.size <= s.base || s.base + s.size <= r.base
  }

  /** The map has r as reserved memory; an empty region is only an empty block. */
  ghost predicate Kept(v: seq<Block>, r: Region) {
    (r.size > 0 ==> Block(r.base, r.size, 2) in v) && (r.size == 0 ==> EmptyAt(v, r.base))
  }

  /** The regions callers hold. */
  ghost predicate RegionsOk(v: seq<Block>, o: Objects, live: seq<Region>) {
    && (forall r | r in live :: Kept(v, r) && Clear(o, r.base, r.size))
    && (forall i, j | 0 <= i < j < |live| :: Disjoint(live[i], live[j]))
  }

  /** The cache nodes callers hold, of n bytes each. */
  ghost predicate NodesOk(v: seq<Block>, o: Objects, live: seq<Region>, lent: seq<int>, n: nat) {
    && (forall x | x in lent ::
          Detached(o, x) && Solid(v, x, n) && forall r | r in live :: Outside(x, n, r.base, r.size))
    && Distinct(lent) && n > 0
  }

  /** What callers hold of their cache are nodes of its slabs. */
  ghost predicate HomesOk(a: Books, cache: int, lent: seq<int>) { forall x | x in lent :: OwnNode(a, cache, x) }

  lemma HomesLater(a: Books, b: Books, cache: int, lent: seq<int>)
    requires HomesOk(a, cache, lent) && SlabsStay(a, b, cache)
    ensures HomesOk(b, cache, lent)
  {
    hide OwnNode, SlabsStay;
    forall x | x in lent ensures OwnNode(b, cache, x) { OwnLater(a, b, cache, x); }
  }

  // ----- what a call that hands out nothing yet leaves alone

  lemma ReservedSolid(v: seq<Block>, r: Region, a: int)
    requires Ordered(v) && Kept(v, r) && r.base <= a < r.base + r.size
    ensures !FreeAt(v, a)
  {
    var i :| 0 <= i < |v| && v[i] == Block(r.base, r.size, 2);
    HoldsOnce(v, a, i);
  }

  lemma KeptLater(v: seq<Block>, w: seq<Block>, r: Region)
    requires Tighter(v, w) && Kept(v, r)
    ensures Kept(w, r)
  {
    hide CoversAt, FreeAt;
    assert r.size > 0 ==> Block(r.base, r.size, 2).kind != 0;
  }

  /** Memory that was free overlaps nothing kept. */
  lemma FreeOutside(v: seq<Block>, r: Region, x: int, n: nat)
    requires Ordered(v) && Kept(v, r) && forall a | x <= a < x + n :: FreeAt(v, a)
    ensures Outside(x, n, r.base, r.size)
  {
    hide FreeAt, Kept;
    var a := if x < r.base then r.base else x;
    if !Outside(x, n, r.base, r.size) { ReservedSolid(v, r, a); }
  }

  lemma ClearLater(v: seq<Block>, o: Objects, o': Objects, r: Region)
    requires Ordered(v) && Kept(v, r) && Clear(o, r.base, r.size) && NodesFrom(v, o, o')
    ensures Clear(o', r.base, r.size)
  {
    hide FreeAt, Kept, Outside, Clear, NodesFrom, Node, SlabOf;
    forall x, n: nat | Node(o', x, n) ensures Outside(x, n, r.base, r.size) { NodeLater(v, o, o', r, x, n); }
    forall c | c in o'.free ensures Outside(SlabOf(o'.desc, c).base, SlabOf(o'.desc, c).size, r.base, r.size) {
      SlabLater(v, o, o', r, c);
    }
    ClearNodes(o', r.base, r.size);
  }

  lemma NodeLater(v: seq<Block>, o: Objects, o': Objects, r: Region, x: int, n: nat)
    requires Ordered(v) && Kept(v, r) && Clear(o, r.base, r.size) && NodesFrom(v, o, o') && Node(o', x, n)
    ensures Outside(x, n, r.base, r.size)
  {
    hide FreeAt, Kept;
    if Node(o, x, n) { ClearNode(o, r.base, r.size, x, n); } else { FreeOutside(v, r, x, n); }
  }

  lemma SlabLater(v: seq<Block>, o: Objects, o': Objects, r: Region, c: int)
    requires Ordered(v) && Kept(v, r) && Clear(o, r.base, r.size) && NodesFrom(v, o, o') && c in o'.free
    ensures Outside(SlabOf(o'.desc, c).base, SlabOf(o'.desc, c).size, r.base, r.size)
  {
    hide FreeAt, Kept, Outside, Node, Ordered, SlabOf;
    if AllFree(v, SlabOf(o'.desc, c)) { FreeOutside(v, r, SlabOf(o'.desc, c).base, SlabOf(o'.desc, c).size); }
  }

  lemma ClearNode(o: Objects, p: int, size: nat, x: int, n: nat)
    requires Clear(o, p, size) && Node(o, x, n)
    ensures Outside(x, n, p, size)
  {}

  lemma ClearNodes(o: Objects, p: int, size: nat)
    requires forall x, n: nat | Node(o, x, n) :: Outside(x, n, p, size)
    requires forall c | c in o.free :: Outside(SlabOf(o.desc, c).base, SlabOf(o.desc, c).size, p, size)
    ensures Clear(o, p, size)
  {
    hide Outside, SlabOf;
    forall x | x in o.blocks ensures Outside(x, MAP_NODE, p, size) { assert Node(o, x, MAP_NODE); }
    forall c | c in o.free ensures Outside(c, CACHE_NODE, p, size) { assert Node(o, c, CACHE_NODE); }
    forall c, x | c in o.free && x in o.free[c]
      ensures Outside(x, Width(o.desc, c), p, size)
    {
      assert Node(o, x, Width(o.desc, c));
    }
  }

  lemma RegionsLater(v: seq<Block>, w: seq<Block>, o: Objects, o': Objects, live: seq<Region>)
    requires Ordered(v) && RegionsOk(v, o, live) && Tighter(v, w) && NodesFrom(v, o, o')
    ensures RegionsOk(w, o', live)
  {
    hide Kept, Clear, Tighter, NodesFrom, Disjoint;
    forall r | r in live ensures Kept(w, r) && Clear(o', r.base, r.size) {
      KeptLater(v, w, r);
      ClearLater(v, o, o', r);
    }
  }

  /** Nodes have a size. */
  ghost predicate Sized(o: Objects) { forall c | c in o.free :: Width(o.desc, c) > 0 }

  lemma DetachedNode(o: Objects, x: int, n: nat)
    requires n > 0
    ensures Detached(o, x) ==> !Node(o, x, n)
    ensures Sized(o) && !Node(o, x, 1) ==> Detached(o, x)
  {}

  /** A node in a caller's hands lies in no free memory. */
  lemma SolidNotFree(v: seq<Block>, x: int, n: nat, m: nat)
    requires Solid(v, x, n) && n > 0 && m > 0
    ensures !(forall a | x <= a < x + m :: FreeAt(v, a))
  {
    hide FreeAt;
    assert !FreeAt(v, x);
  }

  lemma LentLater(v: seq<Block>, w: seq<Block>, o: Objects, o': Objects, x: int, n: nat)
    requires Detached(o, x) && Solid(v, x, n) && n > 0 && Tighter(v, w) && NodesFrom(v, o, o') && Sized(o')
    ensures Detached(o', x) && Solid(w, x, n)
  {
    DetachedNode(o, x, 1);
    DetachedNode(o', x, 1);
    SolidNotFree(v, x, n, 1);
    hide FreeAt, Detached, Node, CoversAt, EmptyAt, Sized;
  }

  lemma NodesLater(v: seq<Block>, w: seq<Block>, o: Objects, o': Objects, live: seq<Region>, lent: seq<int>, n: nat)
    requires NodesOk(v, o, live, lent, n) && Tighter(v, w) && NodesFrom(v, o, o') && Sized(o')
    ensures NodesOk(w, o', live, lent, n)
  {
    hide Detached, Solid, Tighter, NodesFrom, Outside, Sized;
    forall x | x in lent ensures Detached(o', x) && Solid(w, x, n) { LentLater(v, w, o, o', x, n); }
  }

  // ----- memory_reserve_ex

  lemma NewRegion(v: seq<Block>, w: seq<Block>, o: Objects, live: seq<Region>, r: Region)
    requires Ordered(v) && (forall s | s in live :: Kept(v, s)) && RegionsOk(w, o, live)
    requires Granted(v, w, r.base, r.size) && Clear(o, r.base, r.size)
    ensures RegionsOk(w, o, live + [r])
  {
    GrantedKept(v, w, r);
    hide Granted, Clear, Disjoint, Kept;
    forall s | s in live ensures Disjoint(s, r) { GrantedApart(v, w, s, r); }
    forall i, j | 0 <= i < j < |live + [r]| ensures Disjoint((live + [r])[i], (live + [r])[j]) {
      assert live[i] in live;
    }
  }

  lemma GrantedKept(v: seq<Block>, w: seq<Block>, r: Region)
    requires Granted(v, w, r.base, r.size)
    ensures Kept(w, r)
  {
    hide FreeAt;
    var i :| 0 <= i < |w| && w[i] == Block(r.base, r.size, 2);
    assert r.size == 0 ==> EmptyAt(w, r.base);
  }

  lemma GrantedApart(v: seq<Block>, w: seq<Block>, s: Region, r: Region)
    requires Ordered(v) && Kept(v, s) && Granted(v, w, r.base, r.size)
    ensures Disjoint(s, r)
  {
    GrantedFree(v, w, r.base, r.size);
    hide FreeAt, Kept, Granted;
    var a := if s.base < r.base then r.base else s.base;
    if !Disjoint(s, r) { ReservedSolid(v, s, a); }
  }

  lemma NewOutside(v: seq<Block>, w: seq<Block>, o: Objects, o': Objects, live: seq<Region>, lent: seq<int>, n: nat,
                   r: Region)
    requires NodesOk(v, o, live, lent, n) && NodesOk(w, o', live, lent, n) && Granted(v, w, r.base, r.size)
    ensures NodesOk(w, o', live + [r], lent, n)
  {
    GrantedFree(v, w, r.base, r.size);
    hide FreeAt, Granted, Detached, Solid, Outside;
    forall x | x in lent ensures Outside(x, n, r.base, r.size) { SolidOutside(v, x, n, r.base, r.size); }
  }

  // ----- memory_release

  function Without(live: seq<Region>, i: nat): (w: seq<Region>)
    requires i < |live|
    ensures |w| == |live| - 1 && forall j | 0 <= j < |w| :: w[j] == live[if j < i then j else j + 1]
  {
    live[..i] + live[i + 1..]
  }

  /** What memory_release finds at the address of a region: its own block, or an empty one. */
  lemma FoundThere(v: seq<Block>, r: Region, j: nat)
    requires Ordered(v) && Kept(v, r) && BeginsAt(v, r.base, j)
    ensures v[j].size == 0 || (r.size > 0 && v[j] == Block(r.base, r.size, 2))
  {
    if r.size > 0 {
      var i :| 0 <= i < |v| && v[i] == Block(r.base, r.size, 2);
      assert !(i < j);
    } else {
      var i: nat :| i < |v| && v[i].base == r.base && v[i].size == 0;
      assert !(i < j);
    }
  }

  /** memory_release frees a region unless an empty block hides it. */
  lemma ReleaseExact(v: seq<Block>, r: Region, j: nat)
    requires Ordered(v) && r.size > 0 && Kept(v, r) && BeginsAt(v, r.base, j)
    ensures Block(r.base, r.size, 2) in Mark(v, j, 0) <==> EmptyAt(v, r.base)
  {
    var b, w := Block(r.base, r.size, 2), Mark(v, j, 0);
    FoundThere(v, r, j);
    if EmptyAt(v, r.base) {
      FoundThere(v, Region(r.base, 0), j);
      var i :| 0 <= i < |v| && v[i] == b;
      assert w[i] == b;
    } else {
      assert v[j] == b && Holds(v[j], r.base);
      HoldsOnce(v, r.base, j);
      forall i | 0 <= i < |w| ensures w[i] != b {
        if i != j { assert w[i] == v[i] && !Holds(v[i], r.base); }
      }
    }
  }

  /** Freeing block j does not touch a region that does not overlap it. */
  lemma KeptMarked(v: seq<Block>, j: nat, r: Region)
    requires Ordered(v) && j < |v| && Kept(v, r) && Disjoint(r, Region(v[j].base, v[j].size))
    ensures Kept(Mark(v, j, 0), r)
  {
    if r.size > 0 {
      var i :| 0 <= i < |v| && v[i] == Block(r.base, r.size, 2);
      assert i != j;
      assert Mark(v, j, 0)[i] == v[i];
    } else {
      MarkEmpty(v, j, 0, r.base);
    }
  }

  lemma SolidMarked(v: seq<Block>, j: nat, x: int, n: nat)
    requires j < |v| && Solid(v, x, n) && Outside(x, n, v[j].base, v[j].size)
    ensures Solid(Mark(v, j, 0), x, n)
  {
    hide FreeAt, Mark;
    forall a | x <= a < x + n ensures !FreeAt(Mark(v, j, 0), a) { MarkedFree(v, j, a); }
  }

  lemma OldRegion(v: seq<Block>, o: Objects, live: seq<Region>, i: nat, j: nat)
    requires Ordered(v) && RegionsOk(v, o, live) && i < |live| && BeginsAt(v, live[i].base, j)
    ensures j < |v| && RegionsOk(Mark(v, j, 0), o, Without(live, i)) && Clear(o, v[j].base, v[j].size)
  {
    var rest, w := Without(live, i), Mark(v, j, 0);
    FoundThere(v, live[i], j);
    var block := Region(v[j].base, v[j].size);
    forall r | r in rest ensures r in live && Disjoint(r, block) {
      var l :| 0 <= l < |rest| && rest[l] == r;
      assert r == live[if l < i then l else l + 1];
    }
    hide Kept, Mark, Ordered, Without, BeginsAt;
    forall r | r in rest ensures Kept(w, r) { KeptMarked(v, j, r); }
    assert v[j].size == 0 ==> Clear(o, v[j].base, 0);
    hide Clear, Disjoint;
    forall l, m | 0 <= l < m < |rest| ensures Disjoint(rest[l], rest[m]) {
      assert rest[l] == live[if l < i then l else l + 1] && rest[m] == live[if m < i then m else m + 1];
    }
  }

  lemma OldNodes(v: seq<Block>, o: Objects, live: seq<Region>, lent: seq<int>, n: nat, i: nat, j: nat)
    requires Ordered(v) && NodesOk(v, o, live, lent, n) && i < |live| && Kept(v, live[i])
    requires BeginsAt(v, live[i].base, j)
    ensures NodesOk(Mark(v, j, 0), o, Without(live, i), lent, n)
  {
    var rest, w := Without(live, i), Mark(v, j, 0);
    FoundThere(v, live[i], j);
    forall r | r in rest ensures r in live {
      var l :| 0 <= l < |rest| && rest[l] == r;
      assert r == live[if l < i then l else l + 1];
    }
    assert live[i] in live;
    forall x | x in lent ensures Outside(x, n, v[j].base, v[j].size) {}
    hide Kept, Mark, Ordered, BeginsAt, Outside, Detached, Without;
    forall x | x in lent ensures Solid(w, x, n) { SolidMarked(v, j, x, n); }
  }

  lemma SomethingThere(v: seq<Block>, r: Region)
    requires Kept(v, r)
    ensures exists j: nat :: BeginsAt(v, r.base, j)
  {
    var m: nat :| m < |v| && v[m].base == r.base;
    var j := FirstAtBase(v, r.base, m);
  }

  lemma {:induction false} FirstAtBase(v: seq<Block>, p: int, m: nat) returns (j: nat)
    requires m < |v| && v[m].base == p
    ensures BeginsAt(v, p, j)
    decreases m
  {
    if exists l: nat :: l < m && v[l].base == p {
      var l: nat :| l < m && v[l].base == p;
      j := FirstAtBase(v, p, l);
    } else {
      j := m;
    }
  }

  // ----- calls

  /** A call; regions and nodes are named by their place in the lists of those the callers hold. */
  datatype Call =
    | Reserve(base: nat, size: nat)
    | Release(i: nat)
    | Alloc
    | Free(i: nat)

  predicate Sane(c: Call) { c.Reserve? ==> c.base + c.size < TWO32 }

  /** The kernel is in order, and so is what the callers hold of memory and of one cache. */
  ghost predicate Running(k: Kernel, cache: int, live: seq<Region>, lent: seq<int>)
    reads k
  {
    && Sound(k) && Growing(k.Caches(), k.mapCache, k.metaCache, cache)
    && RegionsOk(k.View(), k.Own(), live) && NodesOk(k.View(), k.Own(), live, lent, k.desc[cache].bsize)
    && HomesOk(k.Caches(), cache, lent)
  }

  /** Free map nodes, free descriptors, and free nodes of the callers' cache. */
  datatype Stock = Stock(nodes: nat, descriptors: nat, own: nat)

  ghost function StockOf(a: Books, mapCache: int, metaCache: int, cache: int): Stock {
    Stock(Available(a.free, a.chain, mapCache), Available(a.free, a.chain, metaCache),
          Available(a.free, a.chain, cache))
  }

  /** The callers' cache is chained as it was, and its slabs and those of metadata_cache are described as they were. */
  ghost predicate SameSetup(a: Books, b: Books, metaCache: int, cache: int) {
    && Family(b.chain, cache) == Family(a.chain, cache)
    && (forall e | e in Family(a.chain, cache) :: e in a.desc && e in b.desc && b.desc[e] == a.desc[e])
    && metaCache in a.desc && metaCache in b.desc && b.desc[metaCache] == a.desc[metaCache]
  }

  lemma SetupKept(a: Books, b: Books, mapCache: int, metaCache: int, cache: int)
    requires Growing(a, mapCache, metaCache, cache) && Growing(b, mapCache, metaCache, cache) && SameFamily(a, b, cache)
    requires b.desc[metaCache] == a.desc[metaCache]
    ensures SameSetup(a, b, metaCache, cache)
  {
    hide Private, Family, Available;
  }

  /** What a reservation leaves. */
  ghost predicate Used(v: seq<Block>, p: Stock, base: nat, size: nat, w: seq<Block>, q: Stock) {
    && w == Final(Prepared(v, p.nodes, base, size), base, size)
    && q.nodes + |w| == NodesAndBlocks(v, p.nodes, base, size)
    && q.descriptors == DescriptorsLeft(v, p.nodes, p.descriptors, base, size) && q.own == p.own
  }

  method PerformReserve(k: Kernel, cache: int, live: seq<Region>, lent: seq<int>, base: nat, size: nat)
    returns (ok: bool, live': seq<Region>)
    requires Running(k, cache, live, lent) && base + size < TWO32
    modifies k
    ensures k.mapCache == old(k.mapCache) && k.metaCache == old(k.metaCache)
    ensures Running(k, cache, live', lent) && SameCover(old(k.View()), k.View())
    ensures ok <==> CanGrow(old(k.View()), old(MapNodes(k)), old(Descriptors(k)), base, size)
    ensures ok ==>
              && Used(old(k.View()), old(StockOf(k.Caches(), k.mapCache, k.metaCache, cache)), base, size,
                      k.View(), StockOf(k.Caches(), k.mapCache, k.metaCache, cache))
              && SameSetup(old(k.Caches()), k.Caches(), k.metaCache, cache)
    ensures if ok && Serves(Prepared(old(k.View()), old(MapNodes(k)), base, size), base, size) then
              Gained(live, live', base, size)
            else live' == live
  {
    hide Sound, Growing, RegionsOk, NodesOk, Tighter, NodesFrom, Granted, Clear, KeepsCaches, CanGrow, Serves, Prepared;
    hide Final, Extends, HomesOk, SlabsStay;
    hide NodesAndBlocks, DescriptorsLeft, Available, Family, SameSetup;
    ghost var v, b0, o, n := k.View(), k.Caches(), k.Own(), Width(k.desc, cache);
    SoundParts(k);
    CacheWidth(b0, k.mapCache, k.metaCache, cache);
    var p;
    ok, p := MemoryReserveEx(k, base, size);
    live' := live;
    GrowingKept(b0, k.Caches(), k.mapCache, k.mapCache, k.metaCache, cache);
    SetupKept(b0, k.Caches(), k.mapCache, k.metaCache, cache);
    SameStays(b0, k.Caches(), cache);
    HomesLater(b0, k.Caches(), cache, lent);
    CacheWidth(k.Caches(), k.mapCache, k.metaCache, cache);
    SoundParts(k);
    Later(v, k.View(), o, k.Own(), live, lent, n);
    if p != 0 {
      var r := Region(p, size);
      live' := live + [r];
      Kepts(v, o, live);
      NewRegion(v, k.View(), k.Own(), live, r);
      NewOutside(v, k.View(), o, k.Own(), live, lent, n, r);
    }
  }

  lemma CacheWidth(a: Books, mapCache: int, metaCache: int, cache: int)
    requires Growing(a, mapCache, metaCache, cache)
    ensures cache in a.desc && a.desc[cache].bsize == Width(a.desc, cache) > 0
  {
    hide Private;
  }

  /** One more region, of that size and where it was asked for. */
  predicate Gained(live: seq<Region>, live': seq<Region>, base: nat, size: nat) {
    && |live'| == |live| + 1 && live'[..|live|] == live
    && var r := live'[|live|]; r.size == size && r.base > 0 && (base != 0 ==> r.base == base)
  }

  ghost predicate SameCover(v: seq<Block>, w: seq<Block>) { forall a :: CoversAt(w, a) <==> CoversAt(v, a) }

  lemma SoundParts(k: Kernel)
    requires Sound(k)
    ensures Ordered(k.View()) && ChainsOk(k.free, k.chain, k.mapCache, k.metaCache) && Sized(k.Own())
  {}

  lemma Later(v: seq<Block>, w: seq<Block>, o: Objects, o': Objects, live: seq<Region>, lent: seq<int>, n: nat)
    requires Ordered(v) && RegionsOk(v, o, live) && NodesOk(v, o, live, lent, n) && Tighter(v, w) && NodesFrom(v, o, o')
    requires Sized(o')
    ensures RegionsOk(w, o', live) && NodesOk(w, o', live, lent, n) && SameCover(v, w)
  {
    RegionsLater(v, w, o, o', live);
    NodesLater(v, w, o, o', live, lent, n);
    hide RegionsOk, NodesOk, NodesFrom, CoversAt, FreeAt, EmptyAt, Sized;
  }

  lemma Kepts(v: seq<Block>, o: Objects, live: seq<Region>)
    requires RegionsOk(v, o, live)
    ensures forall s | s in live :: Kept(v, s)
  {}

  method PerformRelease(k: Kernel, cache: int, live: seq<Region>, lent: seq<int>, i: nat) returns (live': seq<Region>)
    requires Running(k, cache, live, lent) && i < |live|
    modifies k`node
    ensures Running(k, cache, live', lent) && SameCover(old(k.View()), k.View()) && live' == Without(live, i)
    ensures Freed(old(k.View()), k.View(), live[i].base)
  {
    hide Sound, Growing, RegionsOk, NodesOk, Clear, Without, BeginsAt, Mark, CoversAt, HomesOk;
    ghost var v, n := k.View(), Width(k.desc, cache);
    SoundParts(k);
    CacheWidth(k.Caches(), k.mapCache, k.metaCache, cache);
    Kepts(v, k.Own(), live);
    assert live[i] in live;
    SomethingThere(v, live[i]);
    forall j: nat | BeginsAt(v, live[i].base, j)
      ensures j < |v| && Clear(k.Own(), v[j].base, v[j].size) && RegionsOk(Mark(v, j, 0), k.Own(), Without(live, i))
      ensures NodesOk(Mark(v, j, 0), k.Own(), Without(live, i), lent, n)
    {
      OldRegion(v, k.Own(), live, i, j);
      OldNodes(v, k.Own(), live, lent, n, i, j);
    }
    MemoryRelease(k, live[i].base);
    live' := Without(live, i);
  }

  method PerformAlloc(k: Kernel, cache: int, live: seq<Region>, lent: seq<int>) returns (ok: bool, lent': seq<int>)
    requires Running(k, cache, live, lent)
    modifies k
    ensures k.mapCache == old(k.mapCache) && k.metaCache == old(k.metaCache)
    ensures Running(k, cache, live, lent') && SameCover(old(k.View()), k.View())
    ensures if ok then |lent'| == |lent| + 1 && lent'[..|lent|] == lent else lent' == lent
    ensures ok ==>
              Lent(old(k.View()), old(k.Caches()), k.View(), k.Caches(), k.mapCache, k.metaCache, cache, lent'[|lent|])
    ensures ok <==> CacheServes(old(k.View()), old(k.Caches()), old(k.mapCache), old(k.metaCache), cache)
  {
    hide Sound, RegionsOk, NodesOk, Tighter, NodesFrom, Granted, Handed, Private, GrowsBoth, GrownTo, SlabAdded, Family;
    hide Available, HomesOk, SlabsStay, OwnNode, Popped;
    ghost var v, b0, o, n := k.View(), k.Caches(), k.Own(), k.desc[cache].bsize;
    SoundParts(k);
    CacheWidth(b0, k.mapCache, k.metaCache, cache);
    var x;
    ok, x := CacheAlloc(k, cache);
    lent' := lent;
    SoundParts(k);
    Later(v, k.View(), o, k.Own(), live, lent, n);
    HomesLater(b0, k.Caches(), cache, lent);
    if ok {
      PoppedIs(b0, k.Caches(), cache, x);
      NewHome(k.Caches(), cache, lent, x);
      NewNode(v, k.View(), o, k.Own(), live, lent, n, x);
      lent' := lent + [x];
    }
  }

  lemma PoppedIs(a: Books, b: Books, cache: int, x: int)
    ensures Popped(a, b, cache, x) ==> b.chain == a.chain && b.desc == a.desc
  {
    hide Family, FirstWith;
  }

  lemma NewHome(a: Books, cache: int, lent: seq<int>, x: int)
    requires HomesOk(a, cache, lent) && OwnNode(a, cache, x)
    ensures HomesOk(a, cache, lent + [x])
  {
    hide OwnNode;
  }

  /** What handing out node x leaves: the free lists without it, or what is left of a new slab that begins with it. */
  ghost predicate Lent(v: seq<Block>, a: Books, w: seq<Block>, b: Books, mapCache: int, metaCache: int, cache: int,
                       x: int)
    requires Growable(a.desc, metaCache, 0) && Growable(a.desc, cache, 1)
  {
    var p, q := StockOf(a, mapCache, metaCache, cache), StockOf(b, mapCache, metaCache, cache);
    if p.own > 0 then w == v && Popped(a, b, cache, x) && q == p.(own := p.own - 1)
    else
      && GrownTo(v, p.nodes, p.descriptors, a.desc[metaCache], a.desc[cache].size, w, q.nodes, q.descriptors)
      && SlabAdded(a, b, cache, x) && q.own == a.desc[cache].size / a.desc[cache].bsize - 1
      && metaCache in b.desc && b.desc[metaCache] == a.desc[metaCache]
  }

  /** cache_alloc returns a node. */
  ghost predicate CacheServes(v: seq<Block>, a: Books, mapCache: int, metaCache: int, cache: int)
    requires Growable(a.desc, metaCache, 0) && Growable(a.desc, cache, 1)
  {
    || Available(a.free, a.chain, cache) > 0
    || GrowsBoth(v, Available(a.free, a.chain, mapCache), Available(a.free, a.chain, metaCache), a.desc[metaCache],
                 a.desc[cache].size)
  }

  lemma NewNode(v: seq<Block>, w: seq<Block>, o: Objects, o': Objects, live: seq<Region>, lent: seq<int>, n: nat,
                x: int)
    requires Ordered(v) && RegionsOk(v, o, live) && NodesOk(v, o, live, lent, n) && NodesOk(w, o', live, lent, n)
    requires Handed(v, o, w, o', x, n)
    ensures NodesOk(w, o', live, lent + [x], n)
  {
    hide NodesFrom, FreeAt, Disjoint, Ordered, Kept;
    forall r | r in live ensures Outside(x, n, r.base, r.size) {
      if Node(o, x, n) { ClearNode(o, r.base, r.size, x, n); } else { FreeOutside(v, r, x, n); }
    }
    forall y | y in lent ensures y != x {
      DetachedNode(o, y, n);
      SolidNotFree(v, y, n, n);
    }
    hide Outside, Detached, Solid, Node, Clear;
    var l := lent + [x];
    forall y | y in l ensures y in lent || y == x {}
    forall i, j | 0 <= i < j < |l| ensures l[i] != l[j] { assert lent[i] in lent; }
  }

  method PerformFree(k: Kernel, cache: int, live: seq<Region>, lent: seq<int>, i: nat) returns (lent': seq<int>)
    requires Running(k, cache, live, lent) && i < |lent|
    modifies k`free
    ensures Running(k, cache, live, lent') && lent' == lent[..i] + lent[i + 1..]
    ensures GivenBack(old(k.Caches()), k.Caches(), cache, lent[i])
    ensures var p := old(StockOf(k.Caches(), k.mapCache, k.metaCache, cache));
            StockOf(k.Caches(), k.mapCache, k.metaCache, cache) == p.(own := p.own + 1)
  {
    hide Sound, RegionsOk, NodesOk, Handed, InSlab, Detached, Solid, Family, Private, NodeOf, SlabOf, OwnNode, HomesOk;
    ghost var b0, f, n := k.Caches(), 0, k.desc[cache].bsize;
    PrivateIn(b0, k.mapCache, k.metaCache, cache);
    CacheWidth(b0, k.mapCache, k.metaCache, cache);
    var x := lent[i];
    LentIs(k.View(), k.Own(), live, lent, n, x);
    SoundParts(k);
    OneHome(k, cache, lent, x);
    f := CacheFree(k, cache, x);
    ReturnCounts(b0, k.mapCache, k.metaCache, cache, f, x);
    GivenIs(b0, k.Caches(), cache, f, x);
    lent' := lent[..i] + lent[i + 1..];
    FreeKeeps(k.View(), k.blocks, b0, k.mapCache, k.metaCache, cache, f, live, lent, i);
  }

  /** x is in front of the free list of the slab it is a node of; nothing else is different. */
  ghost predicate GivenBack(a: Books, b: Books, cache: int, x: int) {
    exists c :: c in Family(a.chain, cache) && NodeOf(SlabOf(a.desc, c), x) && c in a.free
                && b == a.(free := a.free[c := [x] + a.free[c]])
  }

  lemma GivenIs(a: Books, b: Books, cache: int, c: int, x: int)
    requires c in Family(a.chain, cache) && NodeOf(SlabOf(a.desc, c), x) && c in a.free
    requires b == a.(free := a.free[c := [x] + a.free[c]])
    ensures GivenBack(a, b, cache, x)
  {
    hide Family, NodeOf, SlabOf;
  }

  /** A node in callers' hands lies in one slab of the cache, and is a node of it. */
  lemma OneHome(k: Kernel, cache: int, lent: seq<int>, x: int)
    requires Sound(k) && HomesOk(k.Caches(), cache, lent) && x in lent
    requires forall c | c in Family(k.chain, cache) :: c in k.free
    ensures exists c :: c in Family(k.chain, cache) && InSlab(k.desc, c, x)
    ensures forall c | c in Family(k.chain, cache) && InSlab(k.desc, c, x) :: NodeOf(SlabOf(k.desc, c), x)
  {
    InOneSlab(k.Own(), Family(k.chain, cache), x);
    hide Sound, Family, InSlab, NodeOf, SlabOf;
    assert OwnNode(k.Caches(), cache, x);
  }

  lemma ReturnCounts(a: Books, mapCache: int, metaCache: int, cache: int, f: int, x: int)
    requires ChainsOk(a.free, a.chain, mapCache, metaCache) && Private(a, mapCache, metaCache, cache)
    requires f in Family(a.chain, cache) && f in a.free
    ensures var p := StockOf(a, mapCache, metaCache, cache);
            StockOf(a.(free := a.free[f := [x] + a.free[f]]), mapCache, metaCache, cache) == p.(own := p.own + 1)
  {
    SumTake(a.free, Family(a.chain, cache), f, [x] + a.free[f]);
    SumTake(a.free, Family(a.chain, mapCache), f, [x] + a.free[f]);
    SumTake(a.free, Family(a.chain, metaCache), f, [x] + a.free[f]);
  }

  lemma LentIs(v: seq<Block>, o: Objects, live: seq<Region>, lent: seq<int>, n: nat, x: int)
    requires NodesOk(v, o, live, lent, n) && x in lent
    ensures Detached(o, x) && Solid(v, x, n) && forall r | r in live :: Outside(x, n, r.base, r.size)
  {
    hide Detached, Solid, Outside;
  }

  /** Giving a node back, to free list f of the family. */
  lemma FreeKeeps(v: seq<Block>, blocks: seq<int>, a: Books, mapCache: int, metaCache: int, cache: int, f: int,
                  live: seq<Region>, lent: seq<int>, i: nat)
    requires Growing(a, mapCache, metaCache, cache) && i < |lent|
    requires var o := Objects(blocks, a.free, a.desc);
             RegionsOk(v, o, live) && NodesOk(v, o, live, lent, a.desc[cache].bsize)
    ensures var lent', n := lent[..i] + lent[i + 1..], a.desc[cache].bsize;
            && NodesOk(v, Objects(blocks, a.free, a.desc), live, lent', n)
            && (f in Family(a.chain, cache) && f in a.free ==>
                  var b := a.(free := a.free[f := [lent[i]] + a.free[f]]);
                  && Growing(b, mapCache, metaCache, cache) && RegionsOk(v, Objects(blocks, b.free, a.desc), live)
                  && NodesOk(v, Objects(blocks, b.free, a.desc), live, lent', n))
    ensures HomesOk(a, cache, lent) ==>
              forall free :: HomesOk(a.(free := free), cache, lent[..i] + lent[i + 1..])
  {
    var x, lent' := lent[i], lent[..i] + lent[i + 1..];
    forall y | y in lent' ensures y in lent && y != x {
      var l :| 0 <= l < |lent'| && lent'[l] == y;
      assert y == lent[if l < i then l else l + 1];
    }
    assert Distinct(lent');
    assert x in lent;
    CacheWidth(a, mapCache, metaCache, cache);
    if f in Family(a.chain, cache) && f in a.free {
      PrivateIn(a, mapCache, metaCache, cache);
      PrivateTaken(a, mapCache, metaCache, cache, f, [x] + a.free[f]);
      hide Private, Solid, Outside, Kept, Disjoint, Width, Family;
    }
  }

  /** The map, the caches and what the callers hold at one moment. */
  datatype Moment = Moment(v: seq<Block>, caches: Books, live: seq<Region>, lent: seq<int>)

  ghost function Seen(k: Kernel, live: seq<Region>, lent: seq<int>): Moment
    reads k
  {
    Moment(k.View(), k.Caches(), live, lent)
  }

  /** The cache and metadata_cache are set up. */
  ghost predicate Ready(s: Moment, metaCache: int, cache: int) {
    Growable(s.caches.desc, metaCache, 0) && Growable(s.caches.desc, cache, 1)
  }

  /** The first block that begins at p is free. */
  ghost predicate Freed(v: seq<Block>, w: seq<Block>, p: int) {
    forall j: nat | BeginsAt(v, p, j) :: w == Mark(v, j, 0)
  }

  /** What the callers hold after a call, what becomes of the map and of the caches, and whether the call is served. */
  ghost predicate Answered(c: Call, s: Moment, t: Moment, mapCache: int, metaCache: int, cache: int, ok: bool)
    requires Ready(s, metaCache, cache)
  {
    var a, b := s.caches, t.caches;
    var p, q := StockOf(a, mapCache, metaCache, cache), StockOf(b, mapCache, metaCache, cache);
    match c
    case Reserve(base, size) =>
      && t.lent == s.lent && (ok <==> CanGrow(s.v, p.nodes, p.descriptors, base, size))
      && (ok ==> Used(s.v, p, base, size, t.v, q) && SameSetup(a, b, metaCache, cache))
      && if ok && Serves(Prepared(s.v, p.nodes, base, size), base, size) then Gained(s.live, t.live, base, size)
         else t.live == s.live
    case Release(i) =>
      && ok && t.lent == s.lent && b == a
      && if i < |s.live| then t.live == Without(s.live, i) && Freed(s.v, t.v, s.live[i].base)
         else t.live == s.live && t.v == s.v
    case Alloc =>
      && t.live == s.live && (ok <==> CacheServes(s.v, a, mapCache, metaCache, cache))
      && if ok then
           && |t.lent| == |s.lent| + 1 && t.lent[..|s.lent|] == s.lent
           && Lent(s.v, a, t.v, b, mapCache, metaCache, cache, t.lent[|s.lent|])
         else t.lent == s.lent
    case Free(i) =>
      && ok && t.v == s.v && t.live == s.live && b.chain == a.chain && b.desc == a.desc
      && if i < |s.lent| then
           && t.lent == s.lent[..i] + s.lent[i + 1..] && q == p.(own := p.own + 1)
           && GivenBack(a, b, cache, s.lent[i])
         else t.lent == s.lent && b == a
  }

  /** A call that is served leaves one map, unless a release finds no block to free, and one stock of nodes: whether the
      next is served follows. */
  lemma StockDetermined(c: Call, s: Moment, t: Moment, t': Moment, mapCache: int, metaCache: int, cache: int)
    requires Ready(s, metaCache, cache)
    requires Answered(c, s, t, mapCache, metaCache, cache, true) && Answered(c, s, t', mapCache, metaCache, cache, true)
    ensures StockOf(t'.caches, mapCache, metaCache, cache) == StockOf(t.caches, mapCache, metaCache, cache)
    ensures c.Release? || t'.v == t.v
  {
    hide Available, CanGrow, CacheServes, Serves, Prepared, Final, Gained, Freed, Without, SameSetup, SlabAdded;
    hide MetaGrows, Popped, GivenBack;
    hide NodesAndBlocks, DescriptorsLeft, Splits;
  }

  /** One call; not ok means the source would go on with null or never return. */
  method Perform(k: Kernel, cache: int, live: seq<Region>, lent: seq<int>, c: Call)
    returns (ok: bool, live': seq<Region>, lent': seq<int>)
    requires Running(k, cache, live, lent) && Sane(c)
    modifies k
    ensures k.mapCache == old(k.mapCache) && k.metaCache == old(k.metaCache)
    ensures Running(k, cache, live', lent') && SameCover(old(k.View()), k.View())
    ensures Answered(c, old(Seen(k, live, lent)), Seen(k, live', lent'), k.mapCache, k.metaCache, cache, ok)
  {
    hide Sound, RegionsOk, NodesOk, Private, CoversAt, Gained, Without, CanGrow, CacheServes, Serves, Prepared, Final;
    hide Freed, Used, SameSetup, Lent, GivenBack, Available, HomesOk;
    ok, live', lent' := true, live, lent;
    match c {
      case Reserve(base, size) => ok, live' := PerformReserve(k, cache, live, lent, base, size);
      case Release(i) => if i < |live| { live' := PerformRelease(k, cache, live, lent, i); }
      case Alloc => ok, lent' := PerformAlloc(k, cache, live, lent);
      case Free(i) => if i < |lent| { lent' := PerformFree(k, cache, live, lent, i); }
    }
  }

  /** The moments of a run: the kernel as it was with nothing in the callers' hands, then what each call, served,
      makes of the one before. */
  ghost predicate Traced(script: seq<Call>, trace: seq<Moment>, done: nat, mapCache: int, metaCache: int, cache: int) {
    && done <= |script| && |trace| == done + 1 && trace[0].live == [] && trace[0].lent == []
    && (forall i | 0 <= i <= done :: Ready(trace[i], metaCache, cache))
    && (forall i | 0 <= i < done :: Answered(script[i], trace[i], trace[i + 1], mapCache, metaCache, cache, true))
  }

  lemma TraceMore(script: seq<Call>, trace: seq<Moment>, done: nat, mapCache: int, metaCache: int, cache: int,
                  t: Moment)
    requires Traced(script, trace, done, mapCache, metaCache, cache) && done < |script| && Ready(t, metaCache, cache)
    requires Answered(script[done], trace[done], t, mapCache, metaCache, cache, true)
    ensures Traced(script, trace + [t], done + 1, mapCache, metaCache, cache) && (trace + [t])[0] == trace[0]
  {
    hide Ready, Answered;
  }

  lemma RunningReady(k: Kernel, cache: int, live: seq<Region>, lent: seq<int>)
    requires Running(k, cache, live, lent)
    ensures Ready(Seen(k, live, lent), k.metaCache, cache)
  {
    hide Sound, RegionsOk, NodesOk, Private, HomesOk;
  }

  /** A script of calls, up to the first that cannot be served. */
  method RunScript(k: Kernel, cache: int, script: seq<Call>)
    returns (done: nat, live: seq<Region>, lent: seq<int>, ghost trace: seq<Moment>)
    requires Sound(k) && Growing(k.Caches(), k.mapCache, k.metaCache, cache)
    requires forall i | 0 <= i < |script| :: Sane(script[i])
    modifies k
    ensures k.mapCache == old(k.mapCache) && k.metaCache == old(k.metaCache)
    ensures done <= |script| && Running(k, cache, live, lent) && SameCover(old(k.View()), k.View())
    ensures Traced(script, trace, done, k.mapCache, k.metaCache, cache) && trace[0] == old(Seen(k, [], []))
    ensures done == |script| ==> trace[done] == Seen(k, live, lent)
    ensures done < |script| ==>
              Answered(script[done], trace[done], Seen(k, live, lent), k.mapCache, k.metaCache, cache, false)
  {
    hide Sane, CoversAt, Sound, Growing, Running, Answered, Ready, Traced;
    done, live, lent := 0, [], [];
    Start(k, cache);
    RunningReady(k, cache, live, lent);
    trace := [Seen(k, live, lent)];
    FirstMoment(script, trace, k.mapCache, k.metaCache, cache);
    var ok := true;
    while done < |script| && ok
      invariant k.mapCache == old(k.mapCache) && k.metaCache == old(k.metaCache)
      invariant done <= |script| && Running(k, cache, live, lent) && SameCover(old(k.View()), k.View())
      invariant |trace| == done + 1 && trace[0] == old(Seen(k, [], [])) && Ready(trace[done], k.metaCache, cache)
      invariant Traced(script, trace, done, k.mapCache, k.metaCache, cache)
      invariant ok ==> trace[done] == Seen(k, live, lent)
      invariant !ok ==>
                  && done < |script|
                  && Answered(script[done], trace[done], Seen(k, live, lent), k.mapCache, k.metaCache, cache, false)
      decreases |script| - done, ok
    {
      RunningReady(k, cache, live, lent);
      ok, live, lent := Perform(k, cache, live, lent, script[done]);
      RunningReady(k, cache, live, lent);
      if ok {
        TraceMore(script, trace, done, k.mapCache, k.metaCache, cache, Seen(k, live, lent));
        trace := trace + [Seen(k, live, lent)];
        done := done + 1;
      }
    }
  }

  lemma FirstMoment(script: seq<Call>, trace: seq<Moment>, mapCache: int, metaCache: int, cache: int)
    requires |trace| == 1 && trace[0].live == [] && trace[0].lent == [] && Ready(trace[0], metaCache, cache)
    ensures Traced(script, trace, 0, mapCache, metaCache, cache)
  {
    hide Ready;
  }

  lemma Start(k: Kernel, cache: int)
    requires Sound(k) && Growing(k.Caches(), k.mapCache, k.metaCache, cache)
    ensures Running(k, cache, [], [])
  {
    hide Sound, Private;
  }

  /** What the invariant means to callers: no byte in two hands, and none still to be given out. */
  lemma Exclusive(k: Kernel, cache: int, live: seq<Region>, lent: seq<int>, i: nat, a: int)
    requires Running(k, cache, live, lent) && i < |live| && live[i].base <= a < live[i].base + live[i].size
    ensures !FreeAt(k.View(), a) && CoversAt(k.View(), a)
    ensures forall j | 0 <= j < |live| && j != i :: !(live[j].base <= a < live[j].base + live[j].size)
    ensures forall x | x in lent :: !(x <= a < x + k.desc[cache].bsize)
    ensures forall x, n: nat | Node(k.Own(), x, n) :: !(x <= a < x + n)
    ensures forall c | c in k.free :: !(SlabOf(k.desc, c).base <= a < SlabOf(k.desc, c).base + SlabOf(k.desc, c).size)
  {
    hide Growing, FreeAt, Solid, Detached, Node;
    var r := live[i];
    assert r in live;
    SoundParts(k);
    ReservedSolid(k.View(), r, a);
    var m :| 0 <= m < |k.View()| && k.View()[m] == Block(r.base, r.size, 2);
    assert Holds(k.View()[m], a);
    forall j | 0 <= j < |live| && j != i ensures !(live[j].base <= a < live[j].base + live[j].size) {
      assert if j < i then Disjoint(live[j], live[i]) else Disjoint(live[i], live[j]);
    }
    forall x, n: nat | Node(k.Own(), x, n) ensures !(x <= a < x + n) { ClearNode(k.Own(), r.base, r.size, x, n); }
  }

  /** Likewise for the nodes in callers' hands: their bytes are neither free memory nor in a region nor in another node,
      free or not. */
  lemma LentExclusive(k: Kernel, cache: int, live: seq<Region>, lent: seq<int>, x: int, a: int)
    requires Running(k, cache, live, lent) && x in lent && x <= a < x + k.desc[cache].bsize
    ensures !FreeAt(k.View(), a) && forall r | r in live :: !(r.base <= a < r.base + r.size)
    ensures forall y | y in lent && y != x :: !(y <= a < y + k.desc[cache].bsize)
    ensures forall c, y | c in k.free && y in k.free[c] :: !(y <= a < y + Width(k.desc, c))
  {
    var n := k.desc[cache].bsize;
    forall y | y in lent && y != x ensures !(y <= a < y + n) { LentApart(k, cache, live, lent, x, y); }
    forall c, y | c in k.free && y in k.free[c] ensures !(y <= a < y + Width(k.desc, c)) {
      LentOrFree(k, cache, live, lent, x, c, y);
    }
    hide Sound, Growing, FreeAt, Detached, HomesOk, Width;
  }

  lemma HomeOf(k: Kernel, cache: int, live: seq<Region>, lent: seq<int>, x: int) returns (c: int)
    requires Running(k, cache, live, lent) && x in lent
    ensures c in k.free && NodeOf(SlabOf(k.desc, c), x) && Width(k.desc, c) == k.desc[cache].bsize
    ensures Homed(k.free, k.desc) && Detached(k.Own(), x)
  {
    hide NodesSolid, ChainsOk, WidthsOk, Ordered, Homed, NodeOf, Detached, Outside, Solid;
    PrivateIn(k.Caches(), k.mapCache, k.metaCache, cache);
    CacheWidth(k.Caches(), k.mapCache, k.metaCache, cache);
    hide Family, Width, SlabOf, Private;
    assert OwnNode(k.Caches(), cache, x);
    c :| c in Family(k.chain, cache) && NodeOf(SlabOf(k.desc, c), x);
  }

  lemma LentApart(k: Kernel, cache: int, live: seq<Region>, lent: seq<int>, x: int, y: int)
    requires Running(k, cache, live, lent) && x in lent && y in lent && x != y
    ensures Outside(x, k.desc[cache].bsize, y, k.desc[cache].bsize)
  {
    var c := HomeOf(k, cache, live, lent, x);
    var d := HomeOf(k, cache, live, lent, y);
    NodesOutside(k.Own(), c, d, x, y);
  }

  lemma LentOrFree(k: Kernel, cache: int, live: seq<Region>, lent: seq<int>, x: int, d: int, y: int)
    requires Running(k, cache, live, lent) && x in lent && d in k.free && y in k.free[d]
    ensures Outside(x, k.desc[cache].bsize, y, Width(k.desc, d))
  {
    var c := HomeOf(k, cache, live, lent, x);
    NodesOutside(k.Own(), c, d, x, y);
  }
}
