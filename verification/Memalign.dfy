/** internal_memalign. */
module Memalign {
  import opened Words
  import opened Rings
  import opened Tries
  import opened Bins
  import opened Tiling
  import opened TagOps
  import opened Segments
  import opened Coalesce
  import opened State
  import opened Keeping
  import opened Consolidate
  import opened AllocOps
  import opened Freeing
  import opened Sbrk
  import opened Morecore
  import opened Heap
  import opened SysInstall
  import opened SysAsk
  import opened SysAlloc
  import opened Realloc

  // ----- the alignment becomes a power of two

  /** (x & (x - 1)) == 0 for x > 0 */
  predicate IsPow2(x: nat) { x == 1 || (x > 1 && x % 2 == 0 && IsPow2(x / 2)) }

  lemma {:induction false} Pow2Multiple(x: nat, k: nat)
    requires IsPow2(x) && IsPow2(k) && k <= x
    ensures exists q: nat :: x == k * q
  {
    if k == 1 {
      assert x == k * x;
    } else {
      Pow2Multiple(x / 2, k / 2);
      var q: nat :| x / 2 == (k / 2) * q;
      TwiceProduct(k / 2, q);
      assert x == k * q;
    }
  }

  lemma TwiceProduct(k: nat, q: nat)
    ensures 2 * (k * q) == (2 * k) * q
  {}

  lemma Sixteen()
    ensures IsPow2(16) && IsPow2(8)
  {
    assert IsPow2(2) && IsPow2(4);
  }

  /** a after k rounds of the doubling loop. */
  function Doubled(k: nat): nat { if k == 0 then 16 else Wrap(2 * Doubled(k - 1)) }

  /** The loop comes to an end exactly when the alignment is at most 2^31. */
  lemma DoublingEnds(alignment: nat)
    requires alignment < TWO32
    ensures (exists k: nat :: Doubled(k) >= alignment) <==> alignment <= HALF32
  {
    hide Doubled, Pow2;
    if alignment <= HALF32 {
      Reaches(27, alignment);
    } else {
      forall k: nat ensures Doubled(k) < alignment { if k <= 27 { DoubledValue(k); } else { DoubledZero(k); } }
    }
  }

  lemma Reaches(k: nat, alignment: nat)
    requires k == 27 && alignment <= HALF32
    ensures exists j: nat :: Doubled(j) >= alignment
  {
    hide Doubled, Pow2;
    DoubledValue(k);
    Power27();
    assert Doubled(k) >= alignment;
  }

  lemma {:induction false} DoubledValue(k: nat)
    requires k <= 27
    ensures Doubled(k) == 16 * Pow2(k) <= HALF32
  {
    PowerBound(k);
    if k > 0 { DoubledValue(k - 1); }
  }

  lemma {:induction false} PowerBound(k: nat)
    requires k <= 27
    ensures Pow2(k) <= 0x800_0000
  {
    if k < 27 {
      Pow2Mono(k, 27);
    }
    Power27();
  }

  lemma Power27()
    ensures Pow2(27) == 0x800_0000
  {
    assert Pow2(9) == 512;
    Pow2Add(9, 9);
    Pow2Add(18, 9);
  }

  lemma {:induction false} DoubledZero(k: nat)
    requires k > 27
    ensures Doubled(k) == 0
  {
    if k == 28 {
      DoubledValue(27);
      Power27();
    } else {
      DoubledZero(k - 1);
    }
  }

  /** The doubling loop: the least power of two, from 16 on, that reaches the alignment. */
  method RoundAlignment(alignment: nat) returns (a: nat)
    requires MIN_CHUNK_SIZE <= alignment <= HALF32
    ensures IsPow2(a) && alignment <= a < 2 * alignment && a <= HALF32
  {
    Sixteen();
    a := MALLOC_ALIGNMENT * 2;
    while a < alignment
      invariant IsPow2(a) && 16 <= a < 2 * alignment && a <= HALF32
      decreases alignment - a
    {
      BelowHalf(a);
      a := Wrap(2 * a);
    }
  }

  /** A power of two below 2^31 is at most 2^30. */
  lemma BelowHalf(a: nat)
    requires IsPow2(a) && 16 <= a < HALF32
    ensures 2 * a <= HALF32 && IsPow2(2 * a)
  {
    hide Pow2, IsPow2;
    TwicePow2(a);
    if a >= 0x4000_0000 {
      Pow2OfTwo(30);
      Power30();
      Pow2Multiple(a, 0x4000_0000);
      var q: nat :| a == 0x4000_0000 * q;
      OnceOnly(a, q);
    }
  }

  lemma TwicePow2(a: nat)
    requires IsPow2(a)
    ensures IsPow2(2 * a)
  {
    assert 2 * a / 2 == a;
  }

  lemma OnceOnly(a: nat, q: nat)
    requires a == 0x4000_0000 * q && 0x4000_0000 <= a < HALF32
    ensures a == 0x4000_0000
  {}

  lemma {:induction false} Pow2OfTwo(k: nat)
    ensures IsPow2(Pow2(k))
  {
    if k > 0 { Pow2OfTwo(k - 1); }
  }

  lemma Power30()
    ensures Pow2(30) == 0x4000_0000
  {
    Power27();
    Pow2Add(27, 3);
    assert Pow2(3) == 8;
  }

  // ----- finding the aligned spot

  /** mem rounded up to a multiple of a, as a chunk address. */
  function AlignedSpot(mem: nat, a: nat): int
    requires a > 0
  {
    var up := Wrap(mem + a - 1);
    up - up % a - 8
  }

  lemma Pow2By8(a: nat)
    requires IsPow2(a) && a >= 16
    ensures a % 8 == 0
  {
    Sixteen();
    Pow2Multiple(a, 8);
    var q: nat :| a == 8 * q;
  }

  lemma MultipleUp(mem: nat, a: nat) returns (q: nat)
    requires a > 0 && mem % a != 0
    ensures var u := (mem + a - 1) - (mem + a - 1) % a; u == a * q && mem < u < mem + a
  {
    var t := mem + a - 1;
    q := t / a;
    assert t == a * q + t % a;
    if a * q == mem { MultipleMod(a, q, mem); }
  }

  lemma Product8(a: nat, q: nat)
    requires a % 8 == 0
    ensures (a * q) % 8 == 0
  {
    var b := a / 8;
    assert a * q == 8 * (b * q);
  }

  lemma NextMultiple(a: nat, q: nat)
    requires a > 0
    ensures (a * q) % a == 0 && (a * q + a) % a == 0
  {
    MultipleMod(a, q, a * q);
    assert a * q + a == a * (q + 1);
    MultipleMod(a, q + 1, a * q + a);
  }

  /** The first aligned spot that leaves room for a chunk below it. */
  lemma SpotFacts(p: nat, a: nat)
    requires IsPow2(a) && a >= 16 && p % 8 == 0 && (p + 8) % a != 0 && p + 8 + a <= TWO32
    ensures var br := AlignedSpot(p + 8, a);
            var pos := if br - p >= MIN_CHUNK_SIZE then br else br + a;
            && (pos + 8) % a == 0 && (pos - p) % 8 == 0 && MIN_CHUNK_SIZE <= pos - p <= a + 8
  {
    hide IsPow2, AlignedSpot;
    Pow2By8(a);
    var q := MultipleUp(p + 8, a);
    Product8(a, q);
    NextMultiple(a, q);
    SpotAt(p + 8, a, a * q);
    SpotRange(p, a, a * q);
  }

  lemma SpotRange(p: nat, a: nat, u: nat)
    requires a >= 16 && a % 8 == 0 && p % 8 == 0 && u % 8 == 0 && p + 8 < u < p + 8 + a
    ensures var br := u - 8;
            var pos := if br - p >= MIN_CHUNK_SIZE then br else br + a;
            (pos == u - 8 || pos == u + a - 8) && (pos - p) % 8 == 0 && MIN_CHUNK_SIZE <= pos - p <= a + 8
  {
    Mod8(u - 8, p);
    Mod8(u - 8 + a, p);
  }

  lemma SpotAt(mem: nat, a: nat, u: nat)
    requires a > 0 && mem + a <= TWO32 && u == (mem + a - 1) - (mem + a - 1) % a
    ensures AlignedSpot(mem, a) == u - 8
  {}

  // ----- giving back the leader and the tail

  /** p is handed out with at least nb bytes and little to spare; other held chunks are as before. */
  ghost predicate AllocatedNear(g: Tags, g': Tags, p: int, nb: nat) {
    && p !in LiveOf(g) && LiveOf(g') == LiveOf(g) + {p} && p in g'.tiles
    && nb <= g'.tiles[p].size
    && (forall q | q in LiveOf(g) :: q in g.tiles && q in g'.tiles && g'.tiles[q] == g.tiles[q])
  }

  /** The leader is freed, the rest of the chunk is kept. */
  method GiveLeader(m: MState, ghost g: Tags, p: int, leadsize: nat, newsize: nat, ghost nb: nat)
    requires m.Valid() && AllocatedNear(g, m.G(), p, leadsize + nb) && Held(m.G(), p) && CanSplit(m.G(), p, leadsize)
    requires newsize == m.tiles[p].size - leadsize >= nb && TagsOk(g) && p !in m.guard.kept
    modifies m`smallmap, m`treemap, m`treebins, m`fd, m`bk, m`child, m`parent, m`index, m`v
    modifies m`head, m`foot, m`tiles, m`top, m`topsize, m`dv, m`dvsize
    ensures m.Valid() && AllocatedNear(g, m.G(), p + leadsize, nb) && m.tiles[p + leadsize].size == newsize
  {
    hide TagsOk, SegsOk, BinsInv, Known, Match, FootprintOk, GoodSize, LiveOf, Freed, AllocatedNear, KeptOk;
    ghost var g1 := m.G();
    CutInUse(m, p, leadsize, newsize);
    ghost var g2 := m.G();
    LeaderLive(g, g1, p, leadsize, nb);
    DisposeChunk(m, p, leadsize);
    FreedLive(g2, p, m.G());
    LeaderGone(g, g1, g2, m.G(), p, leadsize, nb);
  }

  lemma LeaderLive(g: Tags, g1: Tags, p: int, leadsize: nat, nb: nat)
    requires AllocatedNear(g, g1, p, leadsize + nb) && Held(g1, p) && 0 < leadsize < g1.tiles[p].size
    requires p + leadsize !in g1.tiles && p + leadsize !in g1.recs
    ensures Held(SplitTags(g1, p, leadsize), p) && SplitTags(g1, p, leadsize).tiles[p].size == leadsize
  {}

  lemma LeaderGone(g: Tags, g1: Tags, g2: Tags, g3: Tags, p: int, leadsize: nat, nb: nat)
    requires AllocatedNear(g, g1, p, leadsize + nb) && Held(g1, p) && 0 < leadsize < g1.tiles[p].size
    requires p + leadsize !in g1.tiles && p + leadsize !in g1.recs && g2 == SplitTags(g1, p, leadsize)
    requires LiveOf(g3) == LiveOf(g2) - {p}
    requires forall q | q in LiveOf(g2) && q != p :: q in g2.tiles && q in g3.tiles && g3.tiles[q] == g2.tiles[q]
    ensures AllocatedNear(g, g3, p + leadsize, nb) && g3.tiles[p + leadsize].size == g1.tiles[p].size - leadsize
  {
    hide LiveOf;
    CutLive(g1, p, leadsize);
    assert p + leadsize in LiveOf(g2) && p + leadsize != p;
    OldInOld(g, g1, p, leadsize + nb, p + leadsize);
  }

  lemma OldInOld(g: Tags, g1: Tags, p: int, nb: nat, r: int)
    requires AllocatedNear(g, g1, p, nb) && r !in g1.tiles
    ensures r !in LiveOf(g)
  {}

  /** What is kept of size bytes: what the request needs, if more than a smallest chunk is left over. */
  function WithoutTail(size: nat, nb: nat): nat { if size > nb + MIN_CHUNK_SIZE then nb else size }

  /** The first aligned spot in a chunk at q that has no leader below it or one large enough to be a chunk. */
  ghost predicate FirstSpot(q: int, p: int, a: nat) {
    MultipleOf(p + 8, a) && LegalLeader(q, p) && forall x | q <= x < p && LegalLeader(q, x) :: !MultipleOf(x + 8, a)
  }

  predicate LegalLeader(q: int, p: int) { p == q || p >= q + MIN_CHUNK_SIZE }

  predicate MultipleOf(x: int, a: nat) { a > 0 && x % a == 0 }

  /** p is what is left of the chunk of size bytes at q: it begins at the first aligned spot, and loses its tail. */
  ghost predicate CutOut(q: int, size: nat, p: int, psize: nat, a: nat, nb: nat) {
    FirstSpot(q, p, a) && p <= q + size && psize == WithoutTail(q + size - p, nb)
  }

  /** The block is cut out of the chunk dlmalloc hands out for the padded request. */
  ghost predicate AlignedFrom(g: Tags, p: Position, sz: Sizes, dv: int, dvsize: nat, g': Tags, x: int, a: nat,
                              bytes: nat)
    requires bytes + a < MAX_REQUEST
  {
    && x in g'.tiles
    && exists q: int, size: nat ::
         && HandsOut(g, p, sz, dv, dvsize, Padded(bytes, a), q)
         && (size == Request2Size(Padded(bytes, a)) || (q in g.tiles && size == g.tiles[q].size))
         && CutOut(q, size, x, g'.tiles[x].size, a, Request2Size(bytes))
  }

  lemma AlignedIs(g: Tags, p: Position, sz: Sizes, dv: int, dvsize: nat, g1: Tags, q: int, g': Tags, x: int, a: nat,
                  bytes: nat)
    requires bytes + a < MAX_REQUEST && HandsOut(g, p, sz, dv, dvsize, Padded(bytes, a), q)
    requires Allocated(g, g1, q, Request2Size(Padded(bytes, a))) && x in g'.tiles
    requires CutOut(q, g1.tiles[q].size, x, g'.tiles[x].size, a, Request2Size(bytes))
    ensures AlignedFrom(g, p, sz, dv, dvsize, g', x, a, bytes)
  {
    hide HandsOut, CutOut, Request2Size, LiveOf;
  }

  lemma AtOnce(p: int, a: nat)
    requires MultipleOf(p + 8, a)
    ensures FirstSpot(p, p, a)
  {}

  /** Multiples are a apart. */
  lemma ApartBy(x: int, y: int, a: nat)
    requires MultipleOf(x, a) && MultipleOf(y, a) && x < y
    ensures x + a <= y
  {
    var i, j := x / a, y / a;
    assert x == a * i && y == a * j;
    Distributes(a, j, i);
    if j > i { AtLeastOnce(a, j - i); } else { Distributes(a, i, j); }
    if i > j { AtLeastOnce(a, i - j); }
  }

  lemma SpotFirst(q: int, p: int, a: nat)
    requires MultipleOf(p + 8, a) && !MultipleOf(q + 8, a) && q + MIN_CHUNK_SIZE <= p <= q + a + 8
    ensures FirstSpot(q, p, a)
  {
    hide MultipleOf;
    forall x | q <= x < p && LegalLeader(q, x) ensures !MultipleOf(x + 8, a) {
      if MultipleOf(x + 8, a) { ApartBy(x + 8, p + 8, a); }
    }
  }

  /** Spare room at the end goes back. */
  method GiveTail(m: MState, ghost g: Tags, p: int, nb: nat)
    requires m.Valid() && AllocatedNear(g, m.G(), p, nb) && Held(m.G(), p) && GoodSize(nb) && p !in m.guard.kept
    modifies m`smallmap, m`treemap, m`treebins, m`fd, m`bk, m`child, m`parent, m`index, m`v
    modifies m`head, m`foot, m`tiles, m`top, m`topsize, m`dv, m`dvsize
    ensures m.Valid() && AllocatedNear(g, m.G(), p, nb) && m.tiles[p].size == WithoutTail(old(m.tiles[p].size), nb)
  {
    hide TagsOk, SegsOk, BinsInv, Known, Match, FootprintOk, LiveOf, Freed, AllocatedNear, Resized, KeptOk;
    ghost var g1 := m.G();
    ChunkFacts(m.segs, m.least, g1, p);
    NearSize(g, g1, p, nb);
    var size := ChunkSize(m.head, p);
    if size > nb + MIN_CHUNK_SIZE {
      var rest := size - nb;
      ghost var c := m.Words();
      CutInUse(m, p, nb, rest);
      NotKept(m.guard, c, g1, p + nb);
      DisposeChunk(m, p + nb, rest);
      CutReleased(g1, p, nb, m.G());
      NearResized(g, g1, m.G(), p, nb);
    }
  }

  lemma NearSize(g: Tags, g1: Tags, p: int, nb: nat)
    requires AllocatedNear(g, g1, p, nb)
    ensures p in g1.tiles && nb <= g1.tiles[p].size
  {}

  lemma NearResized(g: Tags, g1: Tags, g2: Tags, p: int, nb: nat)
    requires AllocatedNear(g, g1, p, nb) && Resized(g1, g2, p, nb)
    ensures AllocatedNear(g, g2, p, nb)
  {}

  // ----- internal_memalign

  /** How much is asked for: room for an aligned chunk and a leader below it. */
  lemma RequestRoom(bytes: nat, a: nat)
    requires 16 <= a <= HALF32 && a % 8 == 0 && bytes < MAX_REQUEST - a
    ensures var nb := Request2Size(bytes);
            var req := nb + a + MIN_CHUNK_SIZE - CHUNK_OVERHEAD;
            && GoodSize(nb) && req < TWO32 && nb >= bytes + CHUNK_OVERHEAD
            && (req < MAX_REQUEST ==> Request2Size(req) >= nb + a + MIN_CHUNK_SIZE)
            && req <= bytes + a + 32
  {
    Request2SizeTight(bytes);
    Request2SizeBound(bytes);
    var req := Request2Size(bytes) + a + MIN_CHUNK_SIZE - CHUNK_OVERHEAD;
    if req < MAX_REQUEST {
      Request2SizeTight(req);
    }
  }

  lemma Request2SizeBound(bytes: nat)
    requires bytes < MAX_REQUEST
    ensures Request2Size(bytes) <= bytes + 16
  {}

  /** The alignment used: the least power of two from the one asked for and 16 on. */
  ghost predicate RoundsTo(alignment: nat, a: nat) {
    IsPow2(a) && if alignment < MIN_CHUNK_SIZE then a == MIN_CHUNK_SIZE else alignment <= a < 2 * alignment
  }

  /** Only one power of two is in question. */
  lemma RoundsUnique(alignment: nat, a: nat, b: nat)
    requires RoundsTo(alignment, a) && RoundsTo(alignment, b)
    ensures a == b
  {
    hide IsPow2;
    if a >= b {
      Pow2Multiple(a, b);
      var q: nat :| a == b * q;
      if q >= 2 { Twice(b, q); }
    } else {
      Pow2Multiple(b, a);
      var q: nat :| b == a * q;
      if q >= 2 { Twice(a, q); }
    }
  }

  lemma Twice(a: nat, q: nat)
    requires q >= 2
    ensures a * q >= 2 * a
  {}

  function Padded(bytes: nat, a: nat): nat
    requires bytes + a < MAX_REQUEST
  {
    Request2Size(bytes) + a + MIN_CHUNK_SIZE - CHUNK_OVERHEAD
  }

  /** The padded request is for a chunk larger by the alignment and by one smallest chunk. */
  lemma PaddedSize(bytes: nat, a: nat)
    requires IsPow2(a) && a >= 16 && bytes + a < MAX_REQUEST && Padded(bytes, a) < MAX_REQUEST
    ensures Request2Size(Padded(bytes, a)) == Request2Size(bytes) + a + 16
  {
    Pow2By8(a);
    Request2SizeTight(bytes);
    Request2SizeTight(Padded(bytes, a));
    hide IsPow2, Request2Size;
    EightSum(Request2Size(bytes), a);
    EightApart(Request2Size(Padded(bytes, a)), Request2Size(bytes) + a + 16);
  }

  lemma EightSum(x: int, y: int)
    requires x % 8 == 0 && y % 8 == 0
    ensures (x + y + 16) % 8 == 0
  {}

  lemma EightApart(x: int, y: int)
    requires x % 8 == 0 && y % 8 == 0 && -8 < x - y < 8
    ensures x == y
  {}

  /** The request and its padding are below the limit, and the heap or the system has the memory. */
  ghost predicate GrantedAligned(g: Tags, p: Position, a: nat, bytes: nat) {
    bytes + a < MAX_REQUEST && Granted(g, p, Padded(bytes, a))
  }

  /** What internal_memalign makes of the position. */
  ghost predicate MemalignBy(g: Tags, p: Position, a: nat, bytes: nat, p': Position) {
    if bytes + a < MAX_REQUEST then MallocBy(g, p, Padded(bytes, a), p') else SameTerms(p, p')
  }

  ghost predicate StraysAligned(g: Tags, p: Position, a: nat, bytes: nat) {
    bytes + a < MAX_REQUEST && Strays(g, p, Padded(bytes, a))
  }

  ghost predicate TakesShortAligned(g: Tags, p: Position, a: nat, bytes: nat) {
    bytes + a < MAX_REQUEST && TakesShort(g, p, Padded(bytes, a))
  }

  /** internal_memalign: the block is aligned and large enough; what was too much has gone back. Not ok means that
      sys_alloc goes astray. */
  method InternalMemalign(m: MState, sys: System, alignment0: nat, bytes: nat)
    returns (ok: bool, mem: int, ghost alignment: nat)
    requires m.Valid() && sys.Free(m.segs) && alignment0 <= HALF32 && bytes < TWO32
    modifies m, sys
    ensures m.Valid() && sys.Free(m.segs) && RoundsTo(alignment0, alignment)
    ensures Spared(old(m.G()), {}, old(m.Words()), m.Words())
    ensures ok <==> !StraysAligned(old(m.G()), old(Asking(m, sys)), alignment, bytes)
    ensures mem != 0 <==> GrantedAligned(old(m.G()), old(Asking(m, sys)), alignment, bytes)
    ensures MemalignBy(old(m.G()), old(Asking(m, sys)), alignment, bytes, Asking(m, sys))
    ensures mem == 0 && !TakesShortAligned(old(m.G()), old(Asking(m, sys)), alignment, bytes) ==> m.G() == old(m.G())
    ensures mem == 0 ==> SameLive(old(m.G()), m.G())
    ensures mem != 0 ==> mem > 8 && mem % alignment == 0 && bytes < MAX_REQUEST
    ensures mem != 0 ==> bytes + alignment < MAX_REQUEST
                         && AlignedFrom(old(m.G()), old(Asking(m, sys)), old(m.v.sz), old(m.dv), old(m.dvsize),
                                        m.G(), mem - 8, alignment, bytes)
    ensures mem != 0 ==> AllocatedNear(old(m.G()), m.G(), mem - 8, Request2Size(bytes))
                         && m.tiles[mem - 8].size <= Request2Size(bytes) + MIN_CHUNK_SIZE
  {
    hide MallocBy, AlignedFrom;
    hide TagsOk, SegsOk, BinsInv, Known, Match, FootprintOk, LiveOf, Request2Size, Allocated, AllocatedNear, IsPow2;
    hide Spare, NothingFits, KeptOk;
    hide SameLive, Spared, Granted, Strays, TakesShort, GuardOf;
    SameTiles(m.G(), m.G());
    SparedSelf(m.G(), {}, m.Words());
    Sixteen();
    var a := if alignment0 < MIN_CHUNK_SIZE then MIN_CHUNK_SIZE else alignment0;
    if !IsPow2(a) {
      a := RoundAlignment(a);
    }
    alignment := a;
    Pow2By8(a);
    ok, mem := true, 0;
    if bytes < MAX_REQUEST - a {
      ok, mem := AllocAligned(m, sys, a, bytes);
    }
  }

  /** The chunk, or if it is misaligned the part of it from the first aligned spot. */
  method AlignUp(m: MState, ghost g: Tags, ghost c: Cells, p: nat, ghost nb: nat, a: nat, ghost room: nat)
    returns (newp: nat)
    requires m.Valid() && TagsOk(g) && AllocatedNear(g, m.G(), p, room) && Held(m.G(), p)
    requires room >= nb + a + MIN_CHUNK_SIZE
    requires IsPow2(a) && 16 <= a && GoodSize(nb) && p > 0 && p % 8 == 0 && p in m.tiles
    requires ChunkSize(m.head, p) == m.tiles[p].size >= room
    requires GoodSize(m.tiles[p].size) && p + m.tiles[p].size <= TWO32 && m.guard == GuardOf(g, c, {})
    modifies m`smallmap, m`treemap, m`treebins, m`fd, m`bk, m`child, m`parent, m`index, m`v
    modifies m`head, m`foot, m`tiles, m`top, m`topsize, m`dv, m`dvsize
    ensures m.Valid() && newp > 0 && MultipleOf(newp + 8, a) && AllocatedNear(g, m.G(), newp, nb)
    ensures FirstSpot(p, newp, a) && newp in m.tiles && newp + m.tiles[newp].size == p + old(m.tiles[p].size)
  {
    hide TagsOk, SegsOk, BinsInv, Known, Match, FootprintOk, LiveOf, AllocatedNear, IsPow2, GoodSize, AlignedSpot;
    hide KeptOk, GuardOf, FirstSpot;
    NearNew(g, c, m.G(), p, room);
    newp := p;
    if (p + 8) % a != 0 {
      var br := AlignedSpot(p + 8, a);
      SpotFacts(p, a);
      var pos := if br - p >= MIN_CHUNK_SIZE then br else br + a;
      var leadsize := pos - p;
      var newsize := ChunkSize(m.head, p) - leadsize;
      LeaderRoom(m.G(), p, nb, a, leadsize);
      NearWeaker(g, m.G(), p, room, leadsize + nb);
      GiveLeader(m, g, p, leadsize, newsize, nb);
      SpotFirst(p, pos, a);
      NearSize(g, m.G(), pos, nb);
      newp := pos;
    } else {
      AtOnce(p, a);
      NearWeaker(g, m.G(), p, room, nb);
    }
  }

  lemma NearNew(g: Tags, c: Cells, g': Tags, p: int, nb: nat)
    requires AllocatedNear(g, g', p, nb)
    ensures p !in GuardOf(g, c, {}).kept
  {
    GuardNew(g, c, {}, p);
  }

  /** The part of internal_memalign after its checks. */
  method AllocAligned(m: MState, sys: System, a: nat, bytes: nat) returns (ok: bool, mem: int)
    requires m.Valid() && sys.Free(m.segs) && IsPow2(a) && 16 <= a <= HALF32 && bytes < MAX_REQUEST - a
    modifies m, sys
    ensures m.Valid() && sys.Free(m.segs)
    ensures Spared(old(m.G()), {}, old(m.Words()), m.Words())
    ensures ok <==> !StraysAligned(old(m.G()), old(Asking(m, sys)), a, bytes)
    ensures mem != 0 <==> GrantedAligned(old(m.G()), old(Asking(m, sys)), a, bytes)
    ensures MemalignBy(old(m.G()), old(Asking(m, sys)), a, bytes, Asking(m, sys))
    ensures mem == 0 && !TakesShortAligned(old(m.G()), old(Asking(m, sys)), a, bytes) ==> m.G() == old(m.G())
    ensures mem == 0 ==> SameLive(old(m.G()), m.G())
    ensures mem != 0 ==> mem > 8 && MultipleOf(mem, a)
    ensures mem != 0 ==> AllocatedNear(old(m.G()), m.G(), mem - 8, Request2Size(bytes))
                         && m.tiles[mem - 8].size <= Request2Size(bytes) + MIN_CHUNK_SIZE
    ensures mem != 0 ==> AlignedFrom(old(m.G()), old(Asking(m, sys)), old(m.v.sz), old(m.dv), old(m.dvsize),
                                     m.G(), mem - 8, a, bytes)
  {
    hide MallocBy, Asking, SameTerms, MultipleOf, FirstSpot, HandsOut, VictimBy, AlignedFrom;
    hide TagsOk, SegsOk, BinsInv, Known, Match, FootprintOk, LiveOf, Request2Size, Allocated, AllocatedNear, IsPow2;
    hide Spare, NothingFits, GoodSize, Picked, KeptOk;
    hide SameLive, Spared, Granted, Strays, TakesShort, GuardOf;
    ghost var g, c, p0, sz, dv, dvsize := m.G(), m.Words(), Asking(m, sys), m.v.sz, m.dv, m.dvsize;
    Pow2By8(a);
    RequestRoom(bytes, a);
    var nb := Request2Size(bytes);
    var req := nb + a + MIN_CHUNK_SIZE - CHUNK_OVERHEAD;
    assert req == Padded(bytes, a);
    ok, mem := Dlmalloc(m, sys, req);
    if mem != 0 {
      ghost var a1, g1, q := Asking(m, sys), m.G(), mem - 8;
      HandsOutBy(g, p0, sz, dv, dvsize, req, mem, m.dv, m.dvsize);
      var p := CutOnly(m, sys, g, c, mem - 8, nb, a, Request2Size(req));
      GuardSpares(g, {}, c, m.Words(), m.G());
      mem := p + 8;
      MallocTop(g, old(Asking(m, sys)), req, a1, Asking(m, sys));
      NearSize(g, m.G(), p, nb);
      AlignedIs(g, p0, sz, dv, dvsize, g1, q, m.G(), p, a, bytes);
    }
  }

  /** What is too much goes back, at both ends. */
  method CutToFit(m: MState, ghost g: Tags, ghost c: Cells, p: int, nb: nat, a: nat, ghost room: nat)
    returns (newp: nat)
    requires m.Valid() && TagsOk(g) && Allocated(g, m.G(), p, room) && room >= nb + a + MIN_CHUNK_SIZE
    requires IsPow2(a) && 16 <= a && GoodSize(nb) && m.guard == GuardOf(g, c, {})
    modifies m`smallmap, m`treemap, m`treebins, m`fd, m`bk, m`child, m`parent, m`index, m`v
    modifies m`head, m`foot, m`tiles, m`top, m`topsize, m`dv, m`dvsize
    ensures m.Valid() && newp > 0 && MultipleOf(newp + 8, a)
    ensures AllocatedNear(g, m.G(), newp, nb) && FirstSpot(p, newp, a)
    ensures p in old(m.tiles) && newp <= p + old(m.tiles[p].size)
    ensures m.tiles[newp].size == WithoutTail(p + old(m.tiles[p].size) - newp, nb)
  {
    hide TagsOk, SegsOk, BinsInv, Known, Match, FootprintOk, LiveOf, Allocated, AllocatedNear, IsPow2, GoodSize, KeptOk;
    hide GuardOf, MultipleOf, FirstSpot, WithoutTail;
    AlignSetup(m, g, p, nb, a, room);
    newp := AlignUp(m, g, c, p, nb, a, room);
    NearHeld(g, m.G(), newp, nb);
    NearNew(g, c, m.G(), newp, nb);
    GiveTail(m, g, newp, nb);
  }

  /** The system has no part in it. */
  method CutOnly(m: MState, ghost sys: System, ghost g: Tags, ghost c: Cells, p: int, nb: nat, a: nat,
                 ghost room: nat)
    returns (newp: nat)
    requires m.Valid() && TagsOk(g) && Allocated(g, m.G(), p, room) && room >= nb + a + MIN_CHUNK_SIZE
    requires IsPow2(a) && 16 <= a && GoodSize(nb) && m.guard == GuardOf(g, c, {})
    modifies m`smallmap, m`treemap, m`treebins, m`fd, m`bk, m`child, m`parent, m`index, m`v
    modifies m`head, m`foot, m`tiles, m`top, m`topsize, m`dv, m`dvsize
    ensures m.Valid() && newp > 0 && MultipleOf(newp + 8, a)
    ensures AllocatedNear(g, m.G(), newp, nb) && FirstSpot(p, newp, a)
    ensures p in old(m.tiles) && newp <= p + old(m.tiles[p].size)
    ensures m.tiles[newp].size == WithoutTail(p + old(m.tiles[p].size) - newp, nb)
    ensures SameTerms(old(Asking(m, sys)), Asking(m, sys))
  {
    hide TagsOk, SegsOk, BinsInv, Known, Match, FootprintOk, LiveOf, Allocated, AllocatedNear, IsPow2, GoodSize, KeptOk;
    hide GuardOf, MultipleOf, FirstSpot, WithoutTail;
    newp := CutToFit(m, g, c, p, nb, a, room);
  }

  lemma AlignSetup(m: MState, g: Tags, p: int, nb: nat, a: nat, room: nat)
    requires m.Valid() && Allocated(g, m.G(), p, room) && room >= nb + a + MIN_CHUNK_SIZE
    ensures p > 0 && p % 8 == 0 && p in m.tiles && ChunkSize(m.head, p) == m.tiles[p].size >= room
    ensures p + m.tiles[p].size <= TWO32
    ensures Held(m.G(), p) && GoodSize(m.tiles[p].size) && AllocatedNear(g, m.G(), p, room)
  {
    hide SegsOk, BinsInv, Known, Match, FootprintOk, TagsOk, KeptOk;
    ChunkFacts(m.segs, m.least, m.G(), p);
    TileAligned(m.G(), p);
    ShapesOf(m.G());
  }

  /** The padding is enough for any leader. */
  lemma LeaderRoom(g: Tags, p: int, nb: nat, a: nat, leadsize: nat)
    requires p in g.tiles && g.tiles[p].used && GoodSize(g.tiles[p].size) && g.tiles[p].size >= nb + a + MIN_CHUNK_SIZE
    requires GoodSize(nb)
    requires leadsize % 8 == 0 && MIN_CHUNK_SIZE <= leadsize <= a + 8
    ensures CanSplit(g, p, leadsize) && g.tiles[p].size - leadsize >= nb
  {}

  lemma NearWeaker(g: Tags, g1: Tags, p: int, room: nat, nb: nat)
    requires AllocatedNear(g, g1, p, room) && nb <= room
    ensures AllocatedNear(g, g1, p, nb)
  {}

  lemma NearHeld(g: Tags, g1: Tags, p: int, nb: nat)
    requires AllocatedNear(g, g1, p, nb)
    ensures Held(g1, p)
  {}
}
