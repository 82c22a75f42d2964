/** Whole runs: any script of calls, with the break moved by others in between, keeps the heap invariant. */
module Runs {
  import opened Words
  import opened Rings
  import opened Tries
  import opened Bins
  import opened Tiling
  import opened Segments
  import opened Coalesce
  import opened State
  import opened Keeping
  import opened AllocOps
  import opened Freeing
  import opened Sbrk
  import opened Morecore
  import opened Heap
  import opened Realloc
  import opened GrowRoom
  import opened Memalign
  import opened BulkFree
  import opened Consolidate
  import opened Coverage
  import opened SysInstall
  import opened SysAsk
  import opened SysAlloc
  import opened Payloads

  /** A call by the program; blocks are named by their place in the list of those it holds. */
  datatype Call =
    | CallMalloc(bytes: nat)
    | CallCalloc(n: nat, size: nat)
    | CallFree(i: nat)
    | CallRealloc(i: nat, bytes: nat)
    | CallMemalign(alignment: nat, bytes: nat)
    | CallBulkFree
    | OthersSbrk(incr: int)

  /** The arguments fit their machine words, and the alignment is one internal_memalign returns for. */
  predicate Sane(c: Call) {
    match c
    case CallMalloc(bytes) => bytes < TWO32
    case CallCalloc(n, size) => n < TWO32 && size < TWO32
    case CallFree(_) => true
    case CallRealloc(_, bytes) => bytes < TWO32
    case CallMemalign(alignment, bytes) => alignment <= HALF32 && bytes < TWO32
    case CallBulkFree => true
    case OthersSbrk(_) => true
  }

  /** The program's blocks are exactly the chunks in its hands. */
  ghost predicate Accounted(g: Tags, held: seq<int>) {
    NoRepeats(held) && (forall i | 0 <= i < |held| :: held[i] != 0) && Named(held) == LiveOf(g)
  }

  lemma NamedAppend(s: seq<int>, x: int)
    requires x != 0
    ensures Named(s + [x]) == Named(s) + {x - 8}
    ensures NoRepeats(s) && x - 8 !in Named(s) ==> NoRepeats(s + [x])
  {
    var t := s + [x];
    assert t[|s|] == x;
    forall y | y in Named(s) ensures y in Named(t) {
      var k :| 0 <= k < |s| && s[k] != 0 && s[k] - 8 == y;
      assert t[k] == s[k];
    }
  }

  function Without(s: seq<int>, i: nat): seq<int>
    requires i < |s|
  {
    s[..i] + s[i + 1..]
  }

  lemma NamedWithout(s: seq<int>, i: nat)
    requires i < |s| && NoRepeats(s) && forall k | 0 <= k < |s| :: s[k] != 0
    ensures Named(Without(s, i)) == Named(s) - {s[i] - 8}
    ensures NoRepeats(Without(s, i)) && forall k | 0 <= k < |Without(s, i)| :: Without(s, i)[k] != 0
  {
    var t := Without(s, i);
    forall k | 0 <= k < |t| ensures t[k] == s[if k < i then k else k + 1] {}
    forall y | y in Named(s) && y != s[i] - 8 ensures y in Named(t) {
      var k :| 0 <= k < |s| && s[k] != 0 && s[k] - 8 == y;
      assert t[if k < i then k else k - 1] == s[k];
    }
    forall k | 0 <= k < |t| ensures t[k] != s[i] {
      var k' := if k < i then k else k + 1;
      assert s[if k' < i then k' else i] != s[if k' < i then i else k'];
    }
  }

  lemma AccountNew(g: Tags, g': Tags, held: seq<int>, mem: int)
    requires Accounted(g, held) && mem != 0 && mem - 8 !in LiveOf(g) && LiveOf(g') == LiveOf(g) + {mem - 8}
    ensures Accounted(g', held + [mem])
  {
    NamedAppend(held, mem);
  }

  lemma AccountFreed(g: Tags, g': Tags, held: seq<int>, i: nat)
    requires Accounted(g, held) && i < |held| && Released(g, g', {held[i] - 8})
    ensures Accounted(g', Without(held, i))
  {
    NamedWithout(held, i);
  }

  lemma AccountMoved(g: Tags, g': Tags, held: seq<int>, i: nat, mem: int, bytes: nat, b: map<int, int>,
                     b': map<int, int>)
    requires Accounted(g, held) && i < |held| && mem != 0 && BlockMoved(g, g', held[i] - 8, mem - 8, bytes, b, b')
    ensures Accounted(g', Without(held, i) + [mem])
  {
    hide BytesKept, Copied;
    NamedWithout(held, i);
    NamedAppend(Without(held, i), mem);
  }

  lemma HeldLive(g: Tags, held: seq<int>, i: nat)
    requires Accounted(g, held) && i < |held|
    ensures held[i] - 8 in LiveOf(g) && held[i] != 0 && held[i] - 8 in g.tiles
  {
    assert held[i] - 8 in Named(held);
  }

  // ----- what a call does

  /** The heap, the binned chunks and the designated victim, the system, the program's blocks and their contents at one
      moment. */
  datatype Moment = Moment(g: Tags, sz: Sizes, dv: int, dvsize: nat, p: Position, held: seq<int>, bytes: map<int, int>)

  ghost function Seen(m: MState, sys: System, ram: Payload, held: seq<int>): Moment
    reads m, sys, ram
  {
    Moment(m.G(), m.v.sz, m.dv, m.dvsize, Asking(m, sys), held, ram.bytes)
  }

  /** One more block, of at least that many bytes. */
  ghost predicate Gained(g': Tags, held: seq<int>, held': seq<int>, bytes: nat) {
    && |held'| == |held| + 1 && held'[..|held|] == held
    && var x := held'[|held|] - 8; x in g'.tiles && g'.tiles[x].size >= bytes + CHUNK_OVERHEAD
  }

  /** The block a request is served with: the chunk the order of preference selects, or what the system brought. */
  ghost predicate Handed(s: Moment, t: Moment, bytes: nat)
    requires bytes < MAX_REQUEST
  {
    && Gained(t.g, s.held, t.held, bytes)
    && var x, nb := t.held[|s.held|] - 8, Request2Size(bytes);
       && Allocated(s.g, t.g, x, nb)
       && (!NothingFits(s.g, nb) ==> Picked(s.g, s.sz, s.dv, s.dvsize, nb, x, t.dv, t.dvsize))
       && VictimBy(s.g, s.p, bytes, x + 8, s.dv, s.dvsize, t.dv, t.dvsize)
  }

  /** What the program holds after a request: a block more, if the heap or the system has the memory. */
  ghost predicate Requested(s: Moment, t: Moment, bytes: nat) {
    && BytesKept(s.g, 0, s.bytes, t.bytes) && MallocBy(s.g, s.p, bytes, t.p)
    && if Granted(s.g, s.p, bytes) then Handed(s, t, bytes)
       else t.held == s.held && SameLive(s.g, t.g) && VictimBy(s.g, s.p, bytes, 0, s.dv, s.dvsize, t.dv, t.dvsize)
  }

  /** A block of zeros, if the product is no overflow and the memory is there. */
  ghost predicate Cleared(s: Moment, t: Moment, n: nat, size: nat)
    requires n < TWO32 && size < TWO32
  {
    && Requested(s, t, CallocRequest(n, size))
    && (t.held != s.held ==> |t.held| == |s.held| + 1 && Zeroed(t.bytes, t.held[|s.held|], n * size))
  }

  ghost predicate Dropped(s: Moment, t: Moment, i: nat)
    requires i < |s.held|
  {
    var x := s.held[i] - 8;
    && t.held == Without(s.held, i) && BytesKept(s.g, x, s.bytes, t.bytes)
    && Released(s.g, t.g, {x}) && x in s.g.tiles && FreedBy(s.g, x, s.p, t.p)
    && VictimFreed(s.g, x, s.dv, s.dvsize, t.dv, t.dvsize)
  }

  ghost predicate Reallocated(s: Moment, t: Moment, i: nat, bytes: nat)
    requires i < |s.held|
  {
    if InPlace(s.g, s.held[i], bytes) || Granted(s.g, s.p, bytes) then
      && Gained(t.g, Without(s.held, i), t.held, bytes)
      && var mem := t.held[|t.held| - 1];
         && (InPlace(s.g, s.held[i], bytes) ==> mem == s.held[i])
         && (mem == s.held[i] ==>
               ResizedHere(s.g, t.g, mem - 8, Request2Size(bytes), s.dv, s.dvsize, t.dv, t.dvsize))
         && BlockMoved(s.g, t.g, s.held[i] - 8, mem - 8, bytes, s.bytes, t.bytes)
         && ReallocBy(s.g, s.p, s.held[i], bytes, mem, t.p)
    else
      && t.held == s.held && SameLive(s.g, t.g) && BytesKept(s.g, 0, s.bytes, t.bytes)
      && ReallocBy(s.g, s.p, s.held[i], bytes, 0, t.p)
  }

  ghost predicate Aligned(s: Moment, t: Moment, a: nat, bytes: nat)
    requires a > 0
  {
    && BytesKept(s.g, 0, s.bytes, t.bytes) && MemalignBy(s.g, s.p, a, bytes, t.p)
    && if GrantedAligned(s.g, s.p, a, bytes) then
         && Gained(t.g, s.held, t.held, bytes) && t.held[|s.held|] % a == 0
         && AllocatedNear(s.g, t.g, t.held[|s.held|] - 8, Request2Size(bytes))
         && AlignedFrom(s.g, s.p, s.sz, s.dv, s.dvsize, t.g, t.held[|s.held|] - 8, a, bytes)
       else t.held == s.held && SameLive(s.g, t.g)
  }

  /** What a call does to the heap, to the blocks held and to what is in them, and when it fails. */
  ghost predicate Answered(c: Call, s: Moment, t: Moment) {
    match c
    case CallMalloc(bytes) => Requested(s, t, bytes)
    case CallCalloc(n, size) => n < TWO32 && size < TWO32 && Cleared(s, t, n, size)
    case CallFree(i) => if i < |s.held| then Dropped(s, t, i) else t == s
    case CallRealloc(i, bytes) => if i < |s.held| then Reallocated(s, t, i, bytes) else t == s
    case CallMemalign(alignment, bytes) =>
      if alignment <= MALLOC_ALIGNMENT then
        Requested(s, t, bytes) && (t.held != s.held ==> t.held[|s.held|] % MALLOC_ALIGNMENT == 0)
      else exists a: nat :: RoundsTo(alignment, a) && Aligned(s, t, a, bytes)
    case CallBulkFree =>
      && t.held == [] && Released(s.g, t.g, Named(s.held)) && BulkBy(s.g, s.p, Named(s.held), t.p)
      && VictimFollows(t.g, s.dv, t.dv)
    case OthersSbrk(n) => t == s.(p := s.p.(sys := OthersMove(s.p.segs, s.p.sys, n)))
  }

  /** The memory below the break that others might give back is theirs. */
  predicate Theirs(segs: seq<Segment>, brk: nat, n: nat) {
    n < brk && forall i | 0 <= i < |segs| :: SegEnd(segs[i]) <= brk - n || brk <= segs[i].base
  }

  /** Others move the break: up, or down by what is theirs. */
  function OthersMove(segs: seq<Segment>, o: Oracle, n: int): Oracle {
    if n >= 0 then o.Grown(n) else if Theirs(segs, o.brk, -n) then o.Shrunk(-n) else o
  }

  /** The call has to ask the system, and sys_alloc goes astray. */
  ghost predicate GoesWrong(c: Call, s: Moment) {
    match c
    case CallMalloc(bytes) => Strays(s.g, s.p, bytes)
    case CallCalloc(n, size) => n < TWO32 && size < TWO32 && Strays(s.g, s.p, CallocRequest(n, size))
    case CallRealloc(i, bytes) => i < |s.held| && !InPlace(s.g, s.held[i], bytes) && Strays(s.g, s.p, bytes)
    case CallMemalign(alignment, bytes) =>
      if alignment <= MALLOC_ALIGNMENT then Strays(s.g, s.p, bytes)
      else exists a: nat :: RoundsTo(alignment, a) && StraysAligned(s.g, s.p, a, bytes)
    case _ => false
  }

  /** The program's blocks, the heap and the system are in order. */
  ghost predicate Running(m: MState, sys: System, held: seq<int>)
    reads m, sys
  {
    m.Valid() && sys.Free(m.segs) && Accounted(m.G(), held)
  }

  lemma AccountSame(g: Tags, g': Tags, held: seq<int>)
    requires Accounted(g, held) && SameLive(g, g')
    ensures Accounted(g', held)
  {}

  lemma AllocatedFacts(g: Tags, g': Tags, held: seq<int>, mem: int, bytes: nat)
    requires Allocated(g, g', mem - 8, Request2Size(bytes)) && Accounted(g, held) && mem != 0 && bytes < MAX_REQUEST
    ensures Accounted(g', held + [mem]) && Gained(g', held, held + [mem], bytes)
  {
    Request2SizeTight(bytes);
    AccountNew(g, g', held, mem);
  }

  lemma NearFacts(g: Tags, g': Tags, held: seq<int>, mem: int, bytes: nat)
    requires AllocatedNear(g, g', mem - 8, Request2Size(bytes)) && Accounted(g, held) && mem != 0 && bytes < MAX_REQUEST
    ensures Accounted(g', held + [mem]) && Gained(g', held, held + [mem], bytes)
  {
    Request2SizeTight(bytes);
    AccountNew(g, g', held, mem);
  }

  method PerformMalloc(m: MState, sys: System, ram: Payload, held: seq<int>, bytes: nat)
    returns (ok: bool, held': seq<int>)
    requires Running(m, sys, held) && bytes < TWO32
    modifies m, sys, ram`bytes
    ensures Running(m, sys, held') && Requested(old(Seen(m, sys, ram, held)), Seen(m, sys, ram, held'), bytes)
    ensures held' == held || |held'| == |held| + 1
    ensures ok <==> !Strays(old(m.G()), old(Asking(m, sys)), bytes)
  {
    hide TagsOk, SegsOk, BinsInv, Known, Match, FootprintOk, Spare, Accounted, NothingFits, LiveOf, Request2Size;
    hide KeptOk;
    hide SameLive, Spared, Strays, Granted, TakesShort, GuardOf, Touched, BytesKept, Allocated, Picked, Gained;
    hide MallocBy, VictimBy;
    ghost var g, b := m.G(), ram.bytes;
    held' := held;
    var c := m.Words();
    var mem;
    ok, mem := Dlmalloc(m, sys, bytes);
    Overwrite(ram, c, m.Words());
    AllSpared(g, c, m.Words(), b, ram.bytes);
    if mem != 0 {
      AllocatedFacts(g, m.G(), held, mem, bytes);
      held' := held + [mem];
    } else {
      AccountSame(g, m.G(), held);
    }
  }

  /** dlcalloc: a request for the product, whose bytes are cleared. */
  method PerformCalloc(m: MState, sys: System, ram: Payload, held: seq<int>, n: nat, size: nat)
    returns (ok: bool, held': seq<int>)
    requires Running(m, sys, held) && n < TWO32 && size < TWO32
    modifies m, sys, ram`bytes
    ensures Running(m, sys, held')
    ensures Answered(CallCalloc(n, size), old(Seen(m, sys, ram, held)), Seen(m, sys, ram, held'))
    ensures ok <==> !GoesWrong(CallCalloc(n, size), old(Seen(m, sys, ram, held)))
  {
    hide Requested, Running, Strays;
    ghost var s := Seen(m, sys, ram, held);
    CallocExact(n, size);
    var req := CallocRequest(n, size);
    ok, held' := PerformMalloc(m, sys, ram, held, req);
    if held' != held {
      ghost var t := Seen(m, sys, ram, held');
      ClearRoom(m, sys, s, t, held', req, n, size);
      Memset(ram, held'[|held|], req);
      ClearedStill(s, t, Seen(m, sys, ram, held'), req);
    }
  }

  /** The block is large enough, and so the product did not overflow. */
  lemma ClearRoom(m: MState, sys: System, s: Moment, t: Moment, held': seq<int>, req: nat, n: nat, size: nat)
    requires Running(m, sys, held') && t.g == m.G() && t.held == held' != s.held && Requested(s, t, req)
    requires n < TWO32 && size < TWO32 && req == CallocRequest(n, size)
    ensures |t.held| == |s.held| + 1 && TagsOk(t.g) && req < MAX_REQUEST && req == n * size
  {
    hide BinsInv, Known, Match, FootprintOk, KeptOk, TagsOk, SegsOk, Accounted, Spare, NothingFits, MallocBy, Picked;
    hide BytesKept, SameLive, Allocated, NeedsSystem, VictimBy;
    CallocExact(n, size);
  }

  /** Clearing the new block touches no other. */
  lemma ClearedStill(s: Moment, t: Moment, u: Moment, req: nat)
    requires Requested(s, t, req) && t.held != s.held && TagsOk(t.g) && u == t.(bytes := u.bytes)
    requires |t.held| == |s.held| + 1 && req < MAX_REQUEST
    requires var x := t.held[|s.held|]; forall a | a < x || x + req <= a :: Byte(u.bytes, a) == Byte(t.bytes, a)
    ensures Requested(s, u, req)
  {
    hide TagsOk, NothingFits, MallocBy, Picked, SameLive, Granted, Request2Size, Allocated, BytesKept, Byte, VictimBy;
    Request2SizeTight(req);
    assert Granted(s.g, s.p, req);
    NewApart(s.g, t.g, t.held[|s.held|] - 8, Request2Size(req), req, t.bytes, u.bytes);
    KeptTwice(s.g, s.bytes, t.bytes, u.bytes);
  }

  lemma KeptTwice(g: Tags, b: map<int, int>, b1: map<int, int>, b2: map<int, int>)
    requires BytesKept(g, 0, b, b1) && BytesKept(g, 0, b1, b2)
    ensures BytesKept(g, 0, b, b2)
  {
    hide Byte, LiveOf;
  }

  method PerformFree(m: MState, sys: System, ram: Payload, held: seq<int>, i: nat) returns (held': seq<int>)
    requires Running(m, sys, held) && i < |held|
    modifies m, sys, ram`bytes
    ensures Running(m, sys, held') && Dropped(old(Seen(m, sys, ram, held)), Seen(m, sys, ram, held'), i)
  {
    hide TagsOk, SegsOk, BinsInv, Known, Match, FootprintOk, Spare, Accounted, LiveOf, KeptOk, Spared, Touched;
    hide BytesKept, Released, StaysSmall, FreedBy, VictimFreed;
    ghost var g, b := m.G(), ram.bytes;
    HeldLive(g, held, i);
    var c := m.Words();
    Dlfree(m, sys, held[i]);
    Overwrite(ram, c, m.Words());
    SparedBytes(g, held[i] - 8, c, m.Words(), b, ram.bytes);
    AccountFreed(g, m.G(), held, i);
    held' := Without(held, i);
  }

  method PerformRealloc(m: MState, sys: System, ram: Payload, held: seq<int>, i: nat, bytes: nat)
    returns (ok: bool, held': seq<int>)
    requires Running(m, sys, held) && i < |held| && bytes < TWO32
    modifies m, sys, ram`bytes
    ensures Running(m, sys, held') && Reallocated(old(Seen(m, sys, ram, held)), Seen(m, sys, ram, held'), i, bytes)
    ensures ok <==> !GoesWrong(CallRealloc(i, bytes), old(Seen(m, sys, ram, held)))
  {
    hide TagsOk, SegsOk, BinsInv, Known, Match, FootprintOk, Spare, Accounted, LiveOf, KeptOk, BytesKept, BlockMoved;
    hide Strays, Granted, TakesShort, CanResize, SameLive, ReallocBy, ResizedHere, Request2Size;
    ghost var g, b := m.G(), ram.bytes;
    HeldLive(g, held, i);
    held' := held;
    var mem;
    ok, mem := Dlrealloc(m, sys, ram, held[i], bytes);
    if mem != 0 {
      AccountMoved(g, m.G(), held, i, mem, bytes, b, ram.bytes);
      MovedGained(g, m.G(), Without(held, i), held[i] - 8, mem, bytes, b, ram.bytes);
      held' := Without(held, i) + [mem];
    } else {
      AccountSame(g, m.G(), held);
    }
  }

  lemma MovedGained(g: Tags, g': Tags, rest: seq<int>, p: int, mem: int, bytes: nat, b: map<int, int>,
                    b': map<int, int>)
    requires BlockMoved(g, g', p, mem - 8, bytes, b, b')
    ensures Gained(g', rest, rest + [mem], bytes)
  {
    hide BytesKept, Copied;
  }

  method PerformMemalign(m: MState, sys: System, ram: Payload, held: seq<int>, alignment: nat, bytes: nat)
    returns (ok: bool, held': seq<int>)
    requires Running(m, sys, held) && alignment <= HALF32 && bytes < TWO32
    modifies m, sys, ram`bytes
    ensures Running(m, sys, held')
    ensures Answered(CallMemalign(alignment, bytes), old(Seen(m, sys, ram, held)), Seen(m, sys, ram, held'))
    ensures ok <==> !GoesWrong(CallMemalign(alignment, bytes), old(Seen(m, sys, ram, held)))
  {
    hide TagsOk, SegsOk, BinsInv, Known, Match, FootprintOk, Spare, Accounted, NothingFits, LiveOf, Request2Size;
    hide KeptOk;
    hide SameLive, Spared, Strays, Granted, TakesShort, GuardOf, Touched, BytesKept, AllocatedNear, IsPow2;
    hide MallocBy, MemalignBy, Handed, VictimBy, AlignedFrom;
    ghost var g, b := m.G(), ram.bytes;
    held' := held;
    var mem;
    if alignment <= MALLOC_ALIGNMENT {
      ok, held' := PerformMalloc(m, sys, ram, held, bytes);
      if held' != held { SmallAlignment(m.G(), held'); }
    } else {
      ghost var a;
      var c := m.Words();
      ok, mem, a := InternalMemalign(m, sys, alignment, bytes);
      Overwrite(ram, c, m.Words());
      AllSpared(g, c, m.Words(), b, ram.bytes);
      OneRounding(g, old(Asking(m, sys)), alignment, a, bytes);
      if mem != 0 {
        NearFacts(g, m.G(), held, mem, bytes);
        held' := held + [mem];
      } else {
        AccountSame(g, m.G(), held);
      }
    }
  }

  lemma OneRounding(g: Tags, p: Position, alignment: nat, a: nat, bytes: nat)
    requires RoundsTo(alignment, a)
    ensures StraysAligned(g, p, a, bytes) <==> exists b: nat :: RoundsTo(alignment, b) && StraysAligned(g, p, b, bytes)
  {
    hide RoundsTo, StraysAligned;
    forall b: nat | RoundsTo(alignment, b) ensures b == a { RoundsUnique(alignment, a, b); }
  }

  /** Any block is 8-aligned. */
  lemma SmallAlignment(g: Tags, held: seq<int>)
    requires TagsOk(g) && Accounted(g, held) && |held| > 0
    ensures IsPow2(8) && held[|held| - 1] % 8 == 0
  {
    HeldLive(g, held, |held| - 1);
    TileAligned(g, held[|held| - 1] - 8);
    Sixteen();
  }

  method PerformBulk(m: MState, sys: System, ram: Payload, held: seq<int>) returns (held': seq<int>)
    requires Running(m, sys, held)
    modifies m, sys, ram`bytes
    ensures Running(m, sys, held') && held' == []
    ensures Released(old(m.G()), m.G(), Named(held))
    ensures BulkBy(old(m.G()), old(Asking(m, sys)), Named(held), Asking(m, sys))
    ensures VictimFollows(m.G(), old(m.dv), m.dv)
  {
    hide TagsOk, SegsOk, BinsInv, Known, Match, FootprintOk, Spare, LiveOf, KeptOk, Spared, Touched, BulkBy;
    hide VictimFollows;
    ghost var g := m.G();
    var a := new int[|held|](i requires 0 <= i < |held| => held[i]);
    assert a[..] == held;
    var c := m.Words();
    InternalBulkFree(m, sys, a);
    Overwrite(ram, c, m.Words());
    held' := [];
    assert LiveOf(m.G()) == {};
  }

  /** Somebody else moves the break. */
  method OthersSbrkMove(m: MState, sys: System, n: int)
    requires m.Valid() && sys.Free(m.segs)
    modifies sys
    ensures sys.Free(m.segs) && sys.Now() == OthersMove(m.segs, old(sys.Now()), n)
  {
    hide TagsOk, SegsOk, BinsInv, Known, Match, FootprintOk, KeptOk, Spare, Theirs;
    if n >= 0 {
      SpareGrown(m.segs, sys.brk, sys.room, n);
      var r := sys.Grow(n);
    } else if Theirs(m.segs, sys.brk, -n) {
      SegSizes(m.segs, m.least, m.G());
      SpareShrunk(m.segs, sys.brk, sys.room, -n);
      var r := sys.Shrink(-n);
    }
  }

  lemma SpareGrown(segs: seq<Segment>, brk: nat, room: nat, n: nat)
    requires Spare(segs, brk, room)
    ensures n <= room ==> Spare(segs, brk + n, room - n)
  {}

  lemma SpareShrunk(segs: seq<Segment>, brk: nat, room: nat, n: nat)
    requires Spare(segs, brk, room) && Theirs(segs, brk, n) && forall i | 0 <= i < |segs| :: segs[i].size > 0
    ensures Spare(segs, brk - n, room + n)
  {}

  /** One call; not ok means that sys_alloc goes astray. */
  method Perform(m: MState, sys: System, ram: Payload, held: seq<int>, c: Call) returns (ok: bool, held': seq<int>)
    requires Running(m, sys, held) && Sane(c)
    modifies m, sys, ram`bytes
    ensures Running(m, sys, held') && Answered(c, old(Seen(m, sys, ram, held)), Seen(m, sys, ram, held'))
    ensures ok <==> !GoesWrong(c, old(Seen(m, sys, ram, held)))
  {
    hide TagsOk, SegsOk, BinsInv, Known, Match, FootprintOk, Spare, Accounted, BlockMoved, Strays, Granted, TakesShort;
    hide KeptOk, BytesKept, Requested, Gained, IsPow2, Dropped, Reallocated, OthersMove, Released, BulkBy, Cleared;
    hide VictimFollows;
    SameBytes(m.G(), ram.bytes);
    ok, held' := true, held;
    match c {
      case CallMalloc(bytes) => ok, held' := PerformMalloc(m, sys, ram, held, bytes);
      case CallCalloc(n, size) => ok, held' := PerformCalloc(m, sys, ram, held, n, size);
      case CallFree(i) => if i < |held| { held' := PerformFree(m, sys, ram, held, i); }
      case CallRealloc(i, bytes) => if i < |held| { ok, held' := PerformRealloc(m, sys, ram, held, i, bytes); }
      case CallMemalign(alignment, bytes) => ok, held' := PerformMemalign(m, sys, ram, held, alignment, bytes);
      case CallBulkFree => held' := PerformBulk(m, sys, ram, held);
      case OthersSbrk(n) => OthersSbrkMove(m, sys, n);
    }
  }

  lemma SameBytes(g: Tags, b: map<int, int>)
    ensures BytesKept(g, 0, b, b)
  {}

  /** What holds at every moment: tags, segments, bins and victim agree, and the program holds what is in use. */
  ghost predicate InOrder(s: Moment) {
    Coherent(s.g, s.p) && Match(s.sz, s.g.tiles, s.dv, s.dvsize, {}) && Accounted(s.g, s.held)
  }

  lemma InOrderNow(m: MState, sys: System, ram: Payload, held: seq<int>)
    requires Running(m, sys, held)
    ensures InOrder(Seen(m, sys, ram, held))
  {
    hide TagsOk, SegsOk, BinsInv, Known, Match, FootprintOk, KeptOk, Spare, Accounted, Coherent;
    CoherentNow(m, sys);
  }

  /** The moments of a run: the zeroed state, then what each call makes of the one before. */
  ghost predicate Traced(script: seq<Call>, trace: seq<Moment>, done: nat, start: Oracle, bytes: map<int, int>) {
    && done <= |script| && |trace| == done + 1
    && trace[0].g.tiles == map[] && trace[0].held == [] && trace[0].bytes == bytes
    && trace[0].p == Position([], 0, 0, true, 0, 0, 0, start)
    && (forall k | 0 <= k <= done :: InOrder(trace[k]))
    && (forall k | 0 <= k < done :: Answered(script[k], trace[k], trace[k + 1]) && !GoesWrong(script[k], trace[k]))
  }

  lemma TraceMore(script: seq<Call>, trace: seq<Moment>, done: nat, start: Oracle, bytes: map<int, int>, t: Moment)
    requires Traced(script, trace, done, start, bytes) && done < |script|
    requires Answered(script[done], trace[done], t) && !GoesWrong(script[done], trace[done])
    requires InOrder(t)
    ensures Traced(script, trace + [t], done + 1, start, bytes)
  {
    hide InOrder, Answered, GoesWrong;
  }

  /** A script, from the zeroed state on, up to a call at which sys_alloc goes astray, exactly: the invariant holds
      throughout, and the program holds exactly its live blocks. */
  method RunScript(sys: System, ram: Payload, script: seq<Call>)
    returns (m: MState, held: seq<int>, done: nat, ghost trace: seq<Moment>)
    requires sys.Free([]) && forall k | 0 <= k < |script| :: Sane(script[k])
    modifies sys, ram`bytes
    ensures fresh(m) && Running(m, sys, held) && done <= |script|
    ensures Traced(script, trace, done, old(sys.Now()), old(ram.bytes))
    ensures done == |script| ==> trace[done] == Seen(m, sys, ram, held)
    ensures done < |script| ==>
              GoesWrong(script[done], trace[done]) && Answered(script[done], trace[done], Seen(m, sys, ram, held))
  {
    hide TagsOk, SegsOk, BinsInv, Known, Match, FootprintOk, Spare, Sane, KeptOk, Accounted, Answered, GoesWrong;
    hide Traced, InOrder;
    m := new MState();
    held, done := [], 0;
    Nothing(m.G());
    trace := [Seen(m, sys, ram, held)];
    InOrderNow(m, sys, ram, held);
    Starts(script, trace, old(sys.Now()), old(ram.bytes));
    var ok := true;
    while done < |script| && ok
      invariant done <= |script| && fresh(m) && Running(m, sys, held)
      invariant Traced(script, trace, done, old(sys.Now()), old(ram.bytes))
      invariant |trace| == done + 1
      invariant ok ==> trace[done] == Seen(m, sys, ram, held)
      invariant !ok ==>
                  && done < |script| && GoesWrong(script[done], trace[done])
                  && Answered(script[done], trace[done], Seen(m, sys, ram, held))
      decreases |script| - done, ok
    {
      ok, held := Perform(m, sys, ram, held, script[done]);
      InOrderNow(m, sys, ram, held);
      if ok {
        TraceMore(script, trace, done, old(sys.Now()), old(ram.bytes), Seen(m, sys, ram, held));
        trace := trace + [Seen(m, sys, ram, held)];
        done := done + 1;
      }
    }
  }

  lemma Starts(script: seq<Call>, trace: seq<Moment>, start: Oracle, bytes: map<int, int>)
    requires |trace| == 1 && trace[0].g.tiles == map[] && trace[0].held == [] && trace[0].bytes == bytes
    requires trace[0].p == Position([], 0, 0, true, 0, 0, 0, start) && InOrder(trace[0])
    ensures Traced(script, trace, 0, start, bytes)
  {
    hide InOrder, Answered, GoesWrong;
  }

  lemma Nothing(g: Tags)
    requires g.tiles == map[]
    ensures Accounted(g, [])
  {
    assert Named([]) == {} == LiveOf(g);
  }
}
