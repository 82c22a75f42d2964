/** internal_bulk_free, and why merging neighbours first changes nothing. */
module BulkFree {
  import opened Words
  import opened Rings
  import opened Tries
  import opened Bins
  import opened Tiling
  import opened TagOps
  import opened Segments
  import opened SegOps
  import opened Coalesce
  import opened State
  import opened Keeping
  import opened Consolidate
  import opened AllocOps
  import opened Freeing
  import opened Sbrk
  import opened Morecore
  import opened Heap
  import opened Coverage
  import Malloc
  import Realloc
  import SysTrim

  /** The chunks an array of pointers names; null pointers name none. */
  function Named(s: seq<int>): set<int> { set k | 0 <= k < |s| && s[k] != 0 :: s[k] - 8 }

  predicate NoRepeats(s: seq<int>) { forall i, j | 0 <= i < j < |s| && s[i] != 0 :: s[i] != s[j] }

  /** What is left to do: the pointers of s are live and distinct, and beyond them only ps has gone. */
  ghost predicate Remaining(g0: Tags, g: Tags, s: seq<int>, ps: set<int>) {
    && NoRepeats(s) && Named(s) <= LiveOf(g) && Named(s) <= ps
    && LiveOf(g) - Named(s) == LiveOf(g0) - ps && RecsKept(g0, g)
    && forall q | q in LiveOf(g0) - ps :: q in g0.tiles && q in g.tiles && g.tiles[q] == g0.tiles[q]
  }

  lemma AllGone(g0: Tags, g: Tags, ps: set<int>)
    requires Remaining(g0, g, [], ps)
    ensures Released(g0, g, ps)
  {
    assert Named([]) == {};
  }

  lemma Begun(g: Tags, s: seq<int>)
    requires NoRepeats(s) && Named(s) <= LiveOf(g) && forall r | r in g.recs :: r in g.tiles
    ensures Remaining(g, g, s, Named(s))
  {}

  lemma NamedHead(s: seq<int>)
    requires |s| > 0
    ensures Named(s) == (if s[0] != 0 then {s[0] - 8} else {}) + Named(s[1..])
    ensures NoRepeats(s) ==> NoRepeats(s[1..]) && (s[0] != 0 ==> s[0] - 8 !in Named(s[1..]))
  {
    var t := s[1..];
    forall x | x in Named(s) ensures x in (if s[0] != 0 then {s[0] - 8} else {}) + Named(t) {
      var k :| 0 <= k < |s| && s[k] != 0 && s[k] - 8 == x;
      if k > 0 { assert t[k - 1] == s[k]; }
    }
    forall x | x in Named(t) ensures x in Named(s) {
      var k :| 0 <= k < |t| && t[k] != 0 && t[k] - 8 == x;
      assert s[k + 1] == t[k];
    }
    if NoRepeats(s) {
      forall i, j | 0 <= i < j < |t| && t[i] != 0 ensures t[i] != t[j] {
        assert s[i + 1] != s[j + 1];
      }
      if s[0] != 0 {
        forall k | 0 <= k < |t| && t[k] != 0 ensures t[k] - 8 != s[0] - 8 {
          assert s[0] != s[k + 1];
        }
      }
    }
  }

  /** A null pointer is passed over. */
  lemma SkipNull(g0: Tags, g: Tags, s: seq<int>, ps: set<int>)
    requires |s| > 0 && s[0] == 0 && Remaining(g0, g, s, ps)
    ensures Remaining(g0, g, s[1..], ps)
  {
    NamedHead(s);
  }

  /** The first chunk is freed. */
  lemma StepFree(g0: Tags, g: Tags, g': Tags, s: seq<int>, ps: set<int>, p: int)
    requires |s| > 0 && s[0] != 0 && p == s[0] - 8 && Remaining(g0, g, s, ps)
    requires LiveOf(g') == LiveOf(g) - {p} && RecsKept(g, g')
    requires forall q | q in LiveOf(g) && q != p :: q in g.tiles && q in g'.tiles && g'.tiles[q] == g.tiles[q]
    ensures Remaining(g0, g', s[1..], ps)
  {
    hide LiveOf;
    NamedHead(s);
    forall q | q in LiveOf(g0) - ps ensures q in g0.tiles && q in g'.tiles && g'.tiles[q] == g0.tiles[q] {
      assert q in LiveOf(g) - Named(s);
    }
  }

  /** The first chunk takes in the second, which follows it. */
  function Joined(g: Tags, p: int, n: int): Tags
    requires p in g.tiles && n in g.tiles && p <= End(g.tiles, n)
  {
    MergeTags(g, p, End(g.tiles, n), {p, n})
  }

  lemma JoinRun(g: Tags, p: int, n: int)
    requires TagsOk(g) && Held(g, p) && Held(g, n) && End(g.tiles, p) == n
    ensures Run(g, p, End(g.tiles, n), {p, n}) && p < n < End(g.tiles, n)
  {
    AfterFacts(g, n);
    hide Apart, TopApart, Followed, HeadsOk, UsedNext, FreeNext, PrevFree, TopTag;
  }

  lemma JoinOk(segs: seq<Segment>, least: int, g: Tags, p: int, n: int)
    requires TagsOk(g) && SegsOk(segs, least, g) && Held(g, p) && Held(g, n) && End(g.tiles, p) == n
    ensures p < n < End(g.tiles, n) && TagsOk(Joined(g, p, n)) && SegsOk(segs, least, Joined(g, p, n))
  {
    hide TagsOk, SegsOk, Run;
    JoinRun(g, p, n);
    OpenTags(g);
    Merge(g, p, End(g.tiles, n), {p, n});
    MergeSegs(segs, least, g, p, End(g.tiles, n), {p, n});
  }

  lemma JoinMatch(sz: Sizes, g: Tags, dv: int, dvsize: nat, p: int, n: int, least: int, h: Heads)
    requires Match(sz, g.tiles, dv, dvsize, {}) && Known(sz, g.head, least) && Held(g, p) && Held(g, n)
    requires p < n < End(g.tiles, n)
    requires h == Joined(g, p, n).head
    ensures Match(sz, Joined(g, p, n).tiles, dv, dvsize, {}) && Known(sz, h, least)
  {
    var e := End(g.tiles, n);
    forall a | a in sz ensures HeadAt(h, a).size == HeadAt(g.head, a).size {}
  }

  lemma JoinLive(g: Tags, p: int, n: int)
    requires Held(g, p) && Held(g, n) && p < n < End(g.tiles, n) && forall r | r in g.recs :: r in g.tiles
    ensures LiveOf(Joined(g, p, n)) == LiveOf(g) - {n} && RecsKept(g, Joined(g, p, n))
    ensures forall q | q in LiveOf(g) && q != p && q != n ::
              q in g.tiles && q in Joined(g, p, n).tiles && Joined(g, p, n).tiles[q] == g.tiles[q]
  {}

  lemma WithoutSecond(s: seq<int>)
    requires |s| > 1 && s[0] != 0 && s[1] != 0 && NoRepeats(s)
    ensures var t := [s[0]] + s[2..]; NoRepeats(t) && Named(t) == Named(s) - {s[1] - 8}
  {
    var t := [s[0]] + s[2..];
    NamedHead(s);
    NamedHead(s[1..]);
    NamedHead(t);
    assert s[1..][1..] == s[2..] && t[1..] == s[2..];
    forall i, j | 0 <= i < j < |t| && t[i] != 0 ensures t[i] != t[j] {
      assert s[if i == 0 then 0 else i + 1] != s[j + 1];
    }
  }

  lemma StepJoin(g0: Tags, g: Tags, s: seq<int>, ps: set<int>, p: int, n: int)
    requires |s| > 1 && s[0] != 0 && s[1] != 0 && p == s[0] - 8 && n == s[1] - 8 && Remaining(g0, g, s, ps)
    requires Held(g, p) && Held(g, n) && p < n < End(g.tiles, n) && forall r | r in g.recs :: r in g.tiles
    ensures Remaining(g0, Joined(g, p, n), [s[0]] + s[2..], ps)
  {
    JoinLive(g, p, n);
    hide LiveOf, Joined;
    var t := [s[0]] + s[2..];
    WithoutSecond(s);
    forall q | q in LiveOf(g0) - ps
      ensures q in g0.tiles && q in Joined(g, p, n).tiles && Joined(g, p, n).tiles[q] == g0.tiles[q]
    {
      assert q in LiveOf(g) - Named(s);
    }
  }

  /** set_inuse over both chunks. */
  method JoinNext(m: MState, p: int, newsize: nat, ghost n: int)
    requires m.Valid() && Held(m.G(), p) && Held(m.G(), n) && End(m.tiles, p) == n
    requires newsize == m.tiles[n].size + m.tiles[p].size
    requires p !in m.guard.kept && n !in m.guard.kept
    modifies m`head, m`tiles
    ensures p < n < old(End(m.tiles, n)) && m.Valid() && m.G() == Joined(old(m.G()), p, n)
  {
    hide TagsOk, SegsOk, BinsInv, Known, Match, FootprintOk, KeptOk;
    ghost var g := m.G();
    JoinOk(m.segs, m.least, g, p, n);
    Realloc.SetInuse(m, p, newsize);
    m.tiles := Joined(g, p, n).tiles;
    assert m.head == Joined(g, p, n).head;
    JoinMatch(m.v.sz, g, m.dv, m.dvsize, p, n, m.least, m.head);
    JoinedKept(m.guard, old(m.Words()), g, p, n);
  }

  lemma JoinedKept(k: Guard, c: Cells, g: Tags, p: int, n: int)
    requires KeptOk(k, c, g) && c == WithTags(c, g) && TagsOk(g) && Held(g, p) && Held(g, n) && End(g.tiles, p) == n
    requires p < n < End(g.tiles, n) && TagsOk(Joined(g, p, n)) && p !in k.kept && n !in k.kept
    ensures KeptOk(k, WithTags(c, Joined(g, p, n)), Joined(g, p, n))
  {
    hide TagsOk, KeptOk;
    JoinEnd(g, p, n);
    JoinedStay(k, c, g, p, n);
    RetagKept(k, c, g, Joined(g, p, n), iset{p, End(g.tiles, n)}, {});
  }

  lemma JoinEnd(g: Tags, p: int, n: int)
    requires TagsOk(g) && Held(g, p) && Held(g, n) && End(g.tiles, p) == n
    ensures HeadPlace(g, End(g.tiles, n))
  {
    hide Apart, TopApart, Shapes, HeadsOk, UsedNext, FreeNext, PrevFree;
  }

  lemma JoinedStay(k: Guard, c: Cells, g: Tags, p: int, n: int)
    requires KeptOk(k, c, g) && p in g.tiles && n in g.tiles && p < n < End(g.tiles, n) && p !in k.kept && n !in k.kept
    requires p !in g.recs && n !in g.recs
    ensures RecordsOk(Joined(g, p, n))
    ensures var g' := Joined(g, p, n); forall q | q in k.kept :: Held(g', q) && k.kept[q] <= g'.tiles[q].size
  {
    hide SameIn;
    forall q | q in k.kept
      ensures var g' := Joined(g, p, n); Held(g', q) && k.kept[q] <= g'.tiles[q].size
    {
      assert KeptOne(k, c, g, q);
    }
  }

  lemma FirstNamed(g0: Tags, g: Tags, s: seq<int>, ps: set<int>)
    requires Remaining(g0, g, s, ps) && |s| > 0 && TagsOk(g)
    ensures s[0] != 0 ==> Held(g, s[0] - 8)
    ensures |s| > 1 && s[1] != 0 ==> Held(g, s[1] - 8)
    ensures (s[0] != 0 ==> s[0] - 8 in ps) && (|s| > 1 && s[1] != 0 ==> s[1] - 8 in ps)
  {
    hide TagsOk;
    if s[0] != 0 { assert s[0] - 8 in Named(s); }
    if |s| > 1 && s[1] != 0 { assert s[1] - 8 in Named(s); }
  }

  // ----- what becomes of the victim

  /** The memory that began at dv is part of chunk dv' now, or of top. */
  ghost predicate Home(g: Tags, dv: int, dv': int) {
    if dv == 0 then dv' == 0
    else if dv' == 0 then g.top <= dv < g.top + g.topsize
    else AllocOps.FreeChunk(g, dv') && dv' <= dv < End(g.tiles, dv')
  }

  lemma HomeStart(m: MState)
    requires m.Valid()
    ensures Home(m.G(), m.dv, m.dv) && DvOk(m.tiles, m.dv, m.dvsize)
  {
    hide SegsOk, BinsInv, Known, FootprintOk, KeptOk, TagsOk;
    ShapesOf(m.G());
  }

  lemma VictimNow(m: MState)
    requires m.Valid()
    ensures DvOk(m.tiles, m.dv, m.dvsize) && (m.dv == 0 ==> m.dvsize == 0)
  {
    hide SegsOk, BinsInv, Known, FootprintOk, KeptOk, TagsOk;
    ShapesOf(m.G());
  }

  lemma FreedHome(g: Tags, p: int, g': Tags, dv: int, dv1: int, dvsize1: nat, dv2: int, dvsize2: nat)
    requires TagsOk(g) && Held(g, p) && Freed(g, p, g') && Home(g, dv, dv1) && DvOk(g.tiles, dv1, dvsize1)
    requires VictimFreed(g, p, dv1, dvsize1, dv2, dvsize2)
    ensures Home(g', dv, dv2)
  {
    hide TagsOk, Back, Fwd, RunOf, Freed;
    FreedSpan(g, p);
    FreedAside(g, p, g');
  }

  /** A run lies between its bounds. */
  lemma FreedSpan(g: Tags, p: int)
    requires TagsOk(g) && Held(g, p)
    ensures Back(g, p) > 0 && 0 !in RunOf(g, p)
    ensures forall q | q in RunOf(g, p) :: q in g.tiles && Back(g, p) <= q && End(g.tiles, q) <= Fwd(g, p)
  {
    RunOfOk(g, p);
    RunTiles(g, p);
    RunBounds(g, Back(g, p), Fwd(g, p), RunOf(g, p));
    hide TagsOk, Back, Fwd, RunOf, RunLinks;
  }

  /** What freeing p makes of the chunks and of top, in terms of its run. */
  lemma FreedAside(g: Tags, p: int, g': Tags)
    requires TagsOk(g) && Held(g, p) && Freed(g, p, g')
    ensures Back(g, p) in RunOf(g, p)
    ensures forall q | q in g.tiles && q !in RunOf(g, p) :: q in g'.tiles && g'.tiles[q] == g.tiles[q]
    ensures if Fwd(g, p) == g.top then
              g'.top == Back(g, p) <= g.top && g'.top + g'.topsize == g.top + g.topsize
            else
              && FreeChunkAt(g', Back(g, p), Fwd(g, p)) && g'.top == g.top && g'.topsize == g.topsize
  {
    RunTiles(g, p);
    hide TagsOk, Back, Fwd, RunOf;
  }

  predicate FreeChunkAt(g: Tags, b: int, e: int) { AllocOps.FreeChunk(g, b) && End(g.tiles, b) == e }

  lemma JoinHome(g: Tags, p: int, n: int, dv: int, dv1: int)
    requires Held(g, p) && Held(g, n) && p < n < End(g.tiles, n) && Home(g, dv, dv1)
    ensures Home(Joined(g, p, n), dv, dv1)
  {}

  /** Told from the chunks alone: the victim is the free chunk that now holds what was at dv, if there is one. */
  ghost predicate VictimFollows(g: Tags, dv: int, dv': int) {
    if dv' != 0 then dv != 0 && AllocOps.FreeChunk(g, dv') && dv' <= dv < End(g.tiles, dv')
    else dv == 0 || forall q | AllocOps.FreeChunk(g, q) :: !(q <= dv < End(g.tiles, q))
  }

  lemma HomeFollows(g: Tags, dv: int, dv': int)
    requires TagsOk(g) && Home(g, dv, dv')
    ensures forall g': Tags | g'.tiles == g.tiles :: VictimFollows(g', dv, dv')
  {
    hide Apart, Shapes, Followed, HeadsOk, UsedNext, FreeNext, PrevFree, TopTag;
  }

  lemma OneHome(g: Tags, dv: int, dv1: int, dv2: int)
    requires TagsOk(g) && VictimFollows(g, dv, dv1) && VictimFollows(g, dv, dv2)
    ensures dv1 == dv2
  {
    hide TopApart, Shapes, Followed, HeadsOk, UsedNext, FreeNext, PrevFree, TopTag;
  }

  /** One turn of the loop: a null pointer, a chunk joined to its neighbour in the array, or a chunk freed. */
  method FreeOrJoin(m: MState, a: array<int>, i: nat, ghost g0: Tags, ghost ps: set<int>, ghost dv: int)
    requires m.Valid() && i < a.Length && Remaining(g0, m.G(), a[i..], ps) && m.guard.kept.Keys !! ps
    requires Home(m.G(), dv, m.dv)
    modifies m`smallmap, m`treemap, m`treebins, m`fd, m`bk, m`child, m`parent, m`index, m`v
    modifies m`head, m`foot, m`tiles, m`top, m`topsize, m`dv, m`dvsize, a
    ensures m.Valid() && Remaining(g0, m.G(), a[i + 1..], ps) && a[i] == 0
    ensures forall k | 0 <= k < i :: a[k] == old(a[k])
    ensures Home(m.G(), dv, m.dv)
  {
    hide TagsOk, SegsOk, BinsInv, Known, Match, FootprintOk, Remaining, Freed, KeptOk, Home, VictimFreed;
    ghost var g, s, dv1, dvsize1 := m.G(), a[i..], m.dv, m.dvsize;
    VictimNow(m);
    FirstNamed(g0, g, s, ps);
    var mem := a[i];
    if mem != 0 {
      var p := mem - 8;
      ChunkFacts(m.segs, m.least, g, p);
      var psize := ChunkSize(m.head, p);
      a[i] := 0;
      if p >= m.least && HeadAt(m.head, p).cinuse {
        var b := i + 1;
        var next := p + psize;
        if b < a.Length && a[b] == next + 8 {
          assert Held(g, next);
          RecsIn(g);
          ChunkFacts(m.segs, m.least, g, next);
          JoinOk(m.segs, m.least, g, p, next);
          StepJoin(g0, g, s, ps, p, next);
          JoinHome(g, p, next, dv, dv1);
          var newsize := ChunkSize(m.head, next) + psize;
          JoinNext(m, p, newsize, next);
          a[b] := p + 8;
          assert a[b..] == [s[0]] + s[2..];
        } else {
          DisposeChunk(m, p, psize);
          FreedLive(g, p, m.G());
          StepFree(g0, g, m.G(), s, ps, p);
          FreedHome(g, p, m.G(), dv, dv1, dvsize1, m.dv, m.dvsize);
          assert a[b..] == s[1..];
        }
      } else {
        assert false;
      }
    } else {
      SkipNull(g0, g, s, ps);
      assert a[i + 1..] == s[1..];
    }
  }

  /** The loop of internal_bulk_free. */
  method FreeAll(m: MState, a: array<int>)
    requires m.Valid() && NoRepeats(a[..]) && Named(a[..]) <= LiveOf(m.G()) && m.guard.kept.Keys !! Named(a[..])
    modifies m`smallmap, m`treemap, m`treebins, m`fd, m`bk, m`child, m`parent, m`index, m`v
    modifies m`head, m`foot, m`tiles, m`top, m`topsize, m`dv, m`dvsize, a
    ensures m.Valid() && Released(old(m.G()), m.G(), Named(old(a[..]))) && forall k | 0 <= k < a.Length :: a[k] == 0
    ensures Home(m.G(), old(m.dv), m.dv)
  {
    hide TagsOk, SegsOk, BinsInv, Known, Match, FootprintOk, Remaining, Released, LiveOf, KeptOk, Home;
    ghost var g0, ps, dv := m.G(), Named(a[..]), m.dv;
    HomeStart(m);
    RecsIn(g0);
    assert a[0..] == a[..];
    Begun(g0, a[..]);
    var i := 0;
    while i < a.Length
      invariant 0 <= i <= a.Length && m.Valid() && Remaining(g0, m.G(), a[i..], ps)
      invariant Home(m.G(), dv, m.dv) && forall k | 0 <= k < i :: a[k] == 0
    {
      FreeOrJoin(m, a, i, g0, ps, dv);
      i := i + 1;
    }
    assert a[i..] == [];
    AllGone(g0, m.G(), ps);
  }

  /** The loop, and what it leaves alone: all that other callers hold. */
  method FreeAllSparing(m: MState, a: array<int>)
    requires m.Valid() && NoRepeats(a[..]) && Named(a[..]) <= LiveOf(m.G())
    modifies m`smallmap, m`treemap, m`treebins, m`fd, m`bk, m`child, m`parent, m`index, m`v
    modifies m`head, m`foot, m`tiles, m`top, m`topsize, m`dv, m`dvsize, m`guard, a
    ensures m.Valid() && Released(old(m.G()), m.G(), Named(old(a[..]))) && forall k | 0 <= k < a.Length :: a[k] == 0
    ensures m.guard == GuardOf(old(m.G()), old(m.Words()), Named(old(a[..])))
    ensures Home(m.G(), old(m.dv), m.dv)
  {
    hide TagsOk, SegsOk, BinsInv, Known, Match, FootprintOk, Released, LiveOf, KeptOk, GuardOf, Named, NoRepeats, Home;
    ghost var g, c, ps := m.G(), m.Words(), Named(a[..]);
    m.guard := GuardOf(g, c, ps);
    GuardStarts(old(m.guard), g, c, ps);
    GuardApart(g, c, ps);
    FreeAll(m, a);
  }

  /** internal_bulk_free: every named chunk is released, the array is cleared, and top is trimmed if it has grown
      large. */
  method InternalBulkFree(m: MState, sys: System, a: array<int>)
    requires m.Valid() && sys.Free(m.segs) && NoRepeats(a[..]) && Named(a[..]) <= LiveOf(m.G())
    modifies m, sys, a
    ensures m.Valid() && sys.Free(m.segs) && forall k | 0 <= k < a.Length :: a[k] == 0
    ensures Released(old(m.G()), m.G(), Named(old(a[..])))
    ensures Spared(old(m.G()), Named(old(a[..])), old(m.Words()), m.Words())
    ensures BulkBy(old(m.G()), old(Asking(m, sys)), Named(old(a[..])), Asking(m, sys))
    ensures VictimFollows(m.G(), old(m.dv), m.dv)
  {
    hide TagsOk, SegsOk, BinsInv, Known, Match, FootprintOk, Released, Spare, LiveOf, KeptOk, Spared, GuardOf, Named;
    hide NoRepeats, Coherent, BulkBy, Home, VictimFollows;
    ghost var g, p, c, ps := m.G(), Asking(m, sys), m.Words(), Named(a[..]);
    FreeAllSparing(m, a);
    CoherentNow(m, sys);
    ghost var g1 := m.G();
    HomeFollows(g1, old(m.dv), m.dv);
    TrimLargeTop(m, sys);
    BulkMeans(g, p, ps, g1, Asking(m, sys));
    ReleasedSame(g, g1, m.G(), ps);
    GuardSpares(g, ps, c, m.Words(), m.G());
  }

  /** Top is trimmed if it is larger than the threshold. */
  method TrimLargeTop(m: MState, sys: System)
    requires m.Valid() && sys.Free(m.segs)
    modifies m`segs, m`footprint, m`top, m`topsize, m`head, m`trimCheck, sys
    ensures m.Valid() && sys.Free(m.segs) && m.tiles == old(m.tiles)
    ensures TrimmedIfLarge(old(Asking(m, sys)), Asking(m, sys))
  {
    hide TagsOk, SegsOk, BinsInv, Known, Match, FootprintOk, Spare, KeptOk, SysTrim.TrimmedBy, SysTrim.Trims;
    if m.topsize > m.trimCheck {
      var trimmed := SysTrim.SysTrim(m, sys, 0);
    }
  }

  ghost predicate TrimmedIfLarge(p: Position, p': Position) {
    if p.topsize > p.trimCheck then SysTrim.TrimmedBy(p, 0, p') else p' == p
  }

  /** Exactly when that gives memory back. */
  lemma BulkTrims(p: Position, p': Position)
    requires TrimmedIfLarge(p, p') && p.topsize < TWO32 && (p.segs != [] ==> p.segs[0].base > 0)
    ensures p'.sys.brk < p.sys.brk
            <==> && p.segs != [] && p.topsize > p.trimCheck && p.topsize > TOP_FOOT_SIZE + PAGE_SIZE
                 && p.sys.brk == SegEnd(p.segs[0]) && !Refuses(p.sys.refusals)
    ensures p.sys.brk - p'.sys.brk == p.footprint - p'.footprint == p.topsize - p'.topsize
  {
    hide SysTrim.TrimmedBy, SysTrim.Trims;
    if p.topsize > p.trimCheck {
      SysTrim.TrimExact(p, 0);
      SysTrim.TrimConserves(p, 0, p');
    }
  }

  /** What a bulk free makes of the position: the chunks of ps are freed, and then top is trimmed once. */
  ghost predicate BulkBy(g: Tags, p: Position, ps: set<int>, p': Position) {
    exists g1: Tags ::
      && Released(g, g1, ps) && Coherent(g1, p.(top := g1.top, topsize := g1.topsize))
      && TrimmedIfLarge(p.(top := g1.top, topsize := g1.topsize), p')
  }

  lemma BulkMeans(g: Tags, p: Position, ps: set<int>, g1: Tags, p': Position)
    requires Released(g, g1, ps) && Coherent(g1, p.(top := g1.top, topsize := g1.topsize))
    requires TrimmedIfLarge(p.(top := g1.top, topsize := g1.topsize), p')
    ensures BulkBy(g, p, ps, p')
  {
    hide Released, Coherent, TrimmedIfLarge;
  }

  lemma GuardApart(g: Tags, c: Cells, x: set<int>)
    ensures GuardOf(g, c, x).kept.Keys !! x
  {}

  lemma ReleasedSame(g: Tags, g1: Tags, g2: Tags, ps: set<int>)
    requires Released(g, g1, ps) && g2.tiles == g1.tiles && g2.recs == g1.recs
    ensures Released(g, g2, ps)
  {}

  // ----- the order of freeing does not matter

  lemma ReleasedUsed(g: Tags, g1: Tags, g2: Tags, ps: set<int>)
    requires Released(g, g1, ps) && Released(g, g2, ps) && forall r | r in g.recs :: r in g.tiles
    ensures SameUsed(g1, g2)
  {
    forall p | p in g1.tiles && g1.tiles[p].used ensures p in g2.tiles && g2.tiles[p] == g1.tiles[p] {
      if p !in g.recs { assert p in LiveOf(g1) && p in LiveOf(g2); }
    }
    forall p | p in g2.tiles && g2.tiles[p].used ensures p in g1.tiles && g1.tiles[p] == g2.tiles[p] {
      if p !in g.recs { assert p in LiveOf(g2) && p in LiveOf(g1); }
    }
  }

  /** Releasing the same chunks leaves the same free extents and the same top. */
  lemma ReleaseDetermined(segs: seq<Segment>, least: int, g: Tags, g1: Tags, g2: Tags, ps: set<int>)
    requires TagsOk(g) && TagsOk(g1) && TagsOk(g2) && SegsOk(segs, least, g1) && SegsOk(segs, least, g2)
    requires Released(g, g1, ps) && Released(g, g2, ps)
    ensures g2.tiles == g1.tiles && g2.top == g1.top && g2.topsize == g1.topsize
  {
    hide TagsOk, SegsOk, Released, SameUsed;
    RecsIn(g);
    ReleasedUsed(g, g1, g2, ps);
    TilingDetermined(segs, least, g1, g2);
  }

  // ----- one at a time

  lemma ReleasedNone(g: Tags)
    requires forall r | r in g.recs :: r in g.tiles
    ensures Released(g, g, {})
  {}

  lemma ReleasedTrans(g: Tags, g1: Tags, g2: Tags, a: set<int>, b: set<int>)
    requires Released(g, g1, a) && Released(g1, g2, b)
    ensures Released(g, g2, a + b)
  {}

  lemma FreedReleased(g: Tags, p: int, g': Tags)
    requires TagsOk(g) && Held(g, p) && Freed(g, p, g')
    ensures Released(g, g', {p})
  {
    hide TagsOk, Freed;
    FreedLive(g, p, g');
  }

  lemma NamedLast(s: seq<int>, i: nat)
    requires i < |s| && NoRepeats(s)
    ensures Named(s[..i + 1]) == Named(s[..i]) + (if s[i] != 0 then {s[i] - 8} else {})
    ensures s[i] != 0 ==> s[i] - 8 in Named(s) && s[i] - 8 !in Named(s[..i])
  {
    forall x | x in Named(s[..i + 1]) ensures x in Named(s[..i]) || x == s[i] - 8 {
      var k :| 0 <= k < i + 1 && s[k] != 0 && s[k] - 8 == x;
      assert k < i ==> s[..i][k] == s[k];
    }
    forall x | x in Named(s[..i]) ensures x in Named(s[..i + 1]) {
      var k :| 0 <= k < i && s[k] != 0 && s[k] - 8 == x;
      assert s[..i + 1][k] == s[k];
    }
    assert s[..i + 1][i] == s[i];
    forall k | 0 <= k < i && s[k] != 0 ensures s[k] != s[i] {}
  }

  /** A held chunk is freed, and no word changes that overlaps what any other caller holds. */
  method DisposeOne(m: MState, p: int)
    requires m.Valid() && Held(m.G(), p)
    modifies m`smallmap, m`treemap, m`treebins, m`fd, m`bk, m`child, m`parent, m`index, m`v
    modifies m`head, m`foot, m`tiles, m`top, m`topsize, m`dv, m`dvsize, m`guard
    ensures m.Valid() && Released(old(m.G()), m.G(), {p}) && Freed(old(m.G()), p, m.G())
    ensures VictimFreed(old(m.G()), p, old(m.dv), old(m.dvsize), m.dv, m.dvsize)
    ensures Spared(old(m.G()), {p}, old(m.Words()), m.Words())
  {
    hide TagsOk, SegsOk, BinsInv, Known, Match, FootprintOk, Released, Freed, KeptOk, Spared, GuardOf, VictimFreed;
    ghost var g, c := m.G(), m.Words();
    m.guard := GuardOf(g, c, {p});
    GuardStarts(old(m.guard), g, c, {p});
    GuardApart(g, c, {p});
    ChunkFacts(m.segs, m.least, g, p);
    DisposeChunk(m, p, ChunkSize(m.head, p));
    FreedReleased(g, p, m.G());
    GuardSpares(g, {p}, c, m.Words(), m.G());
  }

  /** The same pointers, in any order, freed one at a time. */
  method FreeEach(m: MState, s: seq<int>)
    requires m.Valid() && NoRepeats(s) && Named(s) <= LiveOf(m.G())
    modifies m`smallmap, m`treemap, m`treebins, m`fd, m`bk, m`child, m`parent, m`index, m`v
    modifies m`head, m`foot, m`tiles, m`top, m`topsize, m`dv, m`dvsize, m`guard
    ensures m.Valid() && Released(old(m.G()), m.G(), Named(s)) && Home(m.G(), old(m.dv), m.dv)
  {
    hide TagsOk, SegsOk, BinsInv, Known, Match, FootprintOk, Released, Freed, KeptOk, Named, LiveOf, NoRepeats;
    hide Home, VictimFreed;
    ghost var g, dv := m.G(), m.dv;
    HomeStart(m);
    RecsIn(g);
    ReleasedNone(g);
    NamedNone(s);
    var i := 0;
    while i < |s|
      invariant 0 <= i <= |s| && m.Valid() && Released(g, m.G(), Named(s[..i])) && Home(m.G(), dv, m.dv)
    {
      NamedLast(s, i);
      ghost var g1, dv1, dvsize1 := m.G(), m.dv, m.dvsize;
      VictimNow(m);
      if s[i] != 0 {
        StillHeld(g, g1, Named(s[..i]), s[i] - 8);
        DisposeOne(m, s[i] - 8);
        FreedHome(g1, s[i] - 8, m.G(), dv, dv1, dvsize1, m.dv, m.dvsize);
        ReleasedTrans(g, g1, m.G(), Named(s[..i]), {s[i] - 8});
      } else {
        assert Named(s[..i]) + {} == Named(s[..i]);
      }
      i := i + 1;
    }
    assert s[..i] == s;
  }

  lemma NamedNone(s: seq<int>)
    ensures Named(s[..0]) == {}
  {}

  lemma StillHeld(g: Tags, g1: Tags, ps: set<int>, p: int)
    requires Released(g, g1, ps) && p in LiveOf(g) && p !in ps
    ensures Held(g1, p)
  {
    assert p in LiveOf(g1);
  }

  /** Bulk freeing ends with the tiling that freeing the same pointers one at a time, in any order, ends with. */
  method BulkEqualsEach(m: MState, n: MState, a: array<int>, s: seq<int>)
    requires m != n && m.Valid() && n.Valid() && n.G() == m.G() && n.segs == m.segs && n.least == m.least
    requires NoRepeats(a[..]) && NoRepeats(s) && Named(s) == Named(a[..]) <= LiveOf(m.G())
    modifies m, n, a
    ensures m.Valid() && n.Valid() && n.tiles == m.tiles && n.top == m.top && n.topsize == m.topsize
    ensures Released(old(m.G()), m.G(), Named(s))
    ensures old(n.dv) == old(m.dv) ==> n.dv == m.dv && n.dvsize == m.dvsize
  {
    hide TagsOk, SegsOk, BinsInv, Known, Match, FootprintOk, Released, KeptOk, Named, LiveOf, NoRepeats, GuardOf;
    hide Home, VictimFollows;
    ghost var g, ps := m.G(), Named(a[..]);
    FreeAllSparing(m, a);
    HomeFollows(m.G(), old(m.dv), m.dv);
    VictimNow(m);
    FreeEach(n, s);
    HomeFollows(n.G(), old(n.dv), n.dv);
    VictimNow(n);
    ReleaseDetermined(m.segs, m.least, g, m.G(), n.G(), ps);
    if old(n.dv) == old(m.dv) { OneHome(m.G(), old(m.dv), m.dv, n.dv); }
  }
}
