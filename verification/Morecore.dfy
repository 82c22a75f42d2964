/** How sys_alloc asks the system for memory. */
module Morecore {
  import opened Words
  import opened Rings
  import opened Tries
  import opened Bins
  import opened Tiling
  import opened TagOps
  import opened Segments
  import opened SegOps
  import opened SysOps
  import opened SysSegs
  import opened Coalesce
  import opened State
  import opened Keeping
  import opened Consolidate
  import opened AllocOps
  import opened Sbrk
  import Malloc

  const SYS_ALLOC_PADDING := 48

  /** page_align and granularity_align: both units are a page. */
  function GranularityAlign(s: nat): (r: nat)
    ensures r < TWO32 && r % PAGE_SIZE == 0
    ensures s + PAGE_SIZE <= TWO32 ==> s <= r < s + PAGE_SIZE
  {
    var t := Wrap(s + (PAGE_SIZE - 1));
    t - t % PAGE_SIZE
  }

  /** The region continues top's segment. */
  predicate Continues(segs: seq<Segment>, tbase: nat) { segs != [] && tbase == SegEnd(segs[0]) }

  /** The region is large enough for the request: it extends top far enough, or is large enough alone, and wastes less
      than two pages. */
  predicate Ample(segs: seq<Segment>, topsize: nat, nb: nat, tbase: nat, tsize: nat) {
    && 64 <= tsize < nb + SYS_ALLOC_PADDING + 2 * PAGE_SIZE
    && (tsize >= nb + SYS_ALLOC_PADDING || (Continues(segs, tbase) && topsize + tsize >= nb + SYS_ALLOC_PADDING))
  }

  // ----- what the system hands over

  /** What sys_alloc and sys_trim look at: the heap's side, and the system. */
  datatype Position = Position(segs: seq<Segment>, top: int, topsize: nat, contiguous: bool,
                               footprint: nat, footprintLimit: nat, trimCheck: nat, sys: Oracle)

  function Asking(m: MState, sys: System): Position
    reads m, sys
  {
    Position(m.segs, m.top, m.topsize, m.contiguous, m.footprint, m.footprintLimit, m.trimCheck, sys.Now())
  }

  /** The region obtained, if any, and the system afterwards. */
  datatype Reply = Reply(region: Option<Segment>, sys: Oracle)

  function Got(tbase: Option<nat>, tsize: nat): Option<Segment> {
    if tbase.Some? then Some(Segment(tbase.value, tsize)) else None
  }

  /** One call for size bytes, if that many may be asked for. */
  function Once(o: Oracle, size: nat): Reply {
    if size >= HALF_MAX_SIZE_T then Reply(None, o)
    else Reply(if o.Grants(size) then Some(Segment(o.brk, size)) else None, o.Grown(size))
  }

  /** The first region: up to a page boundary, within the footprint limit. */
  function FirstReply(p: Position, nb: nat, asize: nat): Reply
    requires p.sys.brk < TWO32
  {
    var ssize := FirstRequest(asize, p.sys.brk);
    if ssize > nb && LimitAdmits(p.footprint, p.footprintLimit, ssize) then Once(p.sys, ssize) else Reply(None, p.sys)
  }

  /** The padding is added, kept away or, should the system turn it down, the region goes back. */
  function PadReply(o: Oracle, br: nat, ssize: nat, esize: nat): Reply {
    if esize >= HALF_MAX_SIZE_T then Reply(Some(Segment(br, ssize)), o)
    else if o.Grants(esize) then Reply(Some(Segment(br, ssize + esize)), o.Grown(esize))
    else Reply(None, o.Grown(esize).Shrunk(ssize))
  }

  /** A region that should extend top; padded where it does not and is too small alone. */
  function ExtendReply(p: Position, nb: nat): Reply
    requires p.segs != [] && p.topsize <= nb
  {
    var ssize := ExtendSize(nb, p.topsize);
    var r := Once(p.sys, ssize);
    if r.region.None? || p.sys.brk == SegEnd(p.segs[0]) || ssize >= nb + SYS_ALLOC_PADDING then r
    else PadReply(r.sys, p.sys.brk, ssize, ExtraSize(nb, ssize))
  }

  /** The heap may ask for nb bytes: top has not enough of its own. */
  predicate MayAsk(p: Position, nb: nat) {
    && p.sys.brk < TWO32 && p.topsize <= nb < TWO32 && (p.top == 0 <==> p.segs == [])
    && (p.segs != [] ==> SegEnd(p.segs[0]) % 4 == 0)
  }

  /** The contiguous attempt, unless one failed before. */
  function ContiguousReply(p: Position, nb: nat, asize: nat): Reply
    requires MayAsk(p, nb)
  {
    if !p.contiguous then Reply(None, p.sys)
    else if p.top == 0 then FirstReply(p, nb, asize)
    else ExtendReply(p, nb)
  }

  /** The attempts in the order of the source: the contiguous one, then everything afresh. */
  function SystemReply(p: Position, nb: nat, asize: nat): Reply
    requires MayAsk(p, nb)
  {
    var r := ContiguousReply(p, nb, asize);
    if r.region.Some? then r else Once(r.sys, asize)
  }

  /** The region is nobody else's, whether it suits the request or not. */
  ghost predicate Obtained(m: MState, sys: System, tbase: nat, tsize: nat)
    reads m, sys
  {
    FreshRange(m.segs, tbase, tbase + tsize) && tsize >= 64 && sys.Free([Segment(tbase, tsize)] + m.segs)
  }

  lemma GrownFree(segs: seq<Segment>, brk: nat, n: nat, room: nat)
    requires n > 0 && brk > 0 && brk + n + room <= TWO32
    requires Spare(segs, brk, n + room)
    ensures FreshRange(segs, brk, brk + n) && Spare([Segment(brk, n)] + segs, brk + n, room)
  {}

  /** MORECORE with a non-contiguous result: ask for everything afresh. The region ends at a word exactly if the break
      was at one. */
  method MorecoreFresh(m: MState, sys: System, nb: nat, asize: nat) returns (tbase: Option<nat>, tsize: nat)
    requires sys.Free(m.segs) && asize % PAGE_SIZE == 0 && 16 <= nb && nb + SYS_ALLOC_PADDING <= asize < TWO32
    requires asize < nb + SYS_ALLOC_PADDING + PAGE_SIZE
    modifies sys
    ensures tbase.Some? ==> Obtained(m, sys, tbase.value, tsize) && nb + SYS_ALLOC_PADDING <= tsize
    ensures tbase.Some? ==> Ample(m.segs, m.topsize, nb, tbase.value, tsize)
    ensures tbase.Some? ==> ((tbase.value + tsize) % 4 == 0 <==> old(sys.brk) % 4 == 0)
    ensures tbase.None? ==> sys.Free(m.segs)
    ensures Reply(Got(tbase, tsize), sys.Now()) == Once(old(sys.Now()), asize)
  {
    hide FreshRange, GranularityAlign;
    PageMod(asize);
    tbase, tsize := None, 0;
    if asize < HALF_MAX_SIZE_T {
      var br := sys.Grow(asize);
      var end := sys.Grow(0);
      if br.Some? {
        GrownFree(m.segs, br.value, asize, sys.room);
      }
      if br.Some? && end.Some? && br.value < end.value {
        var ssize := end.value - br.value;
        if ssize > nb + TOP_FOOT_SIZE {
          tbase, tsize := br, ssize;
        }
      }
    }
  }

  const HALF_MAX_SIZE_T := 0x7FFF_FFFF

  predicate SegmentHolds(s: Segment, a: int) { s.base <= a < SegEnd(s) }

  /** segment_holding: the first segment of the list that holds an address. */
  method SegmentHolding(segs: seq<Segment>, a: int) returns (i: nat)
    ensures i <= |segs|
    ensures i < |segs| ==> SegmentHolds(segs[i], a)
    ensures forall j | 0 <= j < i :: !SegmentHolds(segs[j], a)
  {
    hide SegmentHolds;
    i := 0;
    while i < |segs|
      invariant i <= |segs|
      invariant forall j | 0 <= j < i :: !SegmentHolds(segs[j], a)
    {
      if SegmentHolds(segs[i], a) {
        return;
      }
      i := i + 1;
    }
  }

  /** The footprint limit, if there is one, admits size more bytes. */
  predicate LimitAdmits(footprint: nat, limit: nat, size: nat) {
    limit == 0 || (Wrap(footprint + size) > footprint && Wrap(footprint + size) <= limit)
  }

  /** Top is extended, or the region is padded out to stand alone: how much more is asked for. */
  function ExtraSize(nb: nat, ssize: nat): nat
    requires ssize <= nb + SYS_ALLOC_PADDING
  {
    GranularityAlign(nb + SYS_ALLOC_PADDING - ssize)
  }

  function ExtendSize(nb: nat, topsize: nat): nat
    requires topsize <= nb
  {
    GranularityAlign(nb - topsize + SYS_ALLOC_PADDING)
  }

  /** Should the first call not extend top, the region is large enough alone, or the padding it lacks may be asked
      for. */
  predicate PadFits(nb: nat, topsize: nat)
    requires topsize <= nb
  {
    var ssize := ExtendSize(nb, topsize);
    ssize >= nb + SYS_ALLOC_PADDING || ExtraSize(nb, ssize) < HALF_MAX_SIZE_T
  }

  /** What the padding makes of the region: enough for the request exactly if it may be asked for; else it stays
      short by half the address space. */
  lemma PadExact(nb: nat, topsize: nat)
    requires topsize <= nb && nb + SYS_ALLOC_PADDING + PAGE_SIZE <= TWO32
    ensures var ssize := ExtendSize(nb, topsize);
            && ssize % PAGE_SIZE == 0
            && (ssize < nb + SYS_ALLOC_PADDING ==>
                  && (PadFits(nb, topsize) <==> nb + SYS_ALLOC_PADDING - ssize <= 0x7FFF_F000)
                  && ExtraSize(nb, ssize) % PAGE_SIZE == 0
                  && nb + SYS_ALLOC_PADDING <= ssize + ExtraSize(nb, ssize) < nb + SYS_ALLOC_PADDING + PAGE_SIZE)
            && (!PadFits(nb, topsize) ==> ssize + 0x7FFF_F000 < nb + SYS_ALLOC_PADDING)
  {
    PageStep(nb + SYS_ALLOC_PADDING - ExtendSize(nb, topsize));
  }

  /** Rounding up passes half the address space only from its last page on. */
  lemma PageStep(s: int)
    ensures 0 <= s && s + PAGE_SIZE <= TWO32 ==> (GranularityAlign(s) < HALF_MAX_SIZE_T <==> s <= 0x7FFF_F000)
  {
    if 0 <= s && s + PAGE_SIZE <= TWO32 {
      var r := GranularityAlign(s);
      assert r == PAGE_SIZE * (r / PAGE_SIZE);
    }
  }

  lemma PageUp(k: nat, j: nat)
    requires 0 < j < PAGE_SIZE && PAGE_SIZE * k + j < TWO32
    ensures Sub32(GranularityAlign(PAGE_SIZE * k + j), PAGE_SIZE * k + j) == PAGE_SIZE - j
  {
    var s := PAGE_SIZE * k + j;
    assert s + (PAGE_SIZE - 1) == PAGE_SIZE * (k + 1) + (j - 1);
    if s + (PAGE_SIZE - 1) < TWO32 {
      assert Wrap(s + (PAGE_SIZE - 1)) == PAGE_SIZE * (k + 1) + (j - 1);
    } else {
      assert k + 1 == 0x10_0000;
      assert Wrap(s + (PAGE_SIZE - 1)) == j - 1;
    }
  }

  lemma PageMod(a: nat)
    requires a % PAGE_SIZE == 0
    ensures a % 4 == 0
    ensures a > 0 ==> a >= PAGE_SIZE
    ensures a < TWO32 ==> a <= TWO32 - PAGE_SIZE
  {
    var q := a / PAGE_SIZE;
    assert a == PAGE_SIZE * q;
    assert a == 4 * (1024 * q);
  }

  /** How much the first call asks for: enough to end at a page boundary. */
  function FirstRequest(asize: nat, base: nat): nat
    requires base < TWO32
  {
    if base % PAGE_SIZE != 0 then Wrap(asize + Sub32(GranularityAlign(base), base)) else asize
  }

  lemma WholePages(k: nat)
    ensures (PAGE_SIZE * k) % PAGE_SIZE == 0
  {}

  lemma FirstSize(asize: nat, base: nat)
    requires base < TWO32 && asize % PAGE_SIZE == 0 && asize < TWO32
    ensures asize <= FirstRequest(asize, base) < asize + PAGE_SIZE
    ensures (base + FirstRequest(asize, base)) % PAGE_SIZE == 0 && (base + FirstRequest(asize, base)) % 4 == 0
  {
    hide GranularityAlign;
    PageMod(asize);
    var k, j := base / PAGE_SIZE, base % PAGE_SIZE;
    assert base == PAGE_SIZE * k + j;
    var n := asize / PAGE_SIZE;
    assert asize == PAGE_SIZE * n;
    if j != 0 {
      PageUp(k, j);
      assert base + FirstRequest(asize, base) == PAGE_SIZE * (n + k + 1);
      WholePages(n + k + 1);
    } else {
      assert base + FirstRequest(asize, base) == PAGE_SIZE * (n + k);
      WholePages(n + k);
    }
    PageMod(base + FirstRequest(asize, base));
  }

  /** Asking for the first segment: from the break, wherever it is, to a page boundary. */
  method MorecoreFirst(m: MState, sys: System, nb: nat, asize: nat)
    returns (br: Option<nat>, base: Option<nat>, ssize: nat)
    requires sys.Free(m.segs) && asize % PAGE_SIZE == 0 && nb + SYS_ALLOC_PADDING <= asize < TWO32
    modifies sys
    ensures br.Some? ==> br == base && asize <= ssize < asize + PAGE_SIZE && (br.value + ssize) % 4 == 0
    ensures br.Some? ==> (br.value + ssize) % PAGE_SIZE == 0
    ensures br.Some? ==> FreshRange(m.segs, br.value, br.value + ssize) && sys.Free([Segment(br.value, ssize)] + m.segs)
    ensures br.None? ==> sys.Free(m.segs) && sys.brk == old(sys.brk)
    ensures Reply(Got(br, ssize), sys.Now()) == FirstReply(old(Asking(m, sys)), nb, asize)
  {
    hide FirstRequest, FreshRange, LimitAdmits;
    br, ssize := None, asize;
    base := sys.Grow(0);
    if base.Some? {
      FirstSize(asize, base.value);
      ssize := FirstRequest(asize, base.value);
      if ssize > nb && ssize < HALF_MAX_SIZE_T && LimitAdmits(m.footprint, m.footprintLimit, ssize) {
        br := sys.Grow(ssize);
        if br.Some? { GrownFree(m.segs, br.value, ssize, sys.room); }
      }
    }
  }

  /** MORECORE extending top's segment: the plain request, with no padding yet. */
  method MorecoreOnce(m: MState, sys: System, nb: nat) returns (br: Option<nat>, ssize: nat)
    requires sys.Free(m.segs) && m.topsize <= nb && nb + SYS_ALLOC_PADDING + PAGE_SIZE <= TWO32
    modifies sys
    ensures ssize == ExtendSize(nb, m.topsize) && ssize % 4 == 0 && ssize >= PAGE_SIZE
    ensures nb - m.topsize + SYS_ALLOC_PADDING <= ssize < nb - m.topsize + SYS_ALLOC_PADDING + PAGE_SIZE
    ensures br.Some? <==> ssize < HALF_MAX_SIZE_T && ssize <= old(sys.room) && !Refuses(old(sys.refusals))
    ensures br.Some? ==>
              FreshRange(m.segs, br.value, br.value + ssize) && br.value == old(sys.brk) && sys.brk == br.value + ssize
    ensures br.Some? ==> sys.Free([Segment(br.value, ssize)] + m.segs)
    ensures br.None? ==> sys.Free(m.segs) && sys.brk == old(sys.brk)
    ensures Reply(Got(br, ssize), sys.Now()) == Once(old(sys.Now()), ssize)
  {
    hide GranularityAlign, FreshRange;
    br := None;
    ssize := GranularityAlign(Sub32(nb, m.topsize) + SYS_ALLOC_PADDING);
    PageMod(ssize);
    if ssize < HALF_MAX_SIZE_T {
      br := sys.Grow(ssize);
      if br.Some? { GrownFree(m.segs, br.value, ssize, sys.room); }
    }
  }

  /** The free memory above the break, seen from a region just taken below it. */
  lemma FreeTail(segs: seq<Segment>, least: int, s: Segment, brk: nat, room: nat)
    requires SegShape(segs, least) && FreshRange(segs, s.base, brk) && SegEnd(s) == brk && Spare([s] + segs, brk, room)
    ensures s.base > 0 && Spare(segs, brk, room) && Spare(segs, s.base, brk - s.base + room)
  {
    var segs' := [s] + segs;
    forall i | 0 <= i < |segs| ensures room == 0 || SegEnd(segs[i]) <= brk || brk + room <= segs[i].base {
      assert segs'[i + 1] == segs[i];
    }
    forall i | 0 <= i < |segs| ensures SegEnd(segs[i]) <= s.base || brk + room <= segs[i].base {
      assert segs[i].size >= 8;
      assert SegEnd(segs[i]) <= s.base || brk <= segs[i].base;
    }
  }

  /** Padding out a region that did not extend top; if the padding is more than may be asked for, the region is kept
      as it is. */
  method MorecorePad(m: MState, sys: System, nb: nat, br: nat, ssize0: nat) returns (r: Option<nat>, ssize: nat)
    requires m.topsize <= nb && nb + SYS_ALLOC_PADDING + PAGE_SIZE <= TWO32 && SegShape(m.segs, m.least)
    requires ssize0 == ExtendSize(nb, m.topsize) && PAGE_SIZE <= ssize0 < nb + SYS_ALLOC_PADDING + PAGE_SIZE
    requires ssize0 % 4 == 0 && sys.brk == br + ssize0
    requires FreshRange(m.segs, br, br + ssize0) && sys.Free([Segment(br, ssize0)] + m.segs) && ssize0 < HALF_MAX_SIZE_T
    modifies sys
    ensures r.Some? ==> r.value == br && FreshRange(m.segs, br, br + ssize) && sys.Free([Segment(br, ssize)] + m.segs)
    ensures r.Some? ==> ssize % 4 == 0 && 64 <= ssize < nb + SYS_ALLOC_PADDING + 2 * PAGE_SIZE
    ensures r.Some? ==> (nb + SYS_ALLOC_PADDING <= ssize <==> PadFits(nb, m.topsize))
    ensures !PadFits(nb, m.topsize) ==> r == Some(br) && ssize == ssize0 && ssize < nb
    ensures r.None? ==> sys.Free(m.segs) && (sys.brk == br || sys.brk == br + ssize0)
    ensures Reply(Got(r, ssize), sys.Now())
            == if ssize0 < nb + SYS_ALLOC_PADDING then PadReply(old(sys.Now()), br, ssize0, ExtraSize(nb, ssize0))
               else Reply(Some(Segment(br, ssize0)), old(sys.Now()))
  {
    hide GranularityAlign, SegShape, FreshRange, ExtendSize, ExtraSize, PadFits, Spare, PadReply;
    PadMeans(nb, m.topsize);
    r, ssize := Some(br), ssize0;
    if ssize < HALF_MAX_SIZE_T && ssize < nb + SYS_ALLOC_PADDING {
      FreeTail(m.segs, m.least, Segment(br, ssize0), sys.brk, sys.room);
      var esize := GranularityAlign(nb + SYS_ALLOC_PADDING - ssize);
      r, ssize := PadOrRelease(m, sys, br, ssize, esize);
    }
  }

  lemma PadMeans(nb: nat, topsize: nat)
    requires topsize <= nb && nb + SYS_ALLOC_PADDING + PAGE_SIZE <= TWO32
    ensures var ssize := ExtendSize(nb, topsize);
            && (ssize >= nb + SYS_ALLOC_PADDING ==> PadFits(nb, topsize))
            && (ssize < nb + SYS_ALLOC_PADDING ==>
                  var esize := ExtraSize(nb, ssize);
                  && esize == GranularityAlign(nb + SYS_ALLOC_PADDING - ssize) && esize % 4 == 0
                  && (PadFits(nb, topsize) <==> esize < HALF_MAX_SIZE_T) && (esize < HALF_MAX_SIZE_T || ssize < nb)
                  && nb + SYS_ALLOC_PADDING <= ssize + esize < nb + SYS_ALLOC_PADDING + PAGE_SIZE)
  {
    hide GranularityAlign, ExtendSize;
    PadExact(nb, topsize);
    var ssize := ExtendSize(nb, topsize);
    if ssize < nb + SYS_ALLOC_PADDING { PageMod(ExtraSize(nb, ssize)); }
  }

  method PadOrRelease(m: MState, sys: System, br: nat, ssize0: nat, esize: nat) returns (r: Option<nat>, ssize: nat)
    requires 0 < br && ssize0 % 4 == 0 && esize % 4 == 0 && sys.brk == br + ssize0 && ssize0 > 0
    requires sys.Free(m.segs) && sys.Free([Segment(br, ssize0)] + m.segs) && FreshRange(m.segs, br, br + ssize0)
    requires Spare(m.segs, br, ssize0 + sys.room)
    modifies sys
    ensures r.Some? ==> r.value == br && ssize == if esize < HALF_MAX_SIZE_T then ssize0 + esize else ssize0
    ensures r.Some? ==> FreshRange(m.segs, br, br + ssize) && sys.Free([Segment(br, ssize)] + m.segs)
    ensures r.None? ==> esize < HALF_MAX_SIZE_T && sys.Free(m.segs) && (sys.brk == br || sys.brk == br + ssize0)
    ensures Reply(Got(r, ssize), sys.Now()) == PadReply(old(sys.Now()), br, ssize0, esize)
  {
    hide FreshRange;
    r, ssize := Some(br), ssize0;
    if esize < HALF_MAX_SIZE_T {
      var end := sys.Grow(esize);
      if end.Some? {
        ssize := ssize + esize;
        GrownFree(m.segs, br, ssize, sys.room);
      } else {
        var back := sys.Shrink(ssize);
        r := None;
      }
    }
  }

  /** Whether the region a contiguous attempt obtained is large enough. */
  predicate ReachesFar(segs: seq<Segment>, top: int, topsize: nat, nb: nat, tbase: nat)
    requires topsize <= nb
  {
    top == 0 || Continues(segs, tbase) || PadFits(nb, topsize)
  }

  /** Extending top's segment. What is obtained is large enough exactly if it extends top or may be padded. */
  method MorecoreExtend(m: MState, sys: System, nb: nat) returns (tbase: Option<nat>, tsize: nat)
    requires sys.Free(m.segs) && m.segs != [] && SegShape(m.segs, m.least) && m.top != 0
    requires m.topsize <= nb && 16 <= nb && nb + SYS_ALLOC_PADDING + PAGE_SIZE <= TWO32
    requires SegmentHolds(m.segs[0], m.top)
    modifies sys
    ensures tbase.Some? ==>
              Obtained(m, sys, tbase.value, tsize) && ((tbase.value + tsize) % 4 == 0 <==> old(sys.brk) % 4 == 0)
    ensures tbase.Some? ==> (Ample(m.segs, m.topsize, nb, tbase.value, tsize)
                             <==> ReachesFar(m.segs, m.top, m.topsize, nb, tbase.value))
    ensures tbase.Some? && tbase.value != SegEnd(m.segs[0]) && !PadFits(nb, m.topsize) ==>
              tsize == ExtendSize(nb, m.topsize) && tsize < nb
    ensures tbase.None? ==> sys.Free(m.segs) && (sys.brk % 4 == 0 <==> old(sys.brk) % 4 == 0)
    ensures (ExtendSize(nb, m.topsize) < HALF_MAX_SIZE_T && ExtendSize(nb, m.topsize) <= old(sys.room)
             && !Refuses(old(sys.refusals)) && !PadFits(nb, m.topsize)) ==> tbase == Some(old(sys.brk))
    ensures Reply(Got(tbase, tsize), sys.Now()) == ExtendReply(old(Asking(m, sys)), nb)
  {
    hide GranularityAlign, SegShape, FreshRange, SegmentHolds, ExtendSize, ExtraSize, PadFits, Spare, Ample;
    hide ReachesFar;
    tbase, tsize := None, 0;
    var i := SegmentHolding(m.segs, m.top);
    assert i == 0;
    var ss := m.segs[i];
    var br, ssize := MorecoreOnce(m, sys, nb);
    if br.Some? && br.value == SegEnd(ss) {
      tbase, tsize := br, ssize;
    } else if br.Some? {
      tbase, tsize := MorecorePad(m, sys, nb, br.value, ssize);
    }
    if tbase.Some? { ExtendAmple(m.segs, m.top, m.topsize, nb, tbase.value, tsize); }
    if br.Some? { EvenEnd(br.value, ssize); }
  }

  lemma EvenEnd(b: nat, n: nat)
    requires n % 4 == 0
    ensures (b + n) % 4 == 0 <==> b % 4 == 0
  {}

  lemma ExtendAmple(segs: seq<Segment>, top: int, topsize: nat, nb: nat, tbase: nat, tsize: nat)
    requires segs != [] && top != 0 && topsize <= nb && tsize % 4 == 0
    requires 64 <= tsize < nb + SYS_ALLOC_PADDING + 2 * PAGE_SIZE
    requires tbase == SegEnd(segs[0]) ==> topsize + tsize >= nb + SYS_ALLOC_PADDING
    requires tbase != SegEnd(segs[0]) ==> (nb + SYS_ALLOC_PADDING <= tsize <==> PadFits(nb, topsize))
    ensures Ample(segs, topsize, nb, tbase, tsize) <==> ReachesFar(segs, top, topsize, nb, tbase)
    ensures (tbase + tsize) % 4 == 0 <==> tbase % 4 == 0
  {
    hide PadFits;
    EvenEnd(tbase, tsize);
  }

  /** The contiguous attempts of sys_alloc. A region obtained is large enough exactly if it is the first, extends top
      or may be padded. */
  method MorecoreContiguous(m: MState, sys: System, nb: nat, asize: nat) returns (tbase: Option<nat>, tsize: nat)
    requires m.Valid() && sys.Free(m.segs) && m.topsize <= nb && 16 <= nb && m.contiguous
    requires asize % PAGE_SIZE == 0 && nb + SYS_ALLOC_PADDING <= asize < TWO32
    requires asize < nb + SYS_ALLOC_PADDING + PAGE_SIZE
    modifies sys, m`contiguous
    ensures tbase.Some? ==> Obtained(m, sys, tbase.value, tsize) && m.contiguous
    ensures tbase.Some? ==> ((tbase.value + tsize) % 4 == 0 <==> m.top == 0 || old(sys.brk) % 4 == 0)
    ensures tbase.Some? ==> (Ample(m.segs, m.topsize, nb, tbase.value, tsize)
                             <==> ReachesFar(m.segs, m.top, m.topsize, nb, tbase.value))
    ensures tbase.Some? && m.top != 0 && (m.segs == [] || tbase.value != SegEnd(m.segs[0])) ==>
              !PadFits(nb, m.topsize) ==> tsize == ExtendSize(nb, m.topsize) && tsize < nb
    ensures tbase.None? ==> sys.Free(m.segs) && !m.contiguous && (sys.brk % 4 == 0 <==> old(sys.brk) % 4 == 0)
    ensures (m.top != 0 && ExtendSize(nb, m.topsize) < HALF_MAX_SIZE_T && ExtendSize(nb, m.topsize) <= old(sys.room)
             && !Refuses(old(sys.refusals)) && !PadFits(nb, m.topsize)) ==> tbase == Some(old(sys.brk))
    ensures m.Valid()
    ensures Reply(Got(tbase, tsize), sys.Now())
            == if m.top == 0 then FirstReply(old(Asking(m, sys)), nb, asize) else ExtendReply(old(Asking(m, sys)), nb)
  {
    hide GranularityAlign, SegShape, FreshRange, BinsInv, TagsOk, Match, Known, FootprintOk, SegmentHolds, ExtendSize;
    hide ExtraSize, PadFits, Spare, SegsOk, KeptOk;
    PageMod(asize);
    tbase, tsize := None, 0;
    if m.top == 0 {
      var br, base, ssize := MorecoreFirst(m, sys, nb, asize);
      if br.Some? && br == base {
        tbase, tsize := br, ssize;
      }
    } else {
      TopSegment(m);
      tbase, tsize := MorecoreExtend(m, sys, nb);
    }
    if tbase == None {
      m.contiguous := false;
    }
  }

  /** Top lies in the most recent segment. */
  lemma TopSegment(m: MState)
    requires m.Valid() && m.top != 0
    ensures m.segs != [] && SegmentHolds(m.segs[0], m.top) && SegShape(m.segs, m.least)
  {
    hide BinsInv, TagsOk, Match, Known, FootprintOk, KeptOk;
  }
}
