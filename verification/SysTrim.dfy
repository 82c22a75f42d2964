/** sys_trim: the end of top goes back to the system. */
module SysTrim {
  import opened Words
  import opened Rings
  import opened Tries
  import opened Bins
  import opened Tiling
  import opened TagOps
  import opened Segments
  import opened SegOps
  import opened SysOps
  import opened Coalesce
  import opened State
  import opened Keeping
  import opened AllocOps
  import opened Sbrk
  import opened Morecore
  import opened SysInstall
  import opened SysAlloc
  import SysRecord
  import Malloc

  /** How much to give back: whole pages beyond pad, keeping at least one byte more than pad. */
  function Surplus(topsize: nat, pad: nat): nat
    requires topsize > pad
  {
    var extra := ((topsize - pad + (PAGE_SIZE - 1)) / PAGE_SIZE - 1) * PAGE_SIZE;
    if extra >= HALF_MAX_SIZE_T then HALF_MAX_SIZE_T + 1 - PAGE_SIZE else extra
  }

  /** The largest number of pages that leaves more than pad, up to half the address space. */
  lemma SurplusTight(topsize: nat, pad: nat)
    requires topsize > pad && topsize < TWO32
    ensures var extra := Surplus(topsize, pad);
            && extra % PAGE_SIZE == 0 && topsize - extra > pad && extra < HALF_MAX_SIZE_T
            && (topsize - (extra + PAGE_SIZE) <= pad || extra + PAGE_SIZE > HALF_MAX_SIZE_T)
  {
    var q := (topsize - pad + (PAGE_SIZE - 1)) / PAGE_SIZE;
    assert PAGE_SIZE * q <= topsize - pad + (PAGE_SIZE - 1) < PAGE_SIZE * (q + 1);
    PageMod((q - 1) * PAGE_SIZE);
  }

  lemma TrimOk(segs: seq<Segment>, least: int, g: Tags, released: nat, h: Heads)
    requires TagsOk(g) && SegsOk(segs, least, g) && g.top != 0 && released % 4 == 0 && released < g.topsize
    requires segs != []
    requires segs[0].size >= released && h == WithTop(g.head, g.top, g.topsize - released)
    ensures var g' := g.(topsize := g.topsize - released, head := h);
            var segs' := ResizedSegs(segs, segs[0].size - released);
            TagsOk(g') && SegsOk(segs', least, g') && SumSizes(segs') == SumSizes(segs) - released
    ensures forall q | q in g.tiles :: HeadAt(h, q) == HeadAt(g.head, q)
  {
    hide TagsOk, SegsOk;
    var size, topsize := segs[0].size - released, g.topsize - released;
    TopEnd(segs, least, g);
    SysRecord.TopEven(g);
    ResizeApart(segs, least, g, topsize);
    ResizeTop(g, topsize);
    RecsIn(g);
    ResizeSegs(segs, least, g, topsize, size);
    var g1 := ResizedTop(g, topsize);
    FootWord(g1, h);
    SegsHead(ResizedSegs(segs, size), least, g1, h);
    SumResized(segs, size);
    TopHead(g);
  }

  lemma TopEnd(segs: seq<Segment>, least: int, g: Tags)
    requires SegsOk(segs, least, g) && g.top != 0
    ensures segs != [] && SegEnd(segs[0]) == g.top + g.topsize + TOP_FOOT_SIZE && segs[0].base <= g.top
    ensures SegEnd(segs[0]) <= TWO32
  {}

  lemma SpareTrimmed(segs: seq<Segment>, least: int, brk: nat, room: nat, released: nat)
    requires SegShape(segs, least) && segs != [] && released < segs[0].size && SegEnd(segs[0]) == brk + released
    requires Spare(segs, brk + released, room)
    ensures Spare(ResizedSegs(segs, segs[0].size - released), brk, room + released)
  {
    var segs' := ResizedSegs(segs, segs[0].size - released);
    forall i | 0 <= i < |segs'| ensures SegEnd(segs'[i]) <= brk || brk + room + released <= segs'[i].base {
      if i > 0 { OtherSegment(segs, least, i); }
    }
  }

  /** The segment, the footprint and top give up the released bytes. */
  method ReleaseEnd(m: MState, released: nat)
    requires m.Valid() && m.top != 0 && released % 4 == 0 && released < m.topsize
    modifies m`segs, m`footprint, m`top, m`topsize, m`head, m`trimCheck
    ensures m.Valid() && SameLive(old(m.G()), m.G()) && m.top == old(m.top) && m.topsize == old(m.topsize) - released
    ensures old(m.segs) != [] && old(m.segs[0].size) > released
    ensures m.segs == ResizedSegs(old(m.segs), old(m.segs[0].size) - released)
    ensures m.footprint == old(m.footprint) - released && m.trimCheck == TRIM_THRESHOLD
  {
    hide BinsInv, TagsOk, SegsOk, Known, Match, SameLive, SumSizes, WithTop, KeptOk;
    ghost var g := m.G();
    TopHead(g);
    TopEnd(m.segs, m.least, g);
    SumHead(m.segs);
    ShortenTop(m, released);
    TrimOk(old(m.segs), m.least, g, released, m.head);
    TopSizedKept(m.guard, old(m.Words()), g, m.topsize, m.head);
    KnownKept(m.v.sz, g.tiles, m.dv, m.dvsize, {}, g.head, m.head, m.least, m.least);
    SameTiles(g, m.G());
  }

  /** The writes. */
  method ShortenTop(m: MState, released: nat)
    requires m.segs != [] && released <= m.segs[0].size && released <= m.footprint && released < m.topsize
    requires m.top % 8 == 0
    requires m.top >= 0
    modifies m`segs, m`footprint, m`top, m`topsize, m`head, m`trimCheck
    ensures m.segs == ResizedSegs(old(m.segs), old(m.segs[0].size) - released)
    ensures m.footprint == old(m.footprint) - released
    ensures m.top == old(m.top) && m.topsize == old(m.topsize) - released && m.trimCheck == TRIM_THRESHOLD
    ensures m.head == WithTop(old(m.head), m.top, m.topsize)
  {
    m.segs := m.segs[0 := Segment(m.segs[0].base, m.segs[0].size - released)];
    m.footprint := m.footprint - released;
    InitTop(m, m.top, m.topsize - released);
  }

  lemma SumHead(segs: seq<Segment>)
    ensures segs != [] ==> SumSizes(segs) >= segs[0].size
  {}

  /** Asking the system to take the end of top's segment back. */
  method GiveBack(sys: System, end: int, extra: nat) returns (released: nat)
    requires extra % PAGE_SIZE == 0 && extra < HALF_MAX_SIZE_T
    modifies sys
    ensures sys.brk == old(sys.brk) - released && sys.room == old(sys.room) + released
    ensures released == 0 || (released == extra && old(sys.brk) == end)
    ensures released != 0 <==> extra > 0 && old(sys.brk) == end && old(sys.Now()).TakesBack(extra)
    ensures sys.Now() == if old(sys.brk) == end then old(sys.Now()).Shrunk(extra) else old(sys.Now())
  {
    released := 0;
    var oldBr := sys.Grow(0);
    if oldBr.Some? && oldBr.value == end {
      var relBr := sys.Shrink(extra);
      var newBr := sys.Grow(0);
      if relBr.Some? && newBr.Some? && newBr.value < oldBr.value {
        released := oldBr.value - newBr.value;
      }
    }
  }

  /** There is a surplus, nobody has moved the break from the end of top's segment, and the system does not refuse. */
  predicate GivesBack(segs: seq<Segment>, topsize: nat, o: Oracle, pad: nat)
    requires topsize > pad && segs != []
  {
    Surplus(topsize, pad) > 0 && o.brk == SegEnd(segs[0]) && !Refuses(o.refusals)
  }

  /** sys_trim gives memory back. */
  predicate Trims(segs: seq<Segment>, topsize: int, o: Oracle, pad0: nat) {
    && pad0 < MAX_REQUEST && segs != [] && topsize > pad0 + TOP_FOOT_SIZE
    && GivesBack(segs, topsize, o, pad0 + TOP_FOOT_SIZE)
  }

  /** The system after it has been asked to take the surplus back, if it has. */
  function AfterTrim(segs: seq<Segment>, topsize: int, o: Oracle, pad0: nat): Oracle {
    if pad0 < MAX_REQUEST && segs != [] && topsize > pad0 + TOP_FOOT_SIZE && o.brk == SegEnd(segs[0]) then
      o.Shrunk(Surplus(topsize, pad0 + TOP_FOOT_SIZE))
    else o
  }

  /** What sys_trim makes of the position: the surplus is gone from top, from its segment and from the footprint; or
      the threshold is lifted until top is next set up. */
  ghost predicate TrimmedBy(p: Position, pad0: nat, p': Position) {
    && p'.sys == AfterTrim(p.segs, p.topsize, p.sys, pad0)
    && p'.top == p.top && p'.contiguous == p.contiguous && p'.footprintLimit == p.footprintLimit
    && if Trims(p.segs, p.topsize, p.sys, pad0) then
         var extra := Surplus(p.topsize, pad0 + TOP_FOOT_SIZE);
         && extra <= p.segs[0].size && p'.segs == ResizedSegs(p.segs, p.segs[0].size - extra)
         && p'.topsize == p.topsize - extra && p'.footprint == p.footprint - extra && p'.trimCheck == TRIM_THRESHOLD
       else
         && p'.segs == p.segs && p'.topsize == p.topsize && p'.footprint == p.footprint
         && p'.trimCheck
            == if pad0 < MAX_REQUEST && p.segs != [] && p.topsize > p.trimCheck then MAX_SIZE_T else p.trimCheck
  }

  /** The surplus of top over pad goes back, if the system takes it. */
  method ReleaseSurplus(m: MState, sys: System, pad: nat) returns (released: nat)
    requires m.Valid() && sys.Free(m.segs) && m.top != 0 && pad < m.topsize < TWO32
    modifies m`segs, m`footprint, m`top, m`topsize, m`head, m`trimCheck, sys
    ensures m.Valid() && sys.Free(m.segs) && SameLive(old(m.G()), m.G())
    ensures old(m.segs) != []
    ensures released == if GivesBack(old(m.segs), old(m.topsize), old(sys.Now()), pad) then Surplus(old(m.topsize), pad)
                        else 0
    ensures m.topsize == old(m.topsize) - released > pad && m.footprint == old(m.footprint) - released
    ensures released == 0 ==> m.G() == old(m.G()) && m.segs == old(m.segs) && m.trimCheck == old(m.trimCheck)
    ensures m.top == old(m.top)
    ensures released > 0 ==>
              && released < old(m.segs[0].size) && m.segs == ResizedSegs(old(m.segs), old(m.segs[0].size) - released)
              && m.trimCheck == TRIM_THRESHOLD
    ensures sys.Now() == if old(sys.brk) == SegEnd(old(m.segs[0])) then
                           old(sys.Now()).Shrunk(Surplus(old(m.topsize), pad))
                         else old(sys.Now())
  {
    hide BinsInv, TagsOk, SegsOk, Known, Match, SameLive, FootprintOk, Surplus, Spare, SegmentHolds, KeptOk;
    SameTiles(m.G(), m.G());
    SurplusTight(m.topsize, pad);
    var extra := Surplus(m.topsize, pad);
    TopEnd(m.segs, m.least, m.G());
    var i := SegmentHolding(m.segs, m.top);
    TopSegment(m);
    assert i == 0;
    released := GiveBack(sys, SegEnd(m.segs[i]), extra);
    PageMod(released);
    if released != 0 {
      ReleaseEnd(m, released);
      ShapeOfSegs(old(m.segs), m.least, old(m.G()));
      SpareTrimmed(old(m.segs), m.least, sys.brk, old(sys.room), released);
    }
  }

  /** sys_trim: more than pad stays in top, and footprint goes down by what the system took. */
  method SysTrim(m: MState, sys: System, pad0: nat) returns (trimmed: bool)
    requires m.Valid() && sys.Free(m.segs) && pad0 < TWO32
    modifies m`segs, m`footprint, m`top, m`topsize, m`head, m`trimCheck, sys
    ensures m.Valid() && sys.Free(m.segs) && SameLive(old(m.G()), m.G())
    ensures trimmed <==> Trims(old(m.segs), old(m.topsize), old(sys.Now()), pad0)
    ensures trimmed ==> m.topsize > pad0 + TOP_FOOT_SIZE && m.footprint < old(m.footprint)
    ensures trimmed ==> old(m.topsize) > pad0 + TOP_FOOT_SIZE
                        && m.topsize == old(m.topsize) - Surplus(old(m.topsize), pad0 + TOP_FOOT_SIZE)
    ensures m.tiles == old(m.tiles) && m.footprint - m.topsize == old(m.footprint) - old(m.topsize)
    ensures !trimmed ==> m.G() == old(m.G()) && m.segs == old(m.segs)
    ensures !trimmed && pad0 < MAX_REQUEST && m.top != 0 ==> m.topsize <= m.trimCheck
    ensures TrimmedBy(old(Asking(m, sys)), pad0, Asking(m, sys))
  {
    hide BinsInv, TagsOk, SegsOk, Known, Match, SameLive, FootprintOk, Surplus, Spare, SegmentHolds, KeptOk;
    var released := 0;
    SameTiles(m.G(), m.G());
    Malloc.TopBound(m);
    TopOrNone(m.segs, m.least, m.G());
    if pad0 < MAX_REQUEST && m.top != 0 {
      var pad := pad0 + TOP_FOOT_SIZE;
      if m.topsize > pad {
        released := ReleaseSurplus(m, sys, pad);
      }
      if released == 0 && m.topsize > m.trimCheck {
        m.trimCheck := MAX_SIZE_T;
      }
    }
    return released != 0;
  }

  lemma TopOrNone(segs: seq<Segment>, least: int, g: Tags)
    requires TagsOk(g) && SegsOk(segs, least, g)
    ensures g.top == 0 <==> segs == []
    ensures g.top == 0 ==> g.topsize == 0
  {
    hide Shapes, Apart, TopApart, Followed, HeadsOk, UsedNext, FreeNext, PrevFree, SegShape, SegInside, SegFirst;
    hide RecLast;
  }

  lemma ShapeOfSegs(segs: seq<Segment>, least: int, g: Tags)
    requires SegsOk(segs, least, g)
    ensures SegShape(segs, least)
  {}

  /** Exactly when memory goes back: top has more than a page beyond what it keeps, it ends where the break is, and the
      system does not refuse. */
  lemma TrimExact(p: Position, pad0: nat)
    requires p.topsize < TWO32
    ensures Trims(p.segs, p.topsize, p.sys, pad0)
            <==> && pad0 < MAX_REQUEST && p.segs != [] && p.topsize > pad0 + TOP_FOOT_SIZE + PAGE_SIZE
                 && p.sys.brk == SegEnd(p.segs[0]) && !Refuses(p.sys.refusals)
  {
    if p.topsize > pad0 + TOP_FOOT_SIZE { SurplusTight(p.topsize, pad0 + TOP_FOOT_SIZE); }
  }

  /** What top, its segment and the footprint lose is what the system gets. */
  lemma TrimConserves(p: Position, pad0: nat, p': Position)
    requires TrimmedBy(p, pad0, p') && p.topsize < TWO32 && (p.segs != [] ==> p.segs[0].base > 0)
    ensures p'.sys.brk < p.sys.brk <==> Trims(p.segs, p.topsize, p.sys, pad0)
    ensures p'.sys.brk + p'.sys.room == p.sys.brk + p.sys.room
    ensures p.sys.brk - p'.sys.brk == p.footprint - p'.footprint == p.topsize - p'.topsize
    ensures p'.sys.brk < p.sys.brk ==> |p'.segs| == |p.segs| > 0 && SegEnd(p'.segs[0]) == p'.sys.brk
  {
    hide Surplus;
  }

  /** What is left of top is within its threshold, unless more than half the address space was too much. */
  lemma TrimSuffices(p: Position, p': Position)
    requires TrimmedBy(p, 0, p') && p.segs != [] && p.trimCheck < p.topsize <= 0x7FFF_F000
    ensures p'.topsize <= p'.trimCheck
  {
    if p.topsize > TOP_FOOT_SIZE { SurplusTight(p.topsize, TOP_FOOT_SIZE); }
    var extra: nat := if p.topsize > TOP_FOOT_SIZE then Surplus(p.topsize, TOP_FOOT_SIZE) else 0;
    PageCount(extra);
    hide Surplus;
  }

  lemma PageCount(extra: nat)
    ensures extra % PAGE_SIZE == 0 && extra + PAGE_SIZE > HALF_MAX_SIZE_T ==> extra >= 0x7FFF_F000
  {
    var q := extra / PAGE_SIZE;
    assert extra == PAGE_SIZE * q + extra % PAGE_SIZE;
  }
}
