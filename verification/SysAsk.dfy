/** What sys_alloc gets from the system, when that serves the request, and when the source goes astray on it. */
module SysAsk {
  import opened Words
  import opened Tiling
  import opened Segments
  import opened SysOps
  import opened AllocOps
  import opened Sbrk
  import opened Morecore
  import opened SysInstall
  import opened SysPrepend

  /** No segment begins where the region ends. */
  predicate NoneAbove(segs: seq<Segment>, a: int) { forall j | 0 <= j < |segs| :: segs[j].base != a }

  /** A region the heap can take in though it is smaller than the request: it becomes a segment of its own, and top. */
  predicate Short(segs: seq<Segment>, top: int, nb: nat, tbase: nat, tsize: nat) {
    top != 0 && tsize < nb && !Continues(segs, tbase) && NoneAbove(segs, tbase + tsize)
  }

  /** The region extends a segment downwards; in all other cases top comes to end at its end. */
  predicate Prepends(segs: seq<Segment>, tbase: nat, tsize: nat) {
    !Continues(segs, tbase) && !NoneAbove(segs, tbase + tsize)
  }

  /** The region suits the request: it is large enough, and top's size, if it changes, keeps its tag bits clear. */
  predicate Suits(segs: seq<Segment>, topsize: nat, nb: nat, tbase: nat, tsize: nat) {
    Ample(segs, topsize, nb, tbase, tsize) && (Prepends(segs, tbase, tsize) || (tbase + tsize) % 4 == 0)
  }

  /** Where the source goes astray: nb bytes are carved out of fewer, or top's size would have its tag bits set. */
  predicate Astray(segs: seq<Segment>, nb: nat, tbase: nat, tsize: nat) {
    if Prepends(segs, tbase, tsize) then tsize < nb else (tbase + tsize) % 4 != 0
  }

  /** Where the request is served: at the bottom of top, which a region that continues it extends; else at the bottom of
      the region. */
  function ServedAt(segs: seq<Segment>, top: int, tbase: nat, tsize: nat): int {
    if Continues(segs, tbase) then top else First(Segment(tbase, tsize))
  }

  /** The victim stays, unless it is the first chunk of a segment the region extends downwards. */
  ghost predicate VictimPlaced(segs: seq<Segment>, tbase: nat, tsize: nat, nb: nat, dv: int, dvsize: nat,
                               dv': int, dvsize': nat) {
    if Prepends(segs, tbase, tsize) then
      VictimLowered(First(Segment(tbase + tsize, 0)), dv, dvsize, First(Segment(tbase, tsize)) + nb, dv', dvsize')
    else dv' == dv && dvsize' == dvsize
  }

  lemma SameFirst(s: Segment, base: nat)
    requires s.base == base
    ensures First(s) == First(Segment(base, 0))
  {}

  /** Which segment a region becomes part of: top's, if it continues it; else one it ends at; else its own, the most
      recent. */
  ghost predicate Joins(segs: seq<Segment>, segs': seq<Segment>, tbase: nat, tsize: nat) {
    if Continues(segs, tbase) then segs' == ResizedSegs(segs, segs[0].size + tsize)
    else if exists j: nat :: j < |segs| && segs[j].base == tbase + tsize then
      exists j: nat :: j < |segs| && segs[j].base == tbase + tsize && segs' == Lowered(segs, j, tbase, tsize)
    else segs' == [Segment(tbase, tsize)] + segs
  }

  /** granularity_align wraps exactly when the sum does. */
  lemma GranularityOk(nb: nat)
    requires nb < TWO32
    ensures var asize := GranularityAlign(nb + SYS_ALLOC_PADDING);
            asize > nb ==> nb + SYS_ALLOC_PADDING <= asize < nb + SYS_ALLOC_PADDING + PAGE_SIZE
  {
    if nb + SYS_ALLOC_PADDING + PAGE_SIZE > TWO32 {
      assert Wrap(nb + SYS_ALLOC_PADDING + (PAGE_SIZE - 1)) < 2 * PAGE_SIZE;
    }
  }

  /** With top as it is, a request of nb bytes may count on padding, should it be needed. */
  predicate Guarded(contiguous: bool, topsize: nat, nb: nat) {
    (contiguous && topsize <= nb && nb + SYS_ALLOC_PADDING + PAGE_SIZE <= TWO32) ==> PadFits(nb, topsize)
  }

  lemma NotMax(nb: nat)
    ensures nb == MAX_SIZE_T ==> GranularityAlign(nb + SYS_ALLOC_PADDING) <= nb
  {}

  // ----- the answer to a request

  /** sys_alloc goes to the system at all. */
  predicate Asks(p: Position, nb: nat) {
    var asize := GranularityAlign(nb + SYS_ALLOC_PADDING);
    asize > nb && LimitAdmits(p.footprint, p.footprintLimit, asize)
  }

  lemma NoLimit(footprint: nat, size: nat)
    ensures LimitAdmits(footprint, 0, size)
  {}

  function Gives(p: Position, nb: nat): Reply
    requires MayAsk(p, nb)
  {
    if Asks(p, nb) then SystemReply(p, nb, GranularityAlign(nb + SYS_ALLOC_PADDING)) else Reply(None, p.sys)
  }

  /** What is obtained suits the request. */
  predicate Serves(p: Position, nb: nat)
    requires MayAsk(p, nb)
  {
    var r := Gives(p, nb).region;
    r.Some? && Suits(p.segs, p.topsize, nb, r.value.base, r.value.size)
  }

  predicate GoesAstray(p: Position, nb: nat)
    requires MayAsk(p, nb)
  {
    var r := Gives(p, nb).region;
    r.Some? && Astray(p.segs, nb, r.value.base, r.value.size)
  }

  /** The next request may be made contiguously, too. */
  predicate StaysContiguous(p: Position, nb: nat)
    requires MayAsk(p, nb)
  {
    p.contiguous && (Asks(p, nb) ==> ContiguousReply(p, nb, GranularityAlign(nb + SYS_ALLOC_PADDING)).region.Some?)
  }

  /** The heap takes the region in; the threshold is set anew with top. */
  ghost predicate TakenIn(p: Position, p': Position, tbase: nat, tsize: nat) {
    && Joins(p.segs, p'.segs, tbase, tsize) && p'.footprint == p.footprint + tsize
    && p'.trimCheck == if Prepends(p.segs, tbase, tsize) then p.trimCheck else TRIM_THRESHOLD
  }

  /** What the request makes of the position; for top see the tiling. */
  ghost predicate AskedBy(p: Position, nb: nat, p': Position)
    requires MayAsk(p, nb)
  {
    var r := Gives(p, nb).region;
    && p'.sys == Gives(p, nb).sys && p'.footprintLimit == p.footprintLimit
    && (p'.contiguous <==> StaysContiguous(p, nb))
    && if r.Some? && !GoesAstray(p, nb) then TakenIn(p, p', r.value.base, r.value.size)
       else p'.segs == p.segs && p'.footprint == p.footprint && p'.trimCheck == p.trimCheck
  }

  lemma JoinsOnce(segs: seq<Segment>, least: int, tbase: nat, tsize: nat, a: seq<Segment>, b: seq<Segment>)
    requires SegShape(segs, least) && Joins(segs, a, tbase, tsize) && Joins(segs, b, tbase, tsize)
    ensures b == a
  {
    forall i, j | 0 <= i < j < |segs| ensures segs[i].base != segs[j].base {
      assert SegEnd(segs[i]) <= segs[j].base || SegEnd(segs[j]) <= segs[i].base;
    }
  }

  /** The request determines everything but top, and top follows from the tiling. */
  lemma AskedOnce(p: Position, least: int, nb: nat, a: Position, b: Position)
    requires MayAsk(p, nb) && SegShape(p.segs, least) && AskedBy(p, nb, a) && AskedBy(p, nb, b)
    ensures b == a.(top := b.top, topsize := b.topsize)
  {
    hide Gives, GoesAstray, StaysContiguous, Joins, Prepends;
    var r := Gives(p, nb).region;
    if r.Some? && !GoesAstray(p, nb) {
      JoinsOnce(p.segs, least, r.value.base, r.value.size, a.segs, b.segs);
    }
  }

  // ----- in terms of the state before the request

  /** The first region, from any break on, ends at a page boundary. */
  predicate Rounds(p: Position, nb: nat)
    requires MayAsk(p, nb)
  {
    && p.contiguous && p.top == 0 && Asks(p, nb)
    && FirstReply(p, nb, GranularityAlign(nb + SYS_ALLOC_PADDING)).region.Some?
  }

  /** A region that does not extend top is granted, and the padding it lacks is more than may be asked for. */
  predicate KeptShort(p: Position, nb: nat)
    requires MayAsk(p, nb)
  {
    && p.contiguous && p.top != 0 && Asks(p, nb) && p.sys.brk != SegEnd(p.segs[0])
    && ExtendSize(nb, p.topsize) < HALF_MAX_SIZE_T && p.sys.Grants(ExtendSize(nb, p.topsize)) && !PadFits(nb, p.topsize)
  }

  lemma Pages(nb: nat)
    requires nb < TWO32
    ensures var asize := GranularityAlign(nb + SYS_ALLOC_PADDING);
            asize > nb ==>
              && nb + SYS_ALLOC_PADDING <= asize < nb + SYS_ALLOC_PADDING + PAGE_SIZE && asize % 4 == 0
              && nb + SYS_ALLOC_PADDING + PAGE_SIZE <= TWO32
  {
    GranularityOk(nb);
    PageMod(GranularityAlign(nb + SYS_ALLOC_PADDING));
  }

  /** The extension, padded or not: how large it is, and that it keeps word alignment. */
  lemma ExtendSizes(nb: nat, topsize: nat)
    requires topsize <= nb && nb + SYS_ALLOC_PADDING + PAGE_SIZE <= TWO32
    ensures var ssize := ExtendSize(nb, topsize);
            && ssize % 4 == 0 && ssize >= PAGE_SIZE
            && nb - topsize + SYS_ALLOC_PADDING <= ssize < nb - topsize + SYS_ALLOC_PADDING + PAGE_SIZE
  {
    PageMod(ExtendSize(nb, topsize));
  }

  lemma FirstExact(p: Position, nb: nat)
    requires MayAsk(p, nb) && nb >= 16 && Asks(p, nb) && p.contiguous && p.top == 0
    ensures var r := FirstReply(p, nb, GranularityAlign(nb + SYS_ALLOC_PADDING));
            && (r.region.Some? ==> Ample(p.segs, p.topsize, nb, r.region.value.base, r.region.value.size))
            && (r.region.Some? ==>
                  && r.region.value.base == p.sys.brk
                  && SegEnd(r.region.value) % PAGE_SIZE == 0 && SegEnd(r.region.value) % 4 == 0)
            && (r.region.None? ==> r.sys.brk == p.sys.brk)
  {
    hide GranularityAlign, FirstRequest;
    var asize := GranularityAlign(nb + SYS_ALLOC_PADDING);
    Pages(nb);
    FirstSize(asize, p.sys.brk);
  }

  lemma GrownEven(o: Oracle, n: nat)
    requires n % 4 == 0
    ensures o.Grown(n).brk % 4 == 0 <==> o.brk % 4 == 0
    ensures o.Shrunk(n).brk % 4 == 0 <==> o.brk % 4 == 0
  {
    EvenEnd(o.brk, n);
    if o.TakesBack(n) { EvenEnd(o.brk - n, n); }
  }

  lemma OnceEven(o: Oracle, size: nat)
    requires size % 4 == 0
    ensures var r := Once(o, size);
            && (r.sys.brk % 4 == 0 <==> o.brk % 4 == 0)
            && (r.region.Some? ==>
                  r.region == Some(Segment(o.brk, size)) && (SegEnd(r.region.value) % 4 == 0 <==> o.brk % 4 == 0))
  {
    GrownEven(o, size);
    EvenEnd(o.brk, size);
  }

  lemma PadEven(o: Oracle, br: nat, ssize: nat, esize: nat)
    requires ssize % 4 == 0 && esize % 4 == 0 && (o.brk % 4 == 0 <==> br % 4 == 0)
    ensures var r := PadReply(o, br, ssize, esize);
            && (r.sys.brk % 4 == 0 <==> br % 4 == 0)
            && (r.region.Some? ==>
                  && r.region == Some(Segment(br, if esize < HALF_MAX_SIZE_T then ssize + esize else ssize))
                  && (SegEnd(r.region.value) % 4 == 0 <==> br % 4 == 0))
            && (esize >= HALF_MAX_SIZE_T ==> r.region.Some?)
  {
    EvenEnd(br, ssize);
    EvenEnd(br + ssize, esize);
    GrownEven(o, esize);
    GrownEven(o.Grown(esize), ssize);
  }

  lemma ExtendExact(p: Position, nb: nat)
    requires MayAsk(p, nb) && nb >= 16 && Asks(p, nb) && p.contiguous && p.top != 0
    ensures var r := ExtendReply(p, nb);
            && (r.sys.brk % 4 == 0 <==> p.sys.brk % 4 == 0)
            && (KeptShort(p, nb) ==>
                  r.region == Some(Segment(p.sys.brk, ExtendSize(nb, p.topsize))) && ExtendSize(nb, p.topsize) < nb)
            && (r.region.Some? ==>
                  r.region.value.base == p.sys.brk && (SegEnd(r.region.value) % 4 == 0 <==> p.sys.brk % 4 == 0))
            && (r.region.Some? && !KeptShort(p, nb) ==>
                  Ample(p.segs, p.topsize, nb, r.region.value.base, r.region.value.size))
  {
    hide GranularityAlign, ExtendSize, PadFits, ExtraSize, LimitAdmits, PadReply, Once;
    Pages(nb);
    PadMeans(nb, p.topsize);
    ExtendSizes(nb, p.topsize);
    var ssize := ExtendSize(nb, p.topsize);
    OnceEven(p.sys, ssize);
    OnceGrants(p.sys, ssize);
    var r := Once(p.sys, ssize);
    if r.region.Some? && p.sys.brk != SegEnd(p.segs[0]) && ssize < nb + SYS_ALLOC_PADDING {
      PadEven(r.sys, p.sys.brk, ssize, ExtraSize(nb, ssize));
    }
  }

  lemma OnceGrants(o: Oracle, size: nat)
    ensures Once(o, size).region.Some? <==> size < HALF_MAX_SIZE_T && o.Grants(size)
  {}

  lemma FreshExact(p: Position, nb: nat, o: Oracle)
    requires MayAsk(p, nb) && nb >= 16 && Asks(p, nb)
    ensures var r := Once(o, GranularityAlign(nb + SYS_ALLOC_PADDING)).region;
            && (r.Some? ==> r.value.base == o.brk && (SegEnd(r.value) % 4 == 0 <==> o.brk % 4 == 0))
            && (r.Some? ==> Ample(p.segs, p.topsize, nb, r.value.base, r.value.size))
  {
    hide GranularityAlign, LimitAdmits;
    Pages(nb);
    OnceEven(o, GranularityAlign(nb + SYS_ALLOC_PADDING));
    hide Once;
  }

  predicate AmpleReply(p: Position, nb: nat)
    requires MayAsk(p, nb)
  {
    var r := Gives(p, nb).region;
    r.Some? && Ample(p.segs, p.topsize, nb, r.value.base, r.value.size)
  }

  /** The region obtained extends a segment downwards. */
  predicate Abuts(p: Position, nb: nat)
    requires MayAsk(p, nb)
  {
    var r := Gives(p, nb).region;
    r.Some? && !NoneAbove(p.segs, SegEnd(r.value))
  }

  /** Where a region comes from, and whether its end is word-aligned. */
  lemma RegionFacts(p: Position, nb: nat)
    requires MayAsk(p, nb) && nb >= 16
    ensures Rounds(p, nb) ==> p.segs == []
    ensures Rounds(p, nb) ==>
              && Gives(p, nb).region.Some? && SegEnd(Gives(p, nb).region.value) % 4 == 0
              && Gives(p, nb).region.value.base == p.sys.brk && SegEnd(Gives(p, nb).region.value) % PAGE_SIZE == 0
              && AmpleReply(p, nb)
    ensures KeptShort(p, nb) ==>
              && Gives(p, nb).region == Some(Segment(p.sys.brk, ExtendSize(nb, p.topsize)))
              && ExtendSize(nb, p.topsize) < nb
    ensures var r := Gives(p, nb).region;
            r.Some? && !Rounds(p, nb) ==>
              && (SegEnd(r.value) % 4 == 0 <==> p.sys.brk % 4 == 0)
              && (r.value.base % 4 == 0 <==> p.sys.brk % 4 == 0)
              && (!KeptShort(p, nb) ==> AmpleReply(p, nb))
  {
    hide GranularityAlign, ExtendSize, PadFits, FirstReply, ExtendReply, LimitAdmits, Ample, KeptShort, Once, Asks;
    NotShort(p, nb);
    if Asks(p, nb) {
      if p.contiguous && p.top == 0 { FirstExact(p, nb); }
      if p.contiguous && p.top != 0 { ExtendExact(p, nb); }
      FreshExact(p, nb, ContiguousReply(p, nb, GranularityAlign(nb + SYS_ALLOC_PADDING)).sys);
    }
  }

  lemma NotShort(p: Position, nb: nat)
    requires MayAsk(p, nb)
    ensures KeptShort(p, nb) ==> Asks(p, nb) && p.contiguous && p.top != 0 && p.sys.brk != SegEnd(p.segs[0])
  {}

  /** A region of whole pages, no more of them than it takes to hold n bytes. */
  predicate PagesFor(size: nat, n: nat) { size % PAGE_SIZE == 0 && n <= size < n + PAGE_SIZE }

  /** The region extends top where the break was left. */
  predicate Extended(p: Position, nb: nat)
    requires MayAsk(p, nb)
  {
    && p.contiguous && p.top != 0 && Asks(p, nb) && p.sys.brk == SegEnd(p.segs[0])
    && ExtendSize(nb, p.topsize) < HALF_MAX_SIZE_T && p.sys.Grants(ExtendSize(nb, p.topsize))
  }

  /** How large the region is: the least number of pages for what top lacks, where it extends top or could not be
      padded; for the whole request elsewhere; the first region takes the least that ends with a page. */
  lemma SizeExact(p: Position, nb: nat)
    requires MayAsk(p, nb) && nb >= 16 && Gives(p, nb).region.Some?
    ensures var r := Gives(p, nb).region.value;
            if Rounds(p, nb) then
              var n := GranularityAlign(nb + SYS_ALLOC_PADDING);
              && PagesFor(n, nb + SYS_ALLOC_PADDING) && n <= r.size < n + PAGE_SIZE
              && r.base == p.sys.brk && SegEnd(r) % PAGE_SIZE == 0
            else if Extended(p, nb) || KeptShort(p, nb) then
              r.base == p.sys.brk && PagesFor(r.size, nb - p.topsize + SYS_ALLOC_PADDING)
            else PagesFor(r.size, nb + SYS_ALLOC_PADDING)
  {
    hide GranularityAlign, ExtendSize, PadFits, LimitAdmits, FirstRequest, Once, ExtendReply, KeptShort, Extended;
    var asize := GranularityAlign(nb + SYS_ALLOC_PADDING);
    Pages(nb);
    FirstSize(asize, p.sys.brk);
    OnceKeeps(p.sys, FirstRequest(asize, p.sys.brk));
    if p.contiguous && p.top != 0 && Asks(p, nb) && ExtendReply(p, nb).region.Some? { ExtensionSize(p, nb); }
    OnceKeeps(ContiguousReply(p, nb, asize).sys, asize);
    WhenExtended(p, nb);
    assert PagesFor(asize, nb + SYS_ALLOC_PADDING);
  }

  lemma OnceKeeps(o: Oracle, size: nat)
    ensures var r := Once(o, size);
            if r.region.Some? then r.region == Some(Segment(o.brk, size))
            else r.sys.brk == o.brk && r.sys.room == o.room
  {}

  /** Those cases are the contiguous attempt, and succeed. */
  lemma WhenExtended(p: Position, nb: nat)
    requires MayAsk(p, nb)
    ensures Extended(p, nb) || KeptShort(p, nb) ==>
              p.contiguous && p.top != 0 && Asks(p, nb) && ExtendReply(p, nb).region.Some?
  {}

  lemma ExtensionSize(p: Position, nb: nat)
    requires MayAsk(p, nb) && nb >= 16 && Asks(p, nb) && p.contiguous && p.top != 0 && ExtendReply(p, nb).region.Some?
    ensures var r := ExtendReply(p, nb).region.value;
            && r.base == p.sys.brk
            && if Extended(p, nb) || KeptShort(p, nb) then PagesFor(r.size, nb - p.topsize + SYS_ALLOC_PADDING)
               else PagesFor(r.size, nb + SYS_ALLOC_PADDING)
  {
    hide GranularityAlign, ExtendSize, PadFits, ExtraSize, LimitAdmits, PagesFor;
    Pages(nb);
    ExtendSizes(nb, p.topsize);
    PadMeans(nb, p.topsize);
    PadExact(nb, p.topsize);
    PagesOf(nb, p.topsize);
  }

  lemma PagesOf(nb: nat, topsize: nat)
    requires topsize <= nb && nb + SYS_ALLOC_PADDING + PAGE_SIZE <= TWO32
    ensures var ssize := ExtendSize(nb, topsize);
            && PagesFor(ssize, nb - topsize + SYS_ALLOC_PADDING)
            && (ssize >= nb + SYS_ALLOC_PADDING ==> PagesFor(ssize, nb + SYS_ALLOC_PADDING))
            && (ssize < nb + SYS_ALLOC_PADDING ==>
                  PagesFor(ssize + ExtraSize(nb, ssize), nb + SYS_ALLOC_PADDING))
  {
    hide ExtendSize, ExtraSize;
    PadExact(nb, topsize);
    ExtendSizes(nb, topsize);
    var ssize := ExtendSize(nb, topsize);
    if ssize < nb + SYS_ALLOC_PADDING { PagesSum(ssize, ExtraSize(nb, ssize)); }
  }

  lemma PagesSum(a: nat, b: nat)
    requires a % PAGE_SIZE == 0 && b % PAGE_SIZE == 0
    ensures (a + b) % PAGE_SIZE == 0
  {}

  /** The first segment ends with a page. */
  lemma FirstSegment(p: Position, nb: nat, p': Position)
    requires MayAsk(p, nb) && nb >= 16 && AskedBy(p, nb, p') && Rounds(p, nb)
    ensures |p'.segs| == 1 && p'.segs[0].base == p.sys.brk && SegEnd(p'.segs[0]) % PAGE_SIZE == 0
    ensures p'.sys.brk == SegEnd(p'.segs[0]) && Serves(p, nb)
  {
    hide Gives, GranularityAlign, LimitAdmits, Rounds, Ample, KeptShort, StaysContiguous;
    RegionFacts(p, nb);
    ServesExact(p, nb);
    NotShort(p, nb);
    Conserved(p, nb);
    NothingAbove(Gives(p, nb).region.value);
  }

  lemma NothingAbove(s: Segment)
    ensures NoneAbove([], SegEnd(s)) && !Continues([], s.base)
  {}

  /** What is obtained lies below the new break, and what is not is still to be had. */
  lemma Conserved(p: Position, nb: nat)
    requires MayAsk(p, nb)
    ensures var r := Gives(p, nb);
            && r.sys.brk + r.sys.room == p.sys.brk + p.sys.room
            && (r.region.Some? ==> r.sys.brk == SegEnd(r.region.value) && p.sys.brk <= r.region.value.base)
  {
    hide GranularityAlign, ExtendSize, ExtraSize, LimitAdmits, FirstRequest, Once, PadReply;
    var asize := GranularityAlign(nb + SYS_ALLOC_PADDING);
    OnceConserves(p.sys, FirstRequest(asize, p.sys.brk));
    OnceConserves(p.sys, ExtendSize(nb, p.topsize));
    var r := Once(p.sys, ExtendSize(nb, p.topsize));
    var ssize := ExtendSize(nb, p.topsize);
    if r.region.Some? && ssize < nb + SYS_ALLOC_PADDING {
      PadConserves(r.sys, p.sys.brk, ssize, ExtraSize(nb, ssize));
    }
    OnceConserves(ContiguousReply(p, nb, asize).sys, asize);
  }

  lemma OnceConserves(o: Oracle, size: nat)
    ensures var r := Once(o, size);
            && r.sys.brk + r.sys.room == o.brk + o.room && o.brk <= r.sys.brk
            && (r.region.Some? ==> r.region == Some(Segment(o.brk, size)) && r.sys.brk == o.brk + size)
  {}

  lemma PadConserves(o: Oracle, br: nat, ssize: nat, esize: nat)
    requires o.brk == br + ssize
    ensures var r := PadReply(o, br, ssize, esize);
            && r.sys.brk + r.sys.room == o.brk + o.room && br <= r.sys.brk
            && (r.region.Some? ==> r.sys.brk == SegEnd(r.region.value) && r.region.value.base == br)
  {}

  /** Exactly when the request is served: a region is obtained, it is not kept short, and it ends at a word or where a
      segment begins. */
  lemma ServesExact(p: Position, nb: nat)
    requires MayAsk(p, nb) && nb >= 16
    ensures Serves(p, nb)
            <==> && Gives(p, nb).region.Some? && !KeptShort(p, nb)
                 && (p.sys.brk % 4 == 0 || Rounds(p, nb) || Abuts(p, nb))
  {
    hide Rounds, Gives, GranularityAlign, ExtendSize, PadFits, LimitAdmits, NoneAbove;
    RegionFacts(p, nb);
    NotShort(p, nb);
  }

  /** Exactly when the source goes astray: a segment begins where the short region ends, or none does where a region
      from an odd break ends. */
  lemma AstrayExact(p: Position, nb: nat)
    requires MayAsk(p, nb) && nb >= 16
    ensures GoesAstray(p, nb)
            <==> if Abuts(p, nb) then KeptShort(p, nb)
                 else Gives(p, nb).region.Some? && p.sys.brk % 4 != 0 && !Rounds(p, nb)
  {
    hide Rounds, Gives, GranularityAlign, ExtendSize, PadFits, LimitAdmits, NoneAbove, Asks, KeptShort, Ample, Astray;
    RegionFacts(p, nb);
    NotShort(p, nb);
    var r := Gives(p, nb).region;
    if r.Some? {
      AstrayCases(p.segs, p.topsize, nb, r.value.base, r.value.size, p.sys.brk % 4 == 0, Rounds(p, nb),
                  KeptShort(p, nb));
    }
  }

  /** A region that continues top's segment ends as its base does; another is large enough unless it is kept short. */
  lemma AstrayCases(segs: seq<Segment>, topsize: nat, nb: nat, tbase: nat, tsize: nat, even: bool, first: bool,
                    short: bool)
    requires (tbase + tsize) % 4 == 0 <==> even || first
    requires segs != [] ==> !first && SegEnd(segs[0]) % 4 == 0 && (tbase % 4 == 0 <==> even)
    requires if short then tsize < nb && !Continues(segs, tbase) else Ample(segs, topsize, nb, tbase, tsize)
    ensures Astray(segs, nb, tbase, tsize)
            <==> if !NoneAbove(segs, tbase + tsize) then short else !even && !first
  {
    hide NoneAbove;
  }

  /** The short region is the one asked for to extend top: where it ends can be told before the call. */
  lemma ShortEnd(p: Position, nb: nat)
    requires MayAsk(p, nb) && nb >= 16 && KeptShort(p, nb)
    ensures Abuts(p, nb) <==> !NoneAbove(p.segs, p.sys.brk + ExtendSize(nb, p.topsize))
  {
    hide Rounds, Gives, GranularityAlign, ExtendSize, PadFits, LimitAdmits, NoneAbove, KeptShort;
    RegionFacts(p, nb);
  }

  /** Where padding may be counted on, nothing goes astray, and only a lack of memory makes the request fail. */
  lemma GuardedServes(p: Position, nb: nat)
    requires MayAsk(p, nb) && nb >= 16
    ensures p.sys.brk % 4 == 0 && Guarded(p.contiguous, p.topsize, nb) ==>
              !GoesAstray(p, nb) && (Serves(p, nb) <==> Gives(p, nb).region.Some?)
  {
    hide Gives, GranularityAlign, ExtendSize, PadFits, LimitAdmits, NoneAbove, Serves, GoesAstray;
    Pages(nb);
    ServesExact(p, nb);
    AstrayExact(p, nb);
  }

  /** No more than half the address space is asked for, without a limit, of a system that has it: the request is
      served. */
  lemma Plenty(p: Position, nb: nat)
    requires MayAsk(p, nb) && nb >= 16 && p.sys.brk % 4 == 0 && p.sys.refusals == [] && p.footprintLimit == 0
    requires nb + SYS_ALLOC_PADDING + 2 * PAGE_SIZE <= HALF_MAX_SIZE_T
    requires nb + SYS_ALLOC_PADDING + 2 * PAGE_SIZE <= p.sys.room
    ensures Serves(p, nb) && !GoesAstray(p, nb)
  {
    hide GranularityAlign, ExtendSize, PadFits, ExtraSize, Serves, GoesAstray, NoneAbove, FirstRequest, Suits;
    var asize := GranularityAlign(nb + SYS_ALLOC_PADDING);
    Pages(nb);
    PadMeans(nb, p.topsize);
    ExtendSizes(nb, p.topsize);
    FirstSize(asize, p.sys.brk);
    ServesExact(p, nb);
    AstrayExact(p, nb);
  }

  // ----- the footprint limit

  /** The wrapped sums decide exactly whether the limit holds. */
  lemma LimitExact(footprint: nat, limit: nat, size: nat)
    requires footprint < TWO32 && limit < TWO32 && 0 < size < TWO32
    ensures LimitAdmits(footprint, limit, size) <==> limit == 0 || footprint + size <= limit
  {}

  lemma PagesMore(a: nat, n: int, b: nat, m: int)
    requires a % PAGE_SIZE == 0 && a < n + PAGE_SIZE && b % PAGE_SIZE == 0 && m <= b && n <= m
    ensures a <= b
  {
    var i, j := a / PAGE_SIZE, b / PAGE_SIZE;
    assert a == PAGE_SIZE * i && b == PAGE_SIZE * j;
  }

  /** Whatever is obtained, the footprint stays within the limit. */
  lemma LimitKept(p: Position, nb: nat)
    requires MayAsk(p, nb) && nb >= 16 && Gives(p, nb).region.Some?
    requires p.footprint < TWO32 && 0 < p.footprintLimit < TWO32
    ensures p.footprint + Gives(p, nb).region.value.size <= p.footprintLimit
  {
    hide GranularityAlign, ExtendSize, PadFits, ExtraSize, FirstRequest, LimitAdmits;
    var r, asize := Gives(p, nb).region.value, GranularityAlign(nb + SYS_ALLOC_PADDING);
    Pages(nb);
    LimitExact(p.footprint, p.footprintLimit, asize);
    SizeExact(p, nb);
    if Rounds(p, nb) {
      FirstSize(asize, p.sys.brk);
      FirstLimited(p, nb, asize);
    } else {
      PagesMore(r.size, if Extended(p, nb) || KeptShort(p, nb) then nb - p.topsize + SYS_ALLOC_PADDING
                        else nb + SYS_ALLOC_PADDING, asize, nb + SYS_ALLOC_PADDING);
    }
  }

  lemma FirstLimited(p: Position, nb: nat, asize: nat)
    requires p.sys.brk < TWO32 && FirstReply(p, nb, asize).region.Some?
    requires p.footprint < TWO32 && 0 < p.footprintLimit < TWO32
    ensures p.footprint + FirstReply(p, nb, asize).region.value.size <= p.footprintLimit
  {
    LimitExact(p.footprint, p.footprintLimit, FirstRequest(asize, p.sys.brk));
    hide FirstRequest, LimitAdmits;
  }

  // ----- what becomes of an attempt that fails

  /** The system takes a region back that could not be padded: the third answer is no refusal. */
  predicate TakenBack(refusals: seq<bool>) { |refusals| > 2 ==> !refusals[2] }

  /** Then a failure costs no memory, and a region begins at the break whichever attempt obtained it. */
  lemma NothingLost(p: Position, nb: nat)
    requires MayAsk(p, nb) && nb >= 16 && p.sys.brk > 0 && TakenBack(p.sys.refusals)
    ensures var r := Gives(p, nb);
            if r.region.Some? then r.region.value.base == p.sys.brk
            else r.sys.brk == p.sys.brk && r.sys.room == p.sys.room
  {
    hide GranularityAlign, ExtendSize, ExtraSize, LimitAdmits, FirstRequest, Once, PadReply;
    Pages(nb);
    var asize := GranularityAlign(nb + SYS_ALLOC_PADDING);
    OnceKeeps(p.sys, FirstRequest(asize, p.sys.brk));
    var ssize := ExtendSize(nb, p.topsize);
    OnceKeeps(p.sys, ssize);
    if Asks(p, nb) { ExtendSizes(nb, p.topsize); }
    var r := Once(p.sys, ssize);
    if r.region.Some? && ssize < nb + SYS_ALLOC_PADDING && ssize > 0 {
      PadKeeps(p.sys, ssize, ExtraSize(nb, ssize));
    }
    OnceKeeps(ContiguousReply(p, nb, asize).sys, asize);
  }

  lemma PadKeeps(o: Oracle, ssize: nat, esize: nat)
    requires o.brk > 0 && ssize > 0 && TakenBack(o.refusals) && Once(o, ssize).region.Some?
    ensures var r := PadReply(Once(o, ssize).sys, o.brk, ssize, esize);
            if r.region.Some? then r.region.value.base == o.brk else r.sys.brk == o.brk && r.sys.room == o.room
  {}

  /** No refusal, and at most one. */
  predicate Calm(refusals: seq<bool>) { forall i | 0 <= i < |refusals| :: !refusals[i] }

  predicate AtMostOne(refusals: seq<bool>) {
    forall i, j | 0 <= i < j < |refusals| :: !(refusals[i] && refusals[j])
  }

  lemma RefusedOnce(refusals: seq<bool>)
    requires AtMostOne(refusals)
    ensures Refuses(refusals) ==> Calm(refusals[1..])
    ensures |refusals| > 1 && !refusals[0] && refusals[1] ==> Calm(refusals[2..])
  {}

  lemma OnceCalm(o: Oracle, size: nat)
    requires size < HALF_MAX_SIZE_T && size <= o.room
    ensures Calm(o.refusals) ==> Once(o, size).region.Some?
    ensures Once(o, size).region.None? && AtMostOne(o.refusals) ==>
              var o' := Once(o, size).sys; Calm(o'.refusals) && o'.brk == o.brk && o'.room == o.room
  {}

  lemma PadCalm(o: Oracle, ssize: nat, esize: nat)
    requires 0 < ssize && 0 < o.brk && Once(o, ssize).region.Some? && AtMostOne(o.refusals) && ssize + esize <= o.room
    ensures var r := PadReply(Once(o, ssize).sys, o.brk, ssize, esize);
            r.region.None? ==> Calm(r.sys.refusals) && r.sys.brk == o.brk && r.sys.room == o.room
  {
    RefusedOnce(o.refusals);
  }

  /** One refusal does no harm to a heap that extends contiguously: the request is asked for afresh, and the room is
      still there. */
  lemma SecondAttempt(p: Position, nb: nat)
    requires MayAsk(p, nb) && nb >= 16 && p.sys.brk % 4 == 0 && p.sys.brk > 0 && AtMostOne(p.sys.refusals)
    requires p.contiguous && p.footprintLimit == 0 && nb + SYS_ALLOC_PADDING + 2 * PAGE_SIZE <= HALF_MAX_SIZE_T
    requires nb + SYS_ALLOC_PADDING + 2 * PAGE_SIZE <= p.sys.room
    ensures Serves(p, nb) && !GoesAstray(p, nb)
  {
    hide GranularityAlign, ExtendSize, ExtraSize, Serves, GoesAstray, NoneAbove, FirstRequest, Suits, LimitAdmits;
    hide Once, PadReply, Abuts, AtMostOne, Calm, KeptShort, Rounds;
    var asize := GranularityAlign(nb + SYS_ALLOC_PADDING);
    Pages(nb);
    PadMeans(nb, p.topsize);
    ExtendSizes(nb, p.topsize);
    FirstSize(asize, p.sys.brk);
    NoLimit(p.footprint, asize);
    NoLimit(p.footprint, FirstRequest(asize, p.sys.brk));
    OnceCalm(p.sys, FirstRequest(asize, p.sys.brk));
    var ssize := ExtendSize(nb, p.topsize);
    OnceCalm(p.sys, ssize);
    if Once(p.sys, ssize).region.Some? && ssize < nb + SYS_ALLOC_PADDING {
      PadCalm(p.sys, ssize, ExtraSize(nb, ssize));
    }
    var r := ContiguousReply(p, nb, asize);
    if r.region.None? { OnceCalm(r.sys, asize); }
    NotKeptShort(p, nb);
    ServesExact(p, nb);
    AstrayExact(p, nb);
  }

  lemma NotKeptShort(p: Position, nb: nat)
    requires MayAsk(p, nb) && PadFits(nb, p.topsize)
    ensures !KeptShort(p, nb)
  {}
}
