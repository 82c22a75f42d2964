/** The segments obtained from the system and how the tiling fills them. */
module Segments {
  import opened Words
  import opened Rings
  import opened Bins
  import opened Tiling

  datatype Segment = Segment(base: nat, size: nat)

  function SegEnd(s: Segment): nat { s.base + s.size }

  /** align_as_chunk(base): the first chunk of a segment. */
  function First(s: Segment): nat { s.base + AlignOffset(s.base) }

  predicate Holds(s: Segment, a: int, e: int) { s.base <= a && e < SegEnd(s) }

  predicate Inside(segs: seq<Segment>, a: int, e: int) { exists i | 0 <= i < |segs| :: Holds(segs[i], a, e) }

  predicate SegShape(segs: seq<Segment>, least: int) {
    && (forall i | 0 <= i < |segs| ::
          0 < segs[i].base && segs[i].base >= least && segs[i].size >= 8 && SegEnd(segs[i]) <= TWO32)
    && (forall i, j | 0 <= i < j < |segs| :: SegEnd(segs[i]) <= segs[j].base || SegEnd(segs[j]) <= segs[i].base)
  }

  predicate SegInside(segs: seq<Segment>, c: Tiles) {
    forall p | p in c :: Inside(segs, p, p + c[p].size)
  }

  predicate SegFirst(segs: seq<Segment>, c: Tiles, top: int) {
    forall i | 0 <= i < |segs| :: First(segs[i]) in c || First(segs[i]) == top
  }

  /** Top lies in the most recent segment, with its foot at that segment's end. */
  predicate SegTop(segs: seq<Segment>, top: int, topsize: nat) {
    if top == 0 then segs == []
    else segs != [] && segs[0].base <= top && top + topsize + TOP_FOOT_SIZE == SegEnd(segs[0])
  }

  /** No segment holds both p and q. */
  predicate Parted(segs: seq<Segment>, p: int, q: int) {
    forall i | 0 <= i < |segs| && segs[i].base <= p < SegEnd(segs[i]) :: SegEnd(segs[i]) <= q
  }

  /** No segment that holds p goes far beyond e. */
  predicate NearEnd(segs: seq<Segment>, p: int, e: int) {
    forall i | 0 <= i < |segs| && segs[i].base <= p < SegEnd(segs[i]) :: SegEnd(segs[i]) < e + TOP_FOOT_SIZE
  }

  /** The chunk of a segment record is the last of its segment: only fenceposts follow it. */
  ghost predicate RecLast(segs: seq<Segment>, c: Tiles, recs: set<int>, top: int) {
    && (forall p, q {:trigger Parted(segs, p, q)} | p in recs && (q in c || q == top) && p < q :: Parted(segs, p, q))
    && (forall p {:trigger c[p]} | p in recs && p in c :: NearEnd(segs, p, p + c[p].size))
  }

  ghost predicate SegsOk(segs: seq<Segment>, least: int, g: Tags) {
    && SegShape(segs, least)
    && SegInside(segs, g.tiles)
    && SegFirst(segs, g.tiles, g.top)
    && SegTop(segs, g.top, g.topsize)
    && RecLast(segs, g.tiles, g.recs, g.top)
  }

  function SumSizes(segs: seq<Segment>): nat { if segs == [] then 0 else segs[0].size + SumSizes(segs[1..]) }

  predicate FootprintOk(segs: seq<Segment>, footprint: nat, maxFootprint: nat) {
    footprint == SumSizes(segs) <= maxFootprint
  }

  // ----- how the elementary changes move through the segments

  /** Two intervals that meet lie in the same segment. */
  lemma SameSegment(segs: seq<Segment>, least: int, i: nat, j: nat, a: int, e: int, a': int, e': int)
    requires SegShape(segs, least) && i < |segs| && j < |segs| && Holds(segs[i], a, e) && Holds(segs[j], a', e')
    requires a < a' == e < e'
    ensures i == j
  {}

  lemma NotFirst(segs: seq<Segment>, least: int, g: Tags, p: int)
    requires SegsOk(segs, least, g) && Shapes(g.tiles) && TopTag(g.tiles, g.top, g.topsize, g.head)
    requires p in g.tiles && (End(g.tiles, p) in g.tiles || End(g.tiles, p) == g.top)
    ensures forall i | 0 <= i < |segs| :: First(segs[i]) != End(g.tiles, p)
  {
    hide SegShape, First, SegFirst, SegTop, RecLast;
    var e := End(g.tiles, p);
    assert Inside(segs, p, p + g.tiles[p].size);
    var k :| 0 <= k < |segs| && Holds(segs[k], p, p + g.tiles[p].size);
    forall i | 0 <= i < |segs| ensures First(segs[i]) != e { FirstNotEnd(segs, least, k, i, p, e); }
  }

  lemma FirstNotEnd(segs: seq<Segment>, least: int, k: nat, i: nat, p: int, e: int)
    requires SegShape(segs, least) && k < |segs| && i < |segs| && Holds(segs[k], p, e) && p % 8 == 0 && p + 8 <= e
    ensures First(segs[i]) != e
  {
    if i != k {
      var lo, hi := if i < k then i else k, if i < k then k else i;
      assert SegEnd(segs[lo]) <= segs[hi].base || SegEnd(segs[hi]) <= segs[lo].base;
    }
  }
}
