/** The footprint is a sum of disjoint regions of one address space, so counting it never wraps. */
module Footprint {
  import opened Words
  import opened Segments

  function Cells(lo: int, hi: int): (s: set<int>)
    ensures forall x :: x in s <==> lo <= x < hi
    decreases hi - lo
  {
    if lo >= hi then {} else Cells(lo, hi - 1) + {hi - 1}
  }

  lemma {:induction false} CellCount(lo: int, hi: int)
    requires lo <= hi
    ensures |Cells(lo, hi)| == hi - lo
    decreases hi - lo
  {
    if lo < hi { CellCount(lo, hi - 1); }
  }

  function SegCells(segs: seq<Segment>): set<int> {
    if segs == [] then {} else Cells(segs[0].base, SegEnd(segs[0])) + SegCells(segs[1..])
  }

  lemma {:induction false} CellHolder(segs: seq<Segment>, x: int)
    requires x in SegCells(segs)
    ensures exists i :: 0 <= i < |segs| && segs[i].base <= x < SegEnd(segs[i])
  {
    if x in Cells(segs[0].base, SegEnd(segs[0])) {
      assert segs[0].base <= x < SegEnd(segs[0]);
    } else {
      CellHolder(segs[1..], x);
      var i :| 0 <= i < |segs[1..]| && segs[1..][i].base <= x < SegEnd(segs[1..][i]);
      assert segs[i + 1] == segs[1..][i];
    }
  }

  lemma {:induction false} CountCells(segs: seq<Segment>, least: int)
    requires SegShape(segs, least)
    ensures |SegCells(segs)| == SumSizes(segs)
  {
    if segs != [] {
      var rest := segs[1..];
      forall i | 0 <= i < |rest| ensures rest[i] == segs[i + 1] {}
      assert SegShape(rest, least);
      CountCells(rest, least);
      CellCount(segs[0].base, SegEnd(segs[0]));
      forall x | x in SegCells(rest) ensures x !in Cells(segs[0].base, SegEnd(segs[0])) {
        CellHolder(rest, x);
        var i :| 0 <= i < |rest| && rest[i].base <= x < SegEnd(rest[i]);
        assert SegEnd(segs[0]) <= segs[i + 1].base || SegEnd(segs[i + 1]) <= segs[0].base;
      }
    }
  }

  lemma SubsetCount(a: set<int>, b: set<int>)
    requires a <= b
    ensures |a| <= |b|
  {
    assert b == a + (b - a);
  }

  /** footprint fits a size_t. */
  lemma FootprintFits(segs: seq<Segment>, least: int)
    requires SegShape(segs, least)
    ensures SumSizes(segs) < TWO32
  {
    CountCells(segs, least);
    forall x | x in SegCells(segs) ensures x in Cells(1, TWO32) {
      CellHolder(segs, x);
    }
    SubsetCount(SegCells(segs), Cells(1, TWO32));
    CellCount(1, TWO32);
  }
}
