/** The elementary changes to the tiling stay within the segments. */
module SegOps {
  import opened Words
  import opened Rings
  import opened Bins
  import opened Tiling
  import opened TagOps
  import opened Segments

  lemma InsideAt(segs: seq<Segment>, c: Tiles, p: int) returns (i: nat)
    requires SegInside(segs, c) && p in c
    ensures i < |segs| && Holds(segs[i], p, p + c[p].size)
  {
    assert Inside(segs, p, p + c[p].size);
    i :| 0 <= i < |segs| && Holds(segs[i], p, p + c[p].size);
  }

  /** A run of chunks lies in one segment. */
  lemma {:induction false} RunInside(segs: seq<Segment>, least: int, g: Tags, b: int, e: int, r: set<int>, p: int)
    requires SegShape(segs, least) && SegInside(segs, g.tiles) && Shapes(g.tiles) && Run(g, b, e, r) && p in r
    ensures Inside(segs, p, e)
    decreases e - p
  {
    hide RunLinks;
    RunLink(g, b, e, r, p);
    var i := InsideAt(segs, g.tiles, p);
    var q := End(g.tiles, p);
    if q != e {
      RunInside(segs, least, g, b, e, r, q);
      var j :| 0 <= j < |segs| && Holds(segs[j], q, e);
      SameSegment(segs, least, i, j, p, q, q, e);
      assert Holds(segs[i], p, e);
    }
  }

  lemma MergeSegs(segs: seq<Segment>, least: int, g: Tags, b: int, e: int, r: set<int>)
    requires SegsOk(segs, least, g) && Shapes(g.tiles) && Apart(g.tiles) && TopApart(g.tiles, g.top, g.topsize)
    requires TopTag(g.tiles, g.top, g.topsize, g.head) && Run(g, b, e, r)
    ensures b < e && SegsOk(segs, least, MergeTags(g, b, e, r))
  {
    hide SegShape, SegInside, SegFirst, RunLinks, RecLast;
    MergeRecs(segs, g, b, e, r);
    RunInside(segs, least, g, b, e, r, b);
    MergeInside(segs, g, b, e, r);
    MergeFirst(segs, least, g, b, e, r);
  }

  lemma MergeInside(segs: seq<Segment>, g: Tags, b: int, e: int, r: set<int>)
    requires SegInside(segs, g.tiles) && Run(g, b, e, r) && b < e && Inside(segs, b, e)
    ensures SegInside(segs, MergeTiles(g.tiles, b, e, r, true))
  {
    hide RunLinks, Inside;
    var c := MergeTiles(g.tiles, b, e, r, true);
    forall p | p in c ensures Inside(segs, p, p + c[p].size) {
      if p != b { assert Inside(segs, p, p + g.tiles[p].size); }
    }
  }

  lemma MergeFirst(segs: seq<Segment>, least: int, g: Tags, b: int, e: int, r: set<int>)
    requires SegsOk(segs, least, g) && Shapes(g.tiles) && Apart(g.tiles) && TopApart(g.tiles, g.top, g.topsize)
    requires TopTag(g.tiles, g.top, g.topsize, g.head) && Run(g, b, e, r) && b < e
    ensures SegFirst(segs, MergeTiles(g.tiles, b, e, r, true), g.top)
  {
    hide SegShape, SegInside, RunLinks, RecLast, Shapes, Apart, TopApart, TopTag, First, SegTop;
    var c := MergeTiles(g.tiles, b, e, r, true);
    forall i | 0 <= i < |segs| ensures First(segs[i]) in c || First(segs[i]) == g.top {
      if First(segs[i]) in r && First(segs[i]) != b {
        RunBefore(g, b, e, r, First(segs[i]), b);
        RunNotFirst(segs, least, g, b, e, r, First(segs[i]));
      }
    }
  }

  lemma MergeRecs(segs: seq<Segment>, g: Tags, b: int, e: int, r: set<int>)
    requires RecLast(segs, g.tiles, g.recs, g.top) && Run(g, b, e, r)
    ensures b < e && RecLast(segs, MergeTiles(g.tiles, b, e, r, true), g.recs, g.top)
  {
    hide RunLinks, Parted, NearEnd;
  }

  lemma RunNotFirst(segs: seq<Segment>, least: int, g: Tags, b: int, e: int, r: set<int>, f: int)
    requires SegsOk(segs, least, g) && Shapes(g.tiles) && TopTag(g.tiles, g.top, g.topsize, g.head)
    requires exists q :: q in r && q in g.tiles && End(g.tiles, q) == f && f in g.tiles
    ensures forall i | 0 <= i < |segs| :: First(segs[i]) != f
  {
    var q :| q in r && q in g.tiles && End(g.tiles, q) == f && f in g.tiles;
    NotFirst(segs, least, g, q);
  }

  /** Every chunk of a run but the first has its predecessor in the run. */
  lemma {:induction false} RunBefore(g: Tags, b: int, e: int, r: set<int>, f: int, p: int)
    requires Shapes(g.tiles) && Apart(g.tiles) && Run(g, b, e, r) && f in r && p in r && p < f
    ensures exists q :: q in r && q in g.tiles && End(g.tiles, q) == f && f in g.tiles
    decreases f - p
  {
    hide RunLinks;
    RunLink(g, b, e, r, p);
    assert p in g.tiles && f in g.tiles;
    if End(g.tiles, p) != f { RunBefore(g, b, e, r, f, End(g.tiles, p)); }
  }

  lemma FreeSegs(segs: seq<Segment>, least: int, g: Tags, p: int)
    requires SegsOk(segs, least, g) && p in g.tiles
    ensures SegsOk(segs, least, FreeTags(g, p))
  {
    hide SegShape, Inside, Parted, NearEnd;
  }

  lemma SplitSegs(segs: seq<Segment>, least: int, g: Tags, p: int, nb: nat)
    requires SegsOk(segs, least, g) && CanSplit(g, p, nb) && Apart(g.tiles) && Followed(g.tiles, g.recs, g.top)
    ensures SegsOk(segs, least, SplitTags(g, p, nb))
  {
    hide SegShape, RecLast, Apart;
    SplitRecs(segs, least, g, p, nb);
    var i := InsideAt(segs, g.tiles, p);
    assert Holds(segs[i], p, p + nb) && Holds(segs[i], p + nb, p + g.tiles[p].size);
    var c := SplitTags(g, p, nb).tiles;
    forall q | q in c ensures Inside(segs, q, q + c[q].size) {
      if q != p && q != p + nb { assert Inside(segs, q, q + g.tiles[q].size); }
    }
  }

  lemma OneHolder(segs: seq<Segment>, least: int, i: nat, a: int, e: int, a': int)
    requires SegShape(segs, least) && i < |segs| && Holds(segs[i], a, e) && a <= a' <= e
    ensures forall j | 0 <= j < |segs| && segs[j].base <= a' < SegEnd(segs[j]) :: j == i
  {}

  lemma SplitRecs(segs: seq<Segment>, least: int, g: Tags, p: int, nb: nat)
    requires RecLast(segs, g.tiles, g.recs, g.top) && CanSplit(g, p, nb) && Apart(g.tiles)
    requires SegShape(segs, least) && SegInside(segs, g.tiles) && forall r | r in g.recs :: r in g.tiles
    ensures RecLast(segs, SplitTags(g, p, nb).tiles, SplitTags(g, p, nb).recs, g.top)
  {
    var i := InsideAt(segs, g.tiles, p);
    var e := p + g.tiles[p].size;
    OneHolder(segs, least, i, p, e, p);
    OneHolder(segs, least, i, p, e, p + nb);
    hide SegShape, SegInside, GoodSize;
    var g' := SplitTags(g, p, nb);
    forall r, q | r in g'.recs && (q in g'.tiles || q == g.top) && r < q ensures Parted(segs, r, q) {
      if r == p + nb {
        if q in g.tiles || q == g.top { SplitParted(segs, g, p, nb, q); }
      } else if q == p + nb {
        assert r < p;
        assert Parted(segs, r, p);
      }
    }
    if p in g.recs { assert NearEnd(segs, p, e); }
  }

  lemma SplitParted(segs: seq<Segment>, g: Tags, p: int, nb: nat, q: int)
    requires RecLast(segs, g.tiles, g.recs, g.top) && p in g.recs && (q in g.tiles || q == g.top) && p < q
    requires forall j | 0 <= j < |segs| && segs[j].base <= p + nb < SegEnd(segs[j]) ::
               segs[j].base <= p < SegEnd(segs[j])
    ensures Parted(segs, p + nb, q)
  {
    assert Parted(segs, p, q);
  }

  /** A chunk that ends at top lies in top's segment. */
  lemma EndsAtTop(segs: seq<Segment>, least: int, g: Tags, p: int)
    requires SegShape(segs, least) && SegInside(segs, g.tiles) && SegTop(segs, g.top, g.topsize) && g.top > 0
    requires p in g.tiles && p + g.tiles[p].size == g.top && g.tiles[p].size > 0
    ensures segs != [] && segs[0].base <= p
  {
    var i := InsideAt(segs, g.tiles, p);
    assert segs != [];
    assert i == 0;
  }

  lemma JoinTopSegs(segs: seq<Segment>, least: int, g: Tags, p: int)
    requires SegsOk(segs, least, g) && Shapes(g.tiles) && TopTag(g.tiles, g.top, g.topsize, g.head) && CanJoinTop(g, p)
    ensures SegsOk(segs, least, JoinTopTags(g, p))
  {
    hide SegShape, Inside, First, NearEnd, Parted;
    NotFirst(segs, least, g, p);
    EndsAtTop(segs, least, g, p);
    assert forall q | q in g.tiles :: Inside(segs, q, q + g.tiles[q].size);
  }

  lemma TakeTopRecs(segs: seq<Segment>, least: int, g: Tags, nb: nat)
    requires SegsOk(segs, least, g) && CanTakeTop(g, nb)
    requires forall r | r in g.recs :: r in g.tiles && (r < g.top || g.top + g.topsize <= r)
    ensures RecLast(segs, TakeTopTags(g, nb).tiles, g.recs, g.top + nb)
  {
    hide SegShape, SegInside, SegFirst;
    var c := TakeTopTags(g, nb).tiles;
    forall r, q | r in g.recs && (q in c || q == g.top + nb) && r < q ensures Parted(segs, r, q) {
      if q == g.top + nb {
        assert Parted(segs, r, g.top);
      }
    }
  }

  lemma RecsBesideTop(g: Tags)
    requires TopApart(g.tiles, g.top, g.topsize) && Followed(g.tiles, g.recs, g.top) && Shapes(g.tiles)
    ensures forall r | r in g.recs :: r in g.tiles && (r < g.top || g.top + g.topsize <= r)
  {}

  lemma TakeTopSegs(segs: seq<Segment>, least: int, g: Tags, nb: nat)
    requires SegsOk(segs, least, g) && TopTag(g.tiles, g.top, g.topsize, g.head) && CanTakeTop(g, nb)
    requires TopApart(g.tiles, g.top, g.topsize) && Followed(g.tiles, g.recs, g.top) && Shapes(g.tiles)
    ensures SegsOk(segs, least, TakeTopTags(g, nb))
  {
    hide SegShape, RecLast, SegInside, SegFirst;
    RecsBesideTop(g);
    TakeTopRecs(segs, least, g, nb);
    TakeTopInside(segs, g, nb);
    TakeTopFirst(segs, g, nb);
  }

  lemma TakeTopFirst(segs: seq<Segment>, g: Tags, nb: nat)
    requires SegFirst(segs, g.tiles, g.top) && nb <= g.topsize
    ensures SegFirst(segs, TakeTopTags(g, nb).tiles, g.top + nb)
  {}

  lemma TakeTopInside(segs: seq<Segment>, g: Tags, nb: nat)
    requires SegInside(segs, g.tiles) && nb <= g.topsize && segs != [] && Holds(segs[0], g.top, g.top + nb)
    ensures SegInside(segs, TakeTopTags(g, nb).tiles)
  {
    hide Holds;
    var c := TakeTopTags(g, nb).tiles;
    assert Inside(segs, g.top, g.top + nb);
    hide Inside;
    forall q | q in c ensures Inside(segs, q, q + c[q].size) {
      if q != g.top { assert Inside(segs, q, q + g.tiles[q].size); }
    }
  }
}
