/** New and prepended segments around the tiling. */
module SysSegs {
  import opened Words
  import opened Rings
  import opened Bins
  import opened Tiling
  import opened TagOps
  import opened Segments
  import opened SegOps
  import opened SysOps
  import opened Coalesce
  import opened AllocOps

  // ----- a new segment

  lemma PushShape(segs: seq<Segment>, least: int, s: Segment, least': int)
    requires SegShape(segs, least) && FreshRange(segs, s.base, SegEnd(s)) && s.size >= 8
    requires least' <= least && least' <= s.base
    ensures SegShape([s] + segs, least')
  {
    var segs' := [s] + segs;
    forall i, j | 0 <= i < j < |segs'| ensures SegEnd(segs'[i]) <= segs'[j].base || SegEnd(segs'[j]) <= segs'[i].base {
      if i > 0 { assert SegEnd(segs[i - 1]) <= segs[j - 1].base || SegEnd(segs[j - 1]) <= segs[i - 1].base; }
    }
  }

  lemma PushInside(segs: seq<Segment>, s: Segment, a: int, e: int)
    requires Inside(segs, a, e)
    ensures Inside([s] + segs, a, e)
  {
    var i :| 0 <= i < |segs| && Holds(segs[i], a, e);
    assert ([s] + segs)[i + 1] == segs[i];
  }

  lemma RetireSegs(segs: seq<Segment>, least: int, g: Tags, s: nat, seg: Segment, least': int, topsize: nat)
    requires SegsOk(segs, least, g) && g.top != 0 && g.top + s < SegEnd(segs[0]) < g.top + s + TOP_FOOT_SIZE
    requires TopApart(g.tiles, g.top, g.topsize) && forall r | r in g.recs :: r in g.tiles && g.tiles[r].size > 0
    requires g.top !in g.tiles && First(seg) !in g.tiles
    requires FreshRange(segs, seg.base, SegEnd(seg)) && seg.size >= 8
    requires least' <= least && least' <= seg.base && First(seg) + topsize + TOP_FOOT_SIZE == SegEnd(seg)
    ensures SegsOk([seg] + segs, least', Retired(g, s, First(seg), topsize))
  {
    hide SegShape, FreshRange, Inside, First, RecLast;
    RetireRecs(segs, least, g, s, seg, topsize);
    PushShape(segs, least, seg, least');
    var g' := Retired(g, s, First(seg), topsize);
    assert Inside(segs, g.top, g.top + s) by { InHead(segs, g.top, g.top + s); }
    forall q | q in g'.tiles ensures Inside([seg] + segs, q, q + g'.tiles[q].size) {
      PushInside(segs, seg, q, q + g'.tiles[q].size);
    }
    assert FirstBase(seg) by { FirstAbove(seg); }
  }

  /** Where a record's segment stands to a fresh one. */
  lemma FreshApart(segs: seq<Segment>, seg: Segment, i: nat)
    requires FreshRange(segs, seg.base, SegEnd(seg)) && i < |segs|
    ensures SegEnd(segs[i]) <= seg.base || SegEnd(seg) <= segs[i].base
  {}

  lemma RetireRecs(segs: seq<Segment>, least: int, g: Tags, s: nat, seg: Segment, topsize: nat)
    requires SegsOk(segs, least, g) && g.top != 0 && g.top + s < SegEnd(segs[0]) < g.top + s + TOP_FOOT_SIZE
    requires FreshRange(segs, seg.base, SegEnd(seg)) && First(seg) < SegEnd(seg)
    requires TopApart(g.tiles, g.top, g.topsize) && forall r | r in g.recs :: r in g.tiles && g.tiles[r].size > 0
    requires g.top !in g.tiles && First(seg) !in g.tiles
    ensures RecLast([seg] + segs, Retired(g, s, First(seg), topsize).tiles, g.recs + {g.top}, First(seg))
  {
    hide SegShape, SegFirst, FreshRange;
    var segs' := [seg] + segs;
    var c := Retired(g, s, First(seg), topsize).tiles;
    forall r, q | r in g.recs + {g.top} && (q in c || q == First(seg)) && r < q ensures Parted(segs', r, q) {
      RecHolder(segs, least, g, seg, r);
      forall i | 0 <= i < |segs'| && segs'[i].base <= r < SegEnd(segs'[i]) ensures SegEnd(segs'[i]) <= q {
        FreshApart(segs, seg, i - 1);
        if q != First(seg) && r != g.top { assert Parted(segs, r, q); }
        if r == g.top { OneTop(segs, least, g, i - 1); }
      }
    }
    forall r | r in g.recs + {g.top} ensures NearEnd(segs', r, r + c[r].size) {
      RecHolder(segs, least, g, seg, r);
      if r != g.top { assert NearEnd(segs, r, r + g.tiles[r].size); }
      forall i | 0 <= i < |segs'| && segs'[i].base <= r < SegEnd(segs'[i])
        ensures SegEnd(segs'[i]) < r + c[r].size + TOP_FOOT_SIZE
      {
        if r == g.top { OneTop(segs, least, g, i - 1); }
      }
    }
  }

  /** Chunks and top lie outside the fresh segment. */
  lemma RecHolder(segs: seq<Segment>, least: int, g: Tags, seg: Segment, r: int)
    requires SegsOk(segs, least, g) && g.top != 0 && FreshRange(segs, seg.base, SegEnd(seg))
    requires r in g.tiles || r == g.top
    requires r in g.tiles ==> g.tiles[r].size > 0
    ensures !(seg.base <= r < SegEnd(seg))
  {
    hide SegShape, SegFirst, RecLast, FreshRange;
    if r in g.tiles {
      var j := InsideAt(segs, g.tiles, r);
      FreshApart(segs, seg, j);
    } else {
      FreshApart(segs, seg, 0);
    }
  }

  lemma OneTop(segs: seq<Segment>, least: int, g: Tags, i: nat)
    requires SegsOk(segs, least, g) && g.top != 0 && i < |segs| && segs[i].base <= g.top < SegEnd(segs[i])
    ensures i == 0
  {
    hide SegFirst, SegInside, RecLast;
    if i != 0 { OtherSegment(segs, least, i); }
  }

  predicate FirstBase(s: Segment) { s.base <= First(s) }

  lemma FirstAbove(s: Segment)
    ensures FirstBase(s)
  {}

  lemma InHead(segs: seq<Segment>, a: int, e: int)
    requires segs != [] && segs[0].base <= a && e < SegEnd(segs[0])
    ensures Inside(segs, a, e)
  {
    assert Holds(segs[0], a, e);
  }

  // ----- memory just below a segment

  lemma PrependShape(segs: seq<Segment>, least: int, i: nat, tbase: nat, tsize: nat, least': int)
    requires SegShape(segs, least) && i < |segs| && FreshRange(segs, tbase, tbase + tsize)
    requires tbase + tsize == segs[i].base
    requires least' <= least && least' <= tbase
    ensures SegShape(segs[i := Segment(tbase, segs[i].size + tsize)], least')
  {
    var segs' := segs[i := Segment(tbase, segs[i].size + tsize)];
    forall j, k | 0 <= j < k < |segs'| ensures SegEnd(segs'[j]) <= segs'[k].base || SegEnd(segs'[k]) <= segs'[j].base {
      assert SegEnd(segs[j]) <= segs[k].base || SegEnd(segs[k]) <= segs[j].base;
    }
  }

  lemma PrependInside(segs: seq<Segment>, i: nat, tbase: nat, tsize: nat, a: int, e: int)
    requires i < |segs| && tbase + tsize == segs[i].base && Inside(segs, a, e)
    ensures Inside(segs[i := Segment(tbase, segs[i].size + tsize)], a, e)
  {
    var segs' := segs[i := Segment(tbase, segs[i].size + tsize)];
    var j :| 0 <= j < |segs| && Holds(segs[j], a, e);
    assert Holds(segs'[j], a, e);
  }

  /** Where segment i stands to an address in segment j. */
  lemma AboveFirst(segs: seq<Segment>, least: int, i: nat, j: nat, tbase: nat, tsize: nat, a: int, e: int)
    requires SegShape(segs, least) && i < |segs| && j < |segs| && FreshRange(segs, tbase, tbase + tsize)
    requires tbase + tsize == segs[i].base
    requires segs[j].base <= a && a % 8 == 0 && e <= SegEnd(segs[j])
    ensures e <= tbase || First(segs[i]) <= a
  {
    if j != i {
      var lo, hi := if i < j then i else j, if i < j then j else i;
      assert SegEnd(segs[lo]) <= segs[hi].base || SegEnd(segs[hi]) <= segs[lo].base;
    }
  }

  lemma FirstPinuse(segs: seq<Segment>, least: int, g: Tags, i: nat)
    requires TagsOk(g) && SegsOk(segs, least, g) && i < |segs|
    ensures HeadAt(g.head, First(segs[i])).pinuse && g.top != 0 && segs != []
  {
    var f := First(segs[i]);
    assert f in g.tiles || f == g.top;
    if f in g.tiles && !HeadAt(g.head, f).pinuse {
      var q := f - At(g.foot, f);
      assert End(g.tiles, q) == f;
      NotFirst(segs, least, g, q);
    }
  }

  lemma PrependClear(segs: seq<Segment>, least: int, g: Tags, i: nat, tbase: nat, tsize: nat, q: int)
    requires Shapes(g.tiles) && SegShape(segs, least) && SegInside(segs, g.tiles) && i < |segs| && q in g.tiles
    requires FreshRange(segs, tbase, tbase + tsize) && tbase + tsize == segs[i].base
    ensures q + g.tiles[q].size < tbase || First(segs[i]) <= q
  {
    hide SegShape, FreshRange, First;
    var j := InsideAt(segs, g.tiles, q);
    AboveFirst(segs, least, i, j, tbase, tsize, q, q + g.tiles[q].size + 1);
  }

  lemma PrependFirst(segs: seq<Segment>, least: int, i: nat, tbase: nat, tsize: nat)
    requires SegShape(segs, least) && i < |segs| && tbase + tsize == segs[i].base && tsize >= 32 && tbase > 0
    ensures var p := tbase + AlignOffset(tbase); p % 8 == 0 && p < First(segs[i]) && GoodSize(First(segs[i]) - p)
  {
    hide AlignOffset;
    Mod8(First(segs[i]), tbase + AlignOffset(tbase));
    assert SegEnd(segs[i]) <= TWO32;
  }

  lemma PrependCan(segs: seq<Segment>, least: int, g: Tags, i: nat, tbase: nat, tsize: nat)
    requires TagsOk(g) && SegsOk(segs, least, g) && i < |segs|
    requires FreshRange(segs, tbase, tbase + tsize) && tbase + tsize == segs[i].base && tsize >= 32
    ensures var p := tbase + AlignOffset(tbase); First(segs[i]) > p && CanAdd(g, p, First(segs[i]) - p)
  {
    hide Shapes, Apart, TopApart, Followed, HeadsOk, UsedNext, FreeNext, PrevFree, SegShape, SegInside, First, GoodSize;
    FirstPinuse(segs, least, g, i);
    var p, f := tbase + AlignOffset(tbase), First(segs[i]);
    PrependFirst(segs, least, i, tbase, tsize);
    assert f in g.tiles || f == g.top;
    forall q | q in g.tiles ensures q + g.tiles[q].size <= p - 1 || f <= q {
      PrependClear(segs, least, g, i, tbase, tsize, q);
    }
    AboveFirst(segs, least, i, 0, tbase, tsize, g.top, SegEnd(segs[0]));
    NotAt(g, f, p, tbase);
  }

  lemma NotAt(g: Tags, f: int, p: int, tbase: int)
    requires Shapes(g.tiles) && tbase <= p < f
    requires forall q | q in g.tiles :: q + g.tiles[q].size <= p - 1 || f <= q
    ensures p !in g.tiles
  {}

  lemma PrependSegs(segs: seq<Segment>, least: int, g: Tags, i: nat, tbase: nat, tsize: nat, least': int)
    requires SegsOk(segs, least, g) && i < |segs| && g.top != 0
    requires forall r | r in g.recs :: r in g.tiles && g.tiles[r].size > 0
    requires FreshRange(segs, tbase, tbase + tsize) && tbase + tsize == segs[i].base
    requires least' <= least && least' <= tbase
    requires var p := tbase + AlignOffset(tbase); First(segs[i]) > p
    ensures var p := tbase + AlignOffset(tbase);
            SegsOk(segs[i := Segment(tbase, segs[i].size + tsize)], least', AddedChunk(g, p, First(segs[i]) - p))
  {
    hide FreshRange, Inside, RecLast, SegShape, AlignOffset;
    PrependRecs(segs, least, g, i, tbase, tsize, First(segs[i]) - (tbase + AlignOffset(tbase)));
    var p, f := tbase + AlignOffset(tbase), First(segs[i]);
    var segs' := segs[i := Segment(tbase, segs[i].size + tsize)];
    var g' := AddedChunk(g, p, f - p);
    PrependShape(segs, least, i, tbase, tsize, least');
    NewBottom(segs, least, i, tbase, tsize);
    forall q | q in g'.tiles ensures Inside(segs', q, q + g'.tiles[q].size) {
      if q != p { PrependInside(segs, i, tbase, tsize, q, q + g.tiles[q].size); }
    }
  }

  lemma PrependRecs(segs: seq<Segment>, least: int, g: Tags, i: nat, tbase: nat, tsize: nat, s: nat)
    requires SegsOk(segs, least, g) && i < |segs| && g.top != 0
    requires forall r | r in g.recs :: r in g.tiles && g.tiles[r].size > 0
    requires FreshRange(segs, tbase, tbase + tsize) && tbase + tsize == segs[i].base && s > 0
    requires var p := tbase + AlignOffset(tbase); p < segs[i].base
    ensures var p := tbase + AlignOffset(tbase);
            RecLast(segs[i := Segment(tbase, segs[i].size + tsize)], AddedChunk(g, p, s).tiles, g.recs, g.top)
  {
    hide SegsOk, AlignOffset, FreshRange;
    RecLastOf(segs, least, g);
    var p := tbase + AlignOffset(tbase);
    var segs' := segs[i := Segment(tbase, segs[i].size + tsize)];
    var c := AddedChunk(g, p, s).tiles;
    forall r | r in g.recs
      ensures r != p && forall j | 0 <= j < |segs| && segs'[j].base <= r < SegEnd(segs'[j]) :: segs[j].base <= r
    {
      RecHolder(segs, least, g, Segment(tbase, tsize), r);
    }
    forall r, q | r in g.recs && (q in c || q == g.top) && r < q ensures Parted(segs', r, q) {
      if q == p {
        RecHolder(segs, least, g, Segment(tbase, tsize), r);
        PartedBelow(segs, i, tbase, tsize, r, p);
      } else {
        assert Parted(segs, r, q);
      }
    }
    forall r | r in g.recs ensures NearEnd(segs', r, r + c[r].size) {
      assert NearEnd(segs, r, r + g.tiles[r].size);
    }
  }

  lemma PartedBelow(segs: seq<Segment>, i: nat, tbase: nat, tsize: nat, r: int, p: int)
    requires i < |segs| && FreshRange(segs, tbase, tbase + tsize) && r < tbase <= p
    ensures Parted(segs[i := Segment(tbase, segs[i].size + tsize)], r, p)
  {}

  lemma NewBottom(segs: seq<Segment>, least: int, i: nat, tbase: nat, tsize: nat)
    requires SegShape(segs, least) && i < |segs| && tbase + tsize == segs[i].base
    ensures Inside(segs[i := Segment(tbase, segs[i].size + tsize)], tbase + AlignOffset(tbase), First(segs[i]))
  {
    assert Holds(segs[i := Segment(tbase, segs[i].size + tsize)][i], tbase + AlignOffset(tbase), First(segs[i]));
  }

  lemma {:induction false} SumUpdated(segs: seq<Segment>, i: nat, s: Segment)
    requires i < |segs|
    ensures SumSizes(segs[i := s]) == SumSizes(segs) - segs[i].size + s.size
  {
    if i > 0 {
      assert segs[i := s][1..] == segs[1..][i - 1 := s];
      SumUpdated(segs[1..], i - 1, s);
    } else {
      assert segs[i := s][1..] == segs[1..];
    }
  }
}
