/** draw_line and draw_pixel of libs/libk/graphic.c. */
module Line {
  const GRAPHIC_WIDTH := 320
  const GRAPHIC_HEIGHT := 200

  /** Where pixel (x, y) is in the off-screen buffer. */
  function PixelAt(x: int, y: int): int { y * GRAPHIC_WIDTH + x }

  predicate OnScreen(x: int, y: int) { 0 <= x < GRAPHIC_WIDTH && 0 <= y < GRAPHIC_HEIGHT }

  lemma PixelInside(x: int, y: int)
    requires OnScreen(x, y)
    ensures 0 <= PixelAt(x, y) < GRAPHIC_WIDTH * GRAPHIC_HEIGHT
  {}

  /** Row by row, from the upper left corner on. */
  lemma PixelOrder(x: int, y: int)
    ensures PixelAt(0, 0) == 0 && PixelAt(x + 1, y) == PixelAt(x, y) + 1
    ensures PixelAt(0, y + 1) == PixelAt(GRAPHIC_WIDTH - 1, y) + 1
  {}

  lemma PixelDistinct(x: int, y: int, x': int, y': int)
    requires OnScreen(x, y) && OnScreen(x', y') && PixelAt(x, y) == PixelAt(x', y')
    ensures x == x' && y == y'
  {}

  /** draw_pixel: off the screen nothing happens. */
  method DrawPixel(buf: array<int>, x: nat, y: nat, color: int)
    requires buf.Length == GRAPHIC_WIDTH * GRAPHIC_HEIGHT
    modifies buf
    ensures buf[..] == if OnScreen(x, y) then old(buf[..])[PixelAt(x, y) := color] else old(buf[..])
  {
    if x >= GRAPHIC_WIDTH {
      return;
    }
    if y >= GRAPHIC_HEIGHT {
      return;
    }
    PixelInside(x, y);
    buf[y * GRAPHIC_WIDTH + x] := color;
  }

  // ----- what is to be drawn

  /** Points of the screen, as pairs. */
  type Points = seq<(int, int)>

  /** The points in colour, everything else as it was. */
  ghost predicate Drawn(s: seq<int>, s': seq<int>, ps: Points, color: int) {
    && |s'| == |s| == GRAPHIC_WIDTH * GRAPHIC_HEIGHT
    && (forall k | 0 <= k < |ps| :: OnScreen(ps[k].0, ps[k].1) && s'[PixelAt(ps[k].0, ps[k].1)] == color)
    && (forall i | 0 <= i < |s| && s'[i] != s[i] :: exists k :: 0 <= k < |ps| && PixelAt(ps[k].0, ps[k].1) == i)
  }

  lemma DrawnNext(s: seq<int>, s1: seq<int>, s2: seq<int>, ps: Points, x: int, y: int, color: int)
    requires Drawn(s, s1, ps, color) && OnScreen(x, y) && 0 <= PixelAt(x, y) < |s1| && s2 == s1[PixelAt(x, y) := color]
    ensures Drawn(s, s2, ps + [(x, y)], color)
  {
    var qs := ps + [(x, y)];
    forall i | 0 <= i < |s| && s2[i] != s[i] ensures exists k :: 0 <= k < |qs| && PixelAt(qs[k].0, qs[k].1) == i {
      if i == PixelAt(x, y) {
        assert qs[|ps|] == (x, y);
      } else {
        var k :| 0 <= k < |ps| && PixelAt(ps[k].0, ps[k].1) == i;
        assert qs[k] == ps[k];
      }
    }
    forall k | 0 <= k < |qs| ensures s2[PixelAt(qs[k].0, qs[k].1)] == color {
      if k < |ps| { PixelInside(ps[k].0, ps[k].1); }
    }
  }

  /** Of the pixels of the screen exactly the points in ps may have changed, and those have the colour. */
  lemma DrawnExactly(s: seq<int>, s': seq<int>, ps: Points, color: int, x: int, y: int)
    requires Drawn(s, s', ps, color) && OnScreen(x, y)
    ensures 0 <= PixelAt(x, y) < |s| && s'[PixelAt(x, y)] == if (x, y) in ps then color else s[PixelAt(x, y)]
  {
    PixelInside(x, y);
    if (x, y) in ps {
      var k :| 0 <= k < |ps| && ps[k] == (x, y);
    } else if s'[PixelAt(x, y)] != s[PixelAt(x, y)] {
      var k :| 0 <= k < |ps| && PixelAt(ps[k].0, ps[k].1) == PixelAt(x, y);
      PixelDistinct(ps[k].0, ps[k].1, x, y);
    }
  }

  // ----- the ideal line

  /** After k steps along the major axis the minor coordinate has advanced n: the error term is in (-dx, 0]. */
  predicate Advance(k: int, n: int, dx: int, dy: int) { -dx < k * dy - n * dx - dx / 2 <= 0 }

  /** No other advance is nearer to the line, and one that is as near is greater. */
  predicate Closest(k: int, n: int, dx: int, dy: int) { -dx < 2 * (k * dy - n * dx) <= dx }

  /** That is the nearest the minor coordinate can come to the line; of two that are equally near it is the lesser. */
  lemma Nearest(k: int, n: int, dx: int, dy: int)
    requires dx > 0 && Advance(k, n, dx, dy)
    ensures Closest(k, n, dx, dy)
  {}

  /** The error term determines the advance. */
  lemma AdvanceUnique(k: int, n: int, n': int, dx: int, dy: int)
    requires dx > 0 && Advance(k, n, dx, dy) && Advance(k, n', dx, dy)
    ensures n == n'
  {
    if n < n' { Multiples(n' - n, dx); }
    if n' < n { Multiples(n - n', dx); }
    Difference(n, n', dx);
  }

  lemma Multiples(a: int, dx: int)
    requires a >= 1 && dx > 0
    ensures a * dx >= dx
  {}

  lemma Difference(n: int, n': int, dx: int)
    ensures n * dx - n' * dx == (n - n') * dx && (n' - n) * dx == -((n - n') * dx)
  {}

  /** At the far end the advance is complete. */
  lemma AdvanceEnd(n: int, dx: int, dy: int)
    requires dx > 0 && Advance(dx, n, dx, dy)
    ensures n == dy
  {
    Difference(dy, n, dx);
    Swap(dx, dy);
    Nearest(dx, n, dx, dy);
    if n < dy { Multiples(dy - n, dx); }
    if dy < n { Multiples(n - dy, dx); }
  }

  lemma Swap(a: int, b: int)
    ensures a * b == b * a
  {}

  /** On the way it stays between none and all. */
  lemma AdvanceBetween(k: int, n: int, dx: int, dy: int)
    requires 0 <= k <= dx && dx > 0 && 0 <= dy && Advance(k, n, dx, dy)
    ensures 0 <= n <= dy
  {
    Scale(k, dx, dy);
    if n < 0 { Multiples(-n, dx); Difference(0, n, dx); }
    if n > dy { Multiples(n - dy, dx); Difference(n, dy, dx); Swap(dx, dy); }
  }

  lemma Scale(k: int, dx: int, dy: int)
    requires 0 <= k <= dx && 0 <= dy
    ensures 0 <= k * dy <= dx * dy
  {}

  /** The advance in closed form. */
  function Minor(k: int, dx: int, dy: int): int
    requires dx > 0
  {
    (k * dy - dx / 2 + dx - 1) / dx
  }

  lemma MinorAdvances(k: int, dx: int, dy: int)
    requires dx > 0
    ensures Advance(k, Minor(k, dx, dy), dx, dy)
  {
    var t := k * dy - dx / 2 + dx - 1;
    assert t == (t / dx) * dx + t % dx;
  }

  // ----- the points of a line

  function Abs(x: int): nat { if x < 0 then -x else x }

  /** A line in the octants where the major axis is x, left to right, without its last point. */
  function Shallow(x1: int, y1: int, x2: int, y2: int): (ps: Points)
    requires x1 < x2
    ensures |ps| == x2 - x1
  {
    seq(x2 - x1, k requires 0 <= k =>
      (x1 + k, if y1 < y2 then y1 + Minor(k, x2 - x1, Abs(y2 - y1)) else y1 - Minor(k, x2 - x1, Abs(y2 - y1))))
  }

  function Mirrored(ps: Points): (qs: Points)
    ensures |qs| == |ps| && forall k | 0 <= k < |ps| :: qs[k] == (ps[k].1, ps[k].0)
  {
    seq(|ps|, k requires 0 <= k < |ps| => (ps[k].1, ps[k].0))
  }

  function Ordered(x1: int, y1: int, x2: int, y2: int): Points
    requires x1 != x2
  {
    if x1 > x2 then Shallow(x2, y2, x1, y1) else Shallow(x1, y1, x2, y2)
  }

  function Column(x: int, y1: int, y2: int): (ps: Points)
    ensures |ps| == if y1 < y2 then y2 - y1 else 0
  {
    seq(if y1 < y2 then y2 - y1 else 0, k requires 0 <= k => (x, y1 + k))
  }

  /** What draw_line plots; lines along an axis only from the smaller end. */
  function LinePoints(x1: int, y1: int, x2: int, y2: int): Points {
    if x1 == x2 then Column(x1, y1, y2)
    else if y1 == y2 then Mirrored(Column(y1, x1, x2))
    else if Abs(y2 - y1) > Abs(x2 - x1) then Mirrored(Ordered(y1, x1, y2, x2))
    else Ordered(x1, y1, x2, y2)
  }

  /** The two directions plot the same points exactly off the axes, or when there is nothing to plot. */
  lemma Directions(x1: int, y1: int, x2: int, y2: int)
    ensures LinePoints(x2, y2, x1, y1) == LinePoints(x1, y1, x2, y2)
            <==> (x1 != x2 && y1 != y2) || (x1 == x2 && y1 == y2)
    ensures LinePoints(x1, y1, x2, y2) == [] <==> (x1 == x2 && y1 >= y2) || (y1 == y2 && x1 >= x2)
  {
    assert Abs(y1 - y2) == Abs(y2 - y1) && Abs(x1 - x2) == Abs(x2 - x1);
    LineLength(x1, y1, x2, y2);
    LineLength(x2, y2, x1, y1);
  }

  lemma LineLength(x1: int, y1: int, x2: int, y2: int)
    ensures |LinePoints(x1, y1, x2, y2)| ==
              if x1 == x2 then (if y1 < y2 then y2 - y1 else 0)
              else if y1 == y2 then (if x1 < x2 then x2 - x1 else 0)
              else if Abs(y2 - y1) > Abs(x2 - x1) then Abs(y2 - y1) else Abs(x2 - x1)
  {}

  /** Each point of a shallow line is the nearest to the ideal line in its column, and between the ends. */
  lemma ShallowNearest(x1: int, y1: int, x2: int, y2: int, k: int)
    requires x1 < x2 && Abs(y2 - y1) <= x2 - x1 && 0 <= k < x2 - x1
    ensures var p := Shallow(x1, y1, x2, y2)[k];
            && p.0 == x1 + k && 2 * Abs((p.1 - y1) * (x2 - x1) - k * (y2 - y1)) <= x2 - x1
            && (if y1 < y2 then y1 <= p.1 <= y2 else y2 <= p.1 <= y1)
            && Closest(k, Abs(p.1 - y1), x2 - x1, Abs(y2 - y1))
  {
    var dx, dy := x2 - x1, Abs(y2 - y1);
    var n := Minor(k, dx, dy);
    MinorAdvances(k, dx, dy);
    Nearest(k, n, dx, dy);
    AdvanceBetween(k, n, dx, dy);
    Signs(k, dy, n, dx);
  }

  lemma Signs(k: int, dy: int, n: int, dx: int)
    ensures k * -dy == -(k * dy) && -n * dx == -(n * dx)
  {}

  // ----- the points lie on the line between its ends

  function Max(a: int, b: int): int { if a < b then b else a }

  function Min(a: int, b: int): int { if a < b then a else b }

  predicate Between(a: int, b: int, c: int) { Min(a, c) <= b <= Max(a, c) }

  /** Twice the area between the line from (x1, y1) to (x2, y2) and p: the distance of p from the line, scaled. */
  function Cross(x1: int, y1: int, x2: int, y2: int, p: (int, int)): int {
    (p.1 - y1) * (x2 - x1) - (p.0 - x1) * (y2 - y1)
  }

  /** Seen from the other end it is the same, with its sign changed. */
  lemma CrossBack(x1: int, y1: int, x2: int, y2: int, p: (int, int))
    ensures Cross(x2, y2, x1, y1, p) == -Cross(x1, y1, x2, y2, p)
  {
    var dx, dy := x2 - x1, y2 - y1;
    assert p.1 - y1 == (p.1 - y2) + dy && p.0 - x1 == (p.0 - x2) + dx;
    CrossShift(p.1 - y2, p.0 - x2, dx, dy);
  }

  lemma CrossShift(a: int, b: int, dx: int, dy: int)
    ensures (a + dy) * dx - (b + dx) * dy == a * dx - b * dy && a * -dx - b * -dy == -(a * dx - b * dy)
  {
    assert (a + dy) * dx == a * dx + dy * dx;
    assert (b + dx) * dy == b * dy + dx * dy;
    Swap(dx, dy);
    Signs(a, dx, b, dy);
    assert a * -dx == -(a * dx) && b * -dy == -(b * dy);
  }

  lemma CrossMirror(x1: int, y1: int, x2: int, y2: int, p: (int, int))
    ensures Cross(y1, x1, y2, x2, (p.1, p.0)) == -Cross(x1, y1, x2, y2, p)
  {}

  /** The same for either order of the ends. */
  lemma OrderedNearest(x1: int, y1: int, x2: int, y2: int, k: int)
    requires x1 != x2 && Abs(y2 - y1) <= Abs(x2 - x1) && 0 <= k < Abs(x2 - x1)
    ensures |Ordered(x1, y1, x2, y2)| == Abs(x2 - x1)
    ensures var p, near, dx, dy := Ordered(x1, y1, x2, y2)[k], if x1 < x2 then y1 else y2, Abs(x2 - x1), Abs(y2 - y1);
            && 2 * Abs(Cross(x1, y1, x2, y2, p)) <= dx && p.0 == Min(x1, x2) + k && Between(y1, p.1, y2)
            && Closest(k, Abs(p.1 - near), dx, dy)
  {
    hide Closest;
    if x1 > x2 {
      ShallowNearest(x2, y2, x1, y1, k);
      CrossBack(x1, y1, x2, y2, Ordered(x1, y1, x2, y2)[k]);
    } else {
      ShallowNearest(x1, y1, x2, y2, k);
    }
  }

  /** Every point of a line off the axes lies within half a pixel of it, in the box of its ends; the major coordinate
      runs one by one from its smaller end, and of two pixels equally near the one with the minor coordinate closer to
      that end's is taken. */
  lemma LineNearest(x1: int, y1: int, x2: int, y2: int, k: int)
    requires x1 != x2 && y1 != y2 && 0 <= k < |LinePoints(x1, y1, x2, y2)|
    ensures var p, dx, dy := LinePoints(x1, y1, x2, y2)[k], Abs(x2 - x1), Abs(y2 - y1);
            && 2 * Abs(Cross(x1, y1, x2, y2, p)) <= Max(dx, dy) && Between(x1, p.0, x2) && Between(y1, p.1, y2)
            && |LinePoints(x1, y1, x2, y2)| == Max(dx, dy)
            && if dy > dx then
                 && p.1 == Min(y1, y2) + k
                 && Closest(k, Abs(p.0 - if y1 < y2 then x1 else x2), dy, dx)
               else
                 && p.0 == Min(x1, x2) + k
                 && Closest(k, Abs(p.1 - if x1 < x2 then y1 else y2), dx, dy)
  {
    hide Shallow, Cross, Closest;
    LineLength(x1, y1, x2, y2);
    if Abs(y2 - y1) > Abs(x2 - x1) {
      OrderedNearest(y1, x1, y2, x2, k);
      CrossMirror(x1, y1, x2, y2, LinePoints(x1, y1, x2, y2)[k]);
    } else {
      OrderedNearest(x1, y1, x2, y2, k);
    }
  }

  /** Along an axis the points run one by one from the first end up to the second, and there are none the other way. */
  lemma AxisPoints(x1: int, y1: int, x2: int, y2: int, x: int, y: int)
    requires x1 == x2 || y1 == y2
    ensures (x, y) in LinePoints(x1, y1, x2, y2)
            <==> if x1 == x2 then x == x1 && y1 <= y < y2 else y == y1 && x1 <= x < x2
  {
    var ps := LinePoints(x1, y1, x2, y2);
    if x1 == x2 && x == x1 && y1 <= y < y2 { assert ps[y - y1] == (x, y); }
    if x1 != x2 && y == y1 && x1 <= x < x2 { assert ps[x - x1] == (x, y); }
  }

  /** After the last column the minor coordinate would be exactly y2. */
  lemma ShallowEnds(x1: int, y1: int, x2: int, y2: int)
    requires x1 < x2
    ensures Minor(x2 - x1, x2 - x1, Abs(y2 - y1)) == Abs(y2 - y1)
  {
    MinorAdvances(x2 - x1, x2 - x1, Abs(y2 - y1));
    AdvanceEnd(Minor(x2 - x1, x2 - x1, Abs(y2 - y1)), x2 - x1, Abs(y2 - y1));
  }

  // ----- draw_line

  lemma NothingDrawn(s: seq<int>, color: int)
    requires |s| == GRAPHIC_WIDTH * GRAPHIC_HEIGHT
    ensures Drawn(s, s, [], color)
  {}

  /** The loop of the case off the axes, after the swaps. */
  method DrawShallow(buf: array<int>, x1: nat, y1: nat, x2: nat, y2: nat, steep: bool, color: int) returns (yEnd: int)
    requires buf.Length == GRAPHIC_WIDTH * GRAPHIC_HEIGHT && x1 < x2 && y1 != y2 && Abs(y2 - y1) <= x2 - x1
    requires if steep then OnScreen(y1, x1) && OnScreen(y2, x2) else OnScreen(x1, y1) && OnScreen(x2, y2)
    modifies buf
    ensures var ps := Shallow(x1, y1, x2, y2); Drawn(old(buf[..]), buf[..], if steep then Mirrored(ps) else ps, color)
    ensures yEnd == y2
  {
    hide Drawn, Minor, Advance;
    var deltax := x2 - x1;
    var deltay := Abs(y2 - y1);
    var error := -(deltax / 2);
    var y: int := y1;
    var ystep := if y1 < y2 then 1 else -1;
    ghost var ps, n := Shallow(x1, y1, x2, y2), 0;
    ghost var qs := if steep then Mirrored(ps) else ps;
    NothingDrawn(buf[..], color);
    AtStart(deltax, deltay);
    var x := x1;
    while x < x2
      invariant x1 <= x <= x2 && Advance(x - x1, n, deltax, deltay) && y == y1 + ystep * n
      invariant error == (x - x1) * deltay - n * deltax - deltax / 2
      invariant Drawn(old(buf[..]), buf[..], qs[..x - x1], color)
    {
      ghost var k := x - x1;
      PointHere(x1, y1, x2, y2, k, n);
      assert ps[k] == (x, y);
      ghost var s := buf[..];
      if steep {
        PixelInside(y, x);
        DrawPixel(buf, y, x, color);
        DrawnNext(old(buf[..]), s, buf[..], qs[..k], y, x, color);
      } else {
        PixelInside(x, y);
        DrawPixel(buf, x, y, color);
        DrawnNext(old(buf[..]), s, buf[..], qs[..k], x, y, color);
      }
      assert qs[..k + 1] == qs[..k] + [qs[k]];
      StepError(k, n, deltax, deltay);
      error := error + deltay;
      if error > 0 {
        y := y + ystep;
        error := error - deltax;
        n := n + 1;
      }
      x := x + 1;
    }
    AdvanceEnd(n, deltax, deltay);
    assert qs[..x2 - x1] == qs;
    yEnd := y;
  }

  lemma AtStart(dx: int, dy: int)
    requires dx > 0
    ensures Advance(0, 0, dx, dy) && 0 * dy == 0 && 0 * dx == 0
  {}

  /** One step of the error term keeps it in range. */
  lemma StepError(k: int, n: int, dx: int, dy: int)
    requires Advance(k, n, dx, dy) && 0 <= dy <= dx
    ensures var e := k * dy - n * dx - dx / 2 + dy;
            && e == (k + 1) * dy - n * dx - dx / 2
            && (e > 0 ==> e - dx == (k + 1) * dy - (n + 1) * dx - dx / 2 && Advance(k + 1, n + 1, dx, dy))
            && (e <= 0 ==> Advance(k + 1, n, dx, dy))
  {
    assert (k + 1) * dy == k * dy + dy && (n + 1) * dx == n * dx + dx;
  }

  lemma PointHere(x1: int, y1: int, x2: int, y2: int, k: int, n: int)
    requires x1 < x2 && 0 <= k < x2 - x1 && Advance(k, n, x2 - x1, Abs(y2 - y1))
    ensures n == Minor(k, x2 - x1, Abs(y2 - y1)) && 0 <= n <= Abs(y2 - y1)
    ensures Shallow(x1, y1, x2, y2)[k] == (x1 + k, if y1 < y2 then y1 + n else y1 - n)
  {
    MinorAdvances(k, x2 - x1, Abs(y2 - y1));
    AdvanceUnique(k, n, Minor(k, x2 - x1, Abs(y2 - y1)), x2 - x1, Abs(y2 - y1));
    AdvanceBetween(k, n, x2 - x1, Abs(y2 - y1));
  }

  /** draw_line: exactly the points of the line change, and none if an end is off the screen. */
  method DrawLine(buf: array<int>, x1: nat, y1: nat, x2: nat, y2: nat, color: int)
    requires buf.Length == GRAPHIC_WIDTH * GRAPHIC_HEIGHT
    modifies buf
    ensures if OnScreen(x1, y1) && OnScreen(x2, y2) then Drawn(old(buf[..]), buf[..], LinePoints(x1, y1, x2, y2), color)
            else buf[..] == old(buf[..])
  {
    hide Drawn, Shallow;
    if x1 >= GRAPHIC_WIDTH || y1 >= GRAPHIC_HEIGHT || x2 >= GRAPHIC_WIDTH || y2 >= GRAPHIC_HEIGHT {
      return;
    }
    if x1 == x2 {
      DrawColumn(buf, x1, y1, y2, color);
    } else if y1 == y2 {
      DrawRow(buf, x1, x2, y1, color);
    } else {
      var a1, b1, a2, b2 := x1, y1, x2, y2;
      var steep := Abs(y2 - y1) > Abs(x2 - x1);
      if steep {
        a1, b1, a2, b2 := y1, x1, y2, x2;
      }
      if a1 > a2 {
        a1, a2 := a2, a1;
        b1, b2 := b2, b1;
      }
      var yEnd := DrawShallow(buf, a1, b1, a2, b2, steep, color);
    }
  }

  method DrawColumn(buf: array<int>, x: nat, y1: nat, y2: nat, color: int)
    requires buf.Length == GRAPHIC_WIDTH * GRAPHIC_HEIGHT && OnScreen(x, y1) && OnScreen(x, y2)
    modifies buf
    ensures Drawn(old(buf[..]), buf[..], Column(x, y1, y2), color)
  {
    hide Drawn;
    NothingDrawn(buf[..], color);
    ghost var ps := Column(x, y1, y2);
    var i := y1;
    while i < y2
      invariant y1 <= i && (i <= y2 || i == y1) && Drawn(old(buf[..]), buf[..], ps[..i - y1], color)
    {
      ghost var s := buf[..];
      PixelInside(x, i);
      DrawPixel(buf, x, i, color);
      DrawnNext(old(buf[..]), s, buf[..], ps[..i - y1], x, i, color);
      assert ps[..i - y1 + 1] == ps[..i - y1] + [ps[i - y1]];
      i := i + 1;
    }
    assert ps[..i - y1] == ps;
  }

  method DrawRow(buf: array<int>, x1: nat, x2: nat, y: nat, color: int)
    requires buf.Length == GRAPHIC_WIDTH * GRAPHIC_HEIGHT && OnScreen(x1, y) && OnScreen(x2, y)
    modifies buf
    ensures Drawn(old(buf[..]), buf[..], Mirrored(Column(y, x1, x2)), color)
  {
    hide Drawn;
    NothingDrawn(buf[..], color);
    ghost var ps := Mirrored(Column(y, x1, x2));
    var i := x1;
    while i < x2
      invariant x1 <= i && (i <= x2 || i == x1) && Drawn(old(buf[..]), buf[..], ps[..i - x1], color)
    {
      ghost var s := buf[..];
      PixelInside(i, y);
      DrawPixel(buf, i, y, color);
      DrawnNext(old(buf[..]), s, buf[..], ps[..i - x1], i, y, color);
      assert ps[..i - x1 + 1] == ps[..i - x1] + [ps[i - x1]];
      i := i + 1;
    }
    assert ps[..i - x1] == ps;
  }
}
