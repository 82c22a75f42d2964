/** Which tree bin a chunk size belongs to, and the numeric key its bits are read from. */
module TreeIndex {
  import opened Words

  const NTREEBINS := 32

  /** The position of the leading one bit: 31 - clz. */
  function Log2(x: nat): (k: nat)
    requires x > 0
    ensures Pow2(k) <= x < 2 * Pow2(k)
  {
    if x == 1 then 0 else 1 + Log2(x / 2)
  }

  /** compute_tree_index */
  function BinOf(s: nat): nat {
    var x := s / 256;
    if x == 0 then 0
    else if x > 0xFFFF then NTREEBINS - 1
    else
      var k := Log2(x);
      2 * k + (s / Pow2(k + 7)) % 2
  }

  /** minsize_for_tree_index */
  function MinSize(i: nat): nat { Pow2(i / 2 + 8) + (i % 2) * Pow2(i / 2 + 7) }

  /** leftshift_for_tree_index */
  function LeftShift(i: nat): nat
    requires i < NTREEBINS
  {
    if i == NTREEBINS - 1 then 0 else 31 - (i / 2 + 6)
  }

  /** S << leftshift_for_tree_index: the word whose bits, from the top, steer the descent for size s. */
  function Key(s: nat): (k: nat)
    requires BinOf(s) < NTREEBINS
    ensures k < TWO32
  {
    Wrap(s * Pow2(LeftShift(BinOf(s))))
  }

  lemma Log2Bounds(x: nat, n: nat)
    requires 0 < x < Pow2(n)
    ensures Log2(x) < n
  {
    if Log2(x) > n {
      Pow2Mono(n, Log2(x));
    }
  }

  lemma LogOfMid(s: nat)
    requires 256 <= s < 0x100_0000
    ensures var k := Log2(s / 256); k < 16 && 2 * Pow2(k + 7) <= s < 4 * Pow2(k + 7)
  {
    hide Log2;
    var x := s / 256;
    assert 256 * x <= s < 256 * x + 256;
    var k := Log2(x);
    assert Pow2(16) == 0x10000 && Pow2(7) == 128;
    Log2Bounds(x, 16);
    Pow2Add(k, 7);
  }

  lemma BinOfMid(s: nat)
    requires 256 <= s < 0x100_0000
    ensures var k := Log2(s / 256); BinOf(s) == if s < 3 * Pow2(k + 7) then 2 * k else 2 * k + 1
  {
    hide Pow2, Log2;
    LogOfMid(s);
    Quotient(s, Pow2(Log2(s / 256) + 7));
  }

  lemma Quotient(s: nat, d: nat)
    requires 2 * d <= s < 4 * d
    ensures s / d == if s < 3 * d then 2 else 3
  {
    var q := s / d;
    assert s == q * d + s % d;
    assert q <= 1 ==> q * d <= d;
    assert q >= 4 ==> q * d >= 4 * d;
  }

  /** A bin's range starts at twice or three times its width. */
  lemma MinSizeAt(k: nat)
    ensures MinSize(2 * k) == 2 * Pow2(k + 7)
    ensures MinSize(2 * k + 1) == 3 * Pow2(k + 7)
    ensures MinSize(2 * k + 2) == 4 * Pow2(k + 7)
  {
    assert (2 * k) / 2 == k && (2 * k) % 2 == 0;
    assert (2 * k + 1) / 2 == k && (2 * k + 1) % 2 == 1;
    assert (2 * k + 2) / 2 == k + 1 && (2 * k + 2) % 2 == 0;
    assert Pow2(k + 8) == 2 * Pow2(k + 7);
    assert Pow2(k + 9) == 2 * Pow2(k + 8);
  }

  lemma BigBin()
    ensures MinSize(31) == 0xC0_0000
  {
    assert Pow2(16) == 0x10000 && Pow2(6) == 64;
    Pow2Add(16, 6);
    MinSizeAt(15);
  }

  lemma BinOfTop(s: nat)
    requires 0x100_0000 <= s < TWO32
    ensures BinOf(s) == NTREEBINS - 1
  {
    hide Pow2, Log2;
  }

  /** Every large size lies in its bin's range; the last bin is unbounded above. */
  lemma BinRange(s: nat)
    requires 256 <= s < TWO32
    ensures BinOf(s) < NTREEBINS
    ensures MinSize(BinOf(s)) <= s
    ensures BinOf(s) < NTREEBINS - 1 ==> s < MinSize(BinOf(s) + 1)
  {
    hide MinSize, BinOf, Pow2, Log2;
    if s < 0x100_0000 {
      LogOfMid(s);
      BinOfMid(s);
      MinSizeAt(Log2(s / 256));
    } else {
      BinOfTop(s);
      BigBin();
    }
  }

  lemma MinSizeStep(i: nat)
    ensures MinSize(i) < MinSize(i + 1)
  {
    hide MinSize, Pow2;
    assert i == 2 * (i / 2) || i == 2 * (i / 2) + 1;
    MinSizeAt(i / 2);
  }

  lemma {:induction false} MinSizeMono(i: nat, j: nat)
    requires i <= j
    ensures MinSize(i) <= MinSize(j)
  {
    if i < j {
      MinSizeMono(i, j - 1);
      MinSizeStep(j - 1);
    }
  }

  /** Bins partition the sizes in order. */
  lemma BinMonotone(s: nat, t: nat)
    requires 256 <= s <= t < TWO32
    ensures BinOf(s) <= BinOf(t)
  {
    BinRange(s);
    BinRange(t);
    if BinOf(t) < BinOf(s) {
      MinSizeMono(BinOf(t) + 1, BinOf(s));
    }
  }

  /** The smallest size whose key is zero. */
  function BinBase(i: nat): nat { if i == NTREEBINS - 1 then 0 else MinSize(i) }

  lemma RangeScale(k: nat, b: nat)
    requires b <= 1 && 2 * k + b < NTREEBINS - 1
    ensures Pow2(k + 7) * Pow2(LeftShift(2 * k + b)) == TWO32
    ensures MinSize(2 * k + b) == (2 + b) * Pow2(k + 7)
    ensures MinSize(2 * k + b + 1) == MinSize(2 * k + b) + Pow2(k + 7)
  {
    hide Pow2, MinSize;
    assert (2 * k + b) / 2 == k;
    Pow2Add(k + 7, 25 - k);
    Pow2Of32();
    MinSizeAt(k);
  }

  lemma Pow2Of32()
    ensures Pow2(32) == TWO32
  {
    assert Pow2(8) == 256;
    Pow2Add(8, 8);
    Pow2Add(16, 8);
    Pow2Add(24, 8);
  }

  /** Shifting out the bits the bin fixes leaves the distance from the bin's base, scaled. */
  lemma KeyScale(s: nat)
    requires 256 <= s < TWO32
    ensures var i := BinOf(s); i < NTREEBINS && s >= BinBase(i) && Key(s) == (s - BinBase(i)) * Pow2(LeftShift(i))
  {
    BinRange(s);
    var i := BinOf(s);
    if i < NTREEBINS - 1 {
      hide Pow2, MinSize, BinOf;
      RangeScale(i / 2, i % 2);
      ScaleKey(s, MinSize(i), Pow2(i / 2 + 7), Pow2(LeftShift(i)), 2 + i % 2);
    } else {
      assert Pow2(0) == 1;
    }
  }

  lemma ScaleKey(s: nat, m: nat, d: nat, p: nat, c: nat)
    requires m == c * d && d * p == TWO32 && m <= s < m + d && p > 0
    ensures Wrap(s * p) == (s - m) * p
  {
    MulAssoc(c, d, p);
    MulSplit(s, m, p);
    MulLess(s - m, d, p);
    ModCut((s - m) * p, c);
  }

  lemma MulAssoc(c: nat, d: nat, p: nat)
    ensures c * d * p == c * (d * p)
  {}

  lemma MulSplit(s: nat, m: nat, p: nat)
    ensures s * p == (s - m) * p + m * p
  {}

  lemma MulLess(a: nat, b: nat, p: nat)
    requires a < b && p > 0
    ensures a * p < b * p
  {}

  lemma ModCut(r: nat, c: nat)
    requires r < TWO32
    ensures (r + c * TWO32) % TWO32 == r
  {}

  /** Within one bin, keys are ordered exactly as sizes are. */
  lemma KeyOrder(s: nat, t: nat)
    requires 256 <= s < TWO32 && 256 <= t < TWO32
    requires BinOf(s) == BinOf(t)
    ensures BinOf(s) < NTREEBINS
    ensures s < t <==> Key(s) < Key(t)
  {
    KeyScale(s);
    KeyScale(t);
    var i := BinOf(s);
    var b, p := BinBase(i), Pow2(LeftShift(i));
    if s < t { MulLess(s - b, t - b, p); }
    if t < s { MulLess(t - b, s - b, p); }
  }
}
