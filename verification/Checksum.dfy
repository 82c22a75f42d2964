/** kfs_checksum: Adler-32 with the two modulo operations left to the end. */
module Checksum {
  import opened Words

  type Byte = x: nat | x < 256

  const ADLER32_MOD := 65521

  // ----- the sums, unreduced

  function SumA(s: seq<Byte>): nat { if s == [] then 1 else SumA(s[..|s| - 1]) + s[|s| - 1] }

  function SumB(s: seq<Byte>): nat { if s == [] then 0 else SumB(s[..|s| - 1]) + SumA(s) }

  // ----- sections 2.2 and 8.2 of RFC 1950: both sums modulo 65521 after every byte

  function AdlerA(s: seq<Byte>): nat { if s == [] then 1 else (AdlerA(s[..|s| - 1]) + s[|s| - 1]) % ADLER32_MOD }

  function AdlerB(s: seq<Byte>): nat { if s == [] then 0 else (AdlerB(s[..|s| - 1]) + AdlerA(s)) % ADLER32_MOD }

  function Adler32(s: seq<Byte>): nat { AdlerB(s) * 65536 + AdlerA(s) }

  lemma {:induction false} AdlerSums(s: seq<Byte>)
    ensures AdlerA(s) == SumA(s) % ADLER32_MOD && AdlerB(s) == SumB(s) % ADLER32_MOD
  {
    if s != [] {
      AdlerSums(s[..|s| - 1]);
      ModAdd(SumA(s[..|s| - 1]), s[|s| - 1]);
      ModBoth(SumB(s[..|s| - 1]), SumA(s));
    }
  }

  lemma ModAdd(x: nat, y: nat)
    ensures (x % ADLER32_MOD + y) % ADLER32_MOD == (x + y) % ADLER32_MOD
  {
    var q := x / ADLER32_MOD;
    ModCut(x % ADLER32_MOD + y, q);
  }

  lemma ModCut(r: nat, q: nat)
    ensures (r + ADLER32_MOD * q) % ADLER32_MOD == r % ADLER32_MOD
  {}

  lemma ModBoth(x: nat, y: nat)
    ensures (x % ADLER32_MOD + y % ADLER32_MOD) % ADLER32_MOD == (x + y) % ADLER32_MOD
  {
    ModAdd(x, y % ADLER32_MOD);
    ModAdd(y, x);
  }

  /** What 32-bit sums reduced only at the end amount to. */
  function Delayed(s: seq<Byte>): nat { (Wrap(SumB(s)) % ADLER32_MOD) * 65536 + Wrap(SumA(s)) % ADLER32_MOD }

  lemma WrapAdd(x: nat, y: nat)
    ensures Wrap(Wrap(x) + y) == Wrap(x + y)
  {}

  /** kfs_checksum */
  method KfsChecksum(buf: seq<Byte>) returns (r: nat)
    ensures r == Delayed(buf)
  {
    var a, b := 1, 0;
    var i := 0;
    assert buf[..0] == [];
    while i < |buf|
      invariant 0 <= i <= |buf| && a == Wrap(SumA(buf[..i])) && b == Wrap(SumB(buf[..i]))
    {
      assert buf[..i + 1][..i] == buf[..i];
      WrapAdd(SumA(buf[..i]), buf[i]);
      WrapAdd(SumB(buf[..i]), SumA(buf[..i + 1]));
      a := Wrap(a + buf[i]);
      i := i + 1;
      b := Wrap(b + a);
      WrapBoth(SumB(buf[..i - 1]), SumA(buf[..i]));
    }
    assert buf[..i] == buf;
    return (b % ADLER32_MOD) * 65536 + a % ADLER32_MOD;
  }

  lemma WrapBoth(x: nat, y: nat)
    ensures Wrap(Wrap(x) + Wrap(y)) == Wrap(x + y)
  {
    WrapAdd(x, Wrap(y));
    WrapAdd(y, x);
  }

  // ----- up to which length the sums fit

  /** The sums of n bytes are largest when all are 255. */
  lemma {:induction false} SumsBound(s: seq<Byte>)
    ensures 1 <= SumA(s) <= 1 + 255 * |s|
    ensures 2 * SumB(s) <= 2 * |s| + 255 * (|s| * (|s| + 1))
  {
    if s != [] {
      var n := |s|;
      SumsBound(s[..n - 1]);
      assert n * (n + 1) == (n - 1) * n + 2 * n;
    }
  }

  const LONGEST := 5803

  lemma Growing(n: nat)
    requires n <= LONGEST
    ensures n * (n + 1) <= LONGEST * (LONGEST + 1)
  {
    MulUp(n, n + 1, LONGEST);
    MulUp(LONGEST + 1, n, LONGEST);
  }

  /** n * m is at most c * m when n is at most c. */
  lemma MulUp(n: nat, m: nat, c: nat)
    ensures n <= c ==> n * m <= c * m
    ensures m <= c ==> n * m <= n * c
  {}

  /** No sum overflows for any string of up to 5803 bytes, so the result is Adler-32. */
  lemma ShortStrings(s: seq<Byte>)
    requires |s| <= LONGEST
    ensures SumA(s) < TWO32 && SumB(s) < TWO32 && Delayed(s) == Adler32(s)
  {
    SumsBound(s);
    Growing(|s|);
    AdlerSums(s);
  }

  function Repeat(x: Byte, n: nat): (s: seq<Byte>)
    ensures |s| == n
  {
    seq(n, _ => x)
  }

  lemma {:induction false} ZeroSums(n: nat)
    ensures SumA(Repeat(0, n)) == 1 && SumB(Repeat(0, n)) == n
  {
    if n > 0 {
      ZeroSums(n - 1);
      assert Repeat(0, n)[..n - 1] == Repeat(0, n - 1);
    } else {
      assert Repeat(0, 0) == [];
    }
  }

  /** The sums of n zeros and k bytes of 255. */
  lemma {:induction false} FullSums(n: nat, k: nat)
    ensures var s := Repeat(0, n) + Repeat(255, k);
            SumA(s) == 1 + 255 * k && 2 * SumB(s) == 2 * (n + k) + 255 * (k * (k + 1))
  {
    var s := Repeat(0, n) + Repeat(255, k);
    if k == 0 {
      assert s == Repeat(0, n);
      ZeroSums(n);
    } else {
      FullSums(n, k - 1);
      assert s[..|s| - 1] == Repeat(0, n) + Repeat(255, k - 1);
      assert k * (k + 1) == (k - 1) * k + 2 * k;
    }
  }

  /** From 5804 bytes on some string of each length goes wrong. */
  lemma LongStrings(n: nat)
    requires LONGEST < n < TWO32
    ensures exists s: seq<Byte> :: |s| == n && Delayed(s) != Adler32(s)
  {
    var s := Repeat(0, n - (LONGEST + 1)) + Repeat(255, LONGEST + 1);
    FullSums(n - (LONGEST + 1), LONGEST + 1);
    assert 2 * SumB(s) == 2 * n + 255 * (5804 * 5805);
    AdlerSums(s);
    OneWrap(SumB(s));
    Differs(s);
    assert |s| == n && Delayed(s) != Adler32(s);
  }

  lemma Differs(s: seq<Byte>)
    requires Wrap(SumB(s)) % ADLER32_MOD != AdlerB(s) && AdlerA(s) < 65536 && SumB(s) % ADLER32_MOD == AdlerB(s)
    ensures Delayed(s) != Adler32(s)
  {
    hide SumA, SumB, AdlerA, AdlerB, Wrap;
  }

  /** 2^32 leaves 225 modulo 65521, so one or two wraps show. */
  lemma OneWrap(b: nat)
    requires TWO32 <= b < 3 * TWO32
    ensures Wrap(b) % ADLER32_MOD != b % ADLER32_MOD
  {
    var k := if b < 2 * TWO32 then 1 else 2;
    var w := b - k * TWO32;
    assert Wrap(b) == w by { WrapTwice(b, k); }
    assert b == w + k * 225 + ADLER32_MOD * (k * 65551);
    ModCut(w + k * 225, k * 65551);
    NotSame(w, k * 225);
  }

  lemma WrapTwice(b: nat, k: nat)
    requires k * TWO32 <= b < (k + 1) * TWO32
    ensures Wrap(b) == b - k * TWO32
  {}

  lemma NotSame(w: nat, d: nat)
    requires 0 < d < ADLER32_MOD
    ensures (w + d) % ADLER32_MOD != w % ADLER32_MOD
  {}

  /** The delayed reduction is exact for strings of a given length exactly when that length is at most 5803. */
  lemma DelayedExact(n: nat)
    requires n < TWO32
    ensures (forall s: seq<Byte> | |s| == n :: Delayed(s) == Adler32(s)) <==> n <= LONGEST
  {
    if n <= LONGEST {
      forall s: seq<Byte> | |s| == n ensures Delayed(s) == Adler32(s) { ShortStrings(s); }
    } else {
      LongStrings(n);
    }
  }
}
