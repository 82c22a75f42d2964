/** The bits of a key, top bit first, and how they order keys. */
module Keys {
  import opened Words
  import opened TreeIndex

  type Path = seq<bool>

  /** (K >> 31) & 1 */
  predicate Top(k: nat) { k >= HALF32 }

  /** K <<= 1 */
  function Shl1(k: nat): (r: nat)
    requires k < TWO32
    ensures r < TWO32
  {
    Wrap(2 * k)
  }

  /** The first n bits of k. */
  function Bits(k: nat, n: nat): (p: Path)
    requires k < TWO32
    ensures |p| == n
    decreases n
  {
    if n == 0 then [] else [Top(k)] + Bits(Shl1(k), n - 1)
  }

  /** The whole path of a size: all 32 bits of its key. */
  function PathOf(s: nat): (p: Path)
    requires BinOf(s) < NTREEBINS
    ensures |p| == 32
  {
    Bits(Key(s), 32)
  }

  /** The first differing bit decides the order. */
  lemma {:induction false} BitsLess(x: nat, y: nat, n: nat, d: nat)
    requires x < TWO32 && y < TWO32 && d < n
    requires Bits(x, n)[..d] == Bits(y, n)[..d]
    requires !Bits(x, n)[d] && Bits(y, n)[d]
    ensures x < y
    decreases d
  {
    if d > 0 {
      var p, q := Bits(x, n), Bits(y, n);
      assert p[0] == p[..d][0] && q[0] == q[..d][0];
      assert p[1..][..d - 1] == p[..d][1..];
      assert q[1..][..d - 1] == q[..d][1..];
      BitsLess(Shl1(x), Shl1(y), n - 1, d - 1);
    }
  }

  lemma {:induction false} BitsClose(x: nat, y: nat, n: nat)
    requires x < TWO32 && y < TWO32 && n <= 32
    requires Bits(x, n) == Bits(y, n)
    ensures x - y < Pow2(32 - n) && y - x < Pow2(32 - n)
    decreases n
  {
    if n > 0 {
      assert Bits(x, n)[0] == Bits(y, n)[0];
      assert Bits(x, n)[1..] == Bits(y, n)[1..];
      BitsClose(Shl1(x), Shl1(y), n - 1);
    } else {
      Pow2Of32();
    }
  }

  /** A bin and a path determine the size. */
  lemma PathInjective(s: nat, t: nat)
    requires 256 <= s < TWO32 && 256 <= t < TWO32
    requires BinOf(s) == BinOf(t) < NTREEBINS
    requires PathOf(s) == PathOf(t)
    ensures s == t
  {
    BitsClose(Key(s), Key(t), 32);
    KeyOrder(s, t);
    KeyOrder(t, s);
  }

  /** In one bin, the size whose path goes left where the other's goes right is the smaller. */
  lemma PathOrder(s: nat, t: nat, d: nat)
    requires 256 <= s < TWO32 && 256 <= t < TWO32
    requires BinOf(s) == BinOf(t) < NTREEBINS
    requires d < 32 && PathOf(s)[..d] == PathOf(t)[..d]
    requires !PathOf(s)[d] && PathOf(t)[d]
    ensures s < t
  {
    BitsLess(Key(s), Key(t), 32, d);
    KeyOrder(s, t);
  }

  /** One step of the descent: the register's top bit is the next bit of the path. */
  lemma Descend(k: nat, n: nat)
    requires k < TWO32 && n > 0
    ensures Bits(k, n)[0] == Top(k)
    ensures Bits(k, n)[1..] == Bits(Shl1(k), n - 1)
  {}
}
