/**
 The 32-bit occupancy maps of the bins, as words of bits (least significant first), and the
 bit tricks that search them.
 */
module BitMaps {
  const WORD := 32

  type Word = w: seq<bool> | |w| == WORD witness seq(WORD, _ => false)

  const ZERO: Word := seq(WORD, _ => false)

  function Or(a: Word, b: Word): Word { seq(WORD, i requires 0 <= i < WORD => a[i] || b[i]) }

  function And(a: Word, b: Word): Word { seq(WORD, i requires 0 <= i < WORD => a[i] && b[i]) }

  function Not(a: Word): Word { seq(WORD, i requires 0 <= i < WORD => !a[i]) }

  function Shl(a: Word, n: nat): Word { seq(WORD, i requires 0 <= i < WORD => i >= n && a[i - n]) }

  function Shr(a: Word, n: nat): Word { seq(WORD, i requires 0 <= i < WORD => i + n < WORD && a[i + n]) }

  /** Ripple-carry increment; the carry out of the top bit is lost. */
  function Inc(a: seq<bool>): (r: seq<bool>)
    ensures |r| == |a|
  {
    if a == [] then [] else if a[0] then [false] + Inc(a[1..]) else [true] + a[1..]
  }

  /** Two's complement negation. */
  function Neg(a: Word): Word { Inc(Not(a)) }

  /** idx2bit */
  function Bit(i: nat): Word { seq(WORD, j => j == i) }

  /** The two low bits, the constant 0x3. */
  const THREE: Word := seq(WORD, j => j < 2)

  /** left_bits */
  function LeftBits(x: Word): Word { Or(Shl(x, 1), Neg(Shl(x, 1))) }

  /** least_bit */
  function LeastBit(x: Word): Word { And(x, Neg(x)) }

  /** compute_bit2idx: the number of trailing zero bits. */
  function Ctz(x: seq<bool>): (r: nat)
    ensures r <= |x|
    ensures r < |x| ==> x[r]
    ensures forall j | 0 <= j < r :: !x[j]
  {
    if x == [] || x[0] then 0 else 1 + Ctz(x[1..])
  }

  /** Incrementing the complement: zero below the least set bit, one at it, inverted above it. */
  lemma {:induction false} IncComplement(x: seq<bool>, n: seq<bool>)
    requires |n| == |x| && forall i | 0 <= i < |x| :: n[i] == !x[i]
    ensures forall i | 0 <= i < |x| :: Inc(n)[i] == if i <= Ctz(x) then i == Ctz(x) else !x[i]
  {
    if x != [] && !x[0] {
      IncComplement(x[1..], n[1..]);
    }
  }

  lemma NegBits(x: Word)
    ensures forall i | 0 <= i < WORD :: Neg(x)[i] == if i <= Ctz(x) then i == Ctz(x) else !x[i]
  {
    IncComplement(x, Not(x));
  }

  /** Isolating the least bit of a non-zero map and taking its index finds the least marked bin. */
  lemma LeastMarked(m: Word)
    requires m != ZERO
    ensures var i := Ctz(LeastBit(m)); i < WORD && m[i] && forall j | 0 <= j < i :: !m[j]
  {
    NegBits(m);
    assert LeastBit(m)[Ctz(m)];
  }

  lemma LeftBitsOfBit(i: nat)
    requires i < WORD
    ensures forall j | 0 <= j < WORD :: LeftBits(Bit(i))[j] == (j > i)
  {
    var x := Shl(Bit(i), 1);
    NegBits(x);
    if i + 1 < WORD {
      assert x[i + 1];
    }
  }

  /** (smallmap >> idx) & 3 asks for bin idx or bin idx + 1; ~smallbits & 1 picks between them. */
  lemma ProbeTwo(m: Word, i: nat)
    requires i < WORD
    ensures (And(Shr(m, i), THREE) != ZERO) == (m[i] || (i + 1 < WORD && m[i + 1]))
    ensures Not(Shr(m, i))[0] == !m[i]
  {
    var a := And(Shr(m, i), THREE);
    assert a[0] == m[i] && a[1] == (i + 1 < WORD && m[i + 1]);
    if !a[0] && !a[1] {
      assert a == ZERO;
    }
  }

  /** The bins strictly left of idx survive the mask, and only those. */
  lemma MaskLeft(m: Word, i: nat)
    requires i < WORD
    ensures forall j | 0 <= j < WORD :: And(LeftBits(Bit(i)), m)[j] == (m[j] && j > i)
    ensures forall j | 0 <= j < WORD :: And(Shl(Shr(m, i), i), LeftBits(Bit(i)))[j] == (m[j] && j > i)
    ensures Shr(m, i) == ZERO <==> forall j | i <= j < WORD :: !m[j]
  {
    LeftBitsOfBit(i);
    if Shr(m, i) == ZERO {
      forall j | i <= j < WORD ensures !m[j] { assert !Shr(m, i)[j - i]; }
    }
  }
}
