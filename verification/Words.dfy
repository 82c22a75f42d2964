/** 32-bit size_t arithmetic and the size constants of the built configuration. */
module Words {
  const TWO32 := 0x1_0000_0000
  const HALF32 := 0x8000_0000
  const MAX_SIZE_T := 0xFFFF_FFFF

  const CHUNK_OVERHEAD := 4
  const MIN_CHUNK_SIZE := 16
  const MALLOC_ALIGNMENT := 8
  const MIN_REQUEST := 11
  const MAX_REQUEST := 0xFFFF_FFC0
  const MAX_SMALL_REQUEST := 244
  const MIN_LARGE_SIZE := 256
  const TOP_FOOT_SIZE := 40
  const PAGE_SIZE := 4096

  /** The value an unsigned 32-bit register holds. */
  function Wrap(x: int): (r: nat)
    ensures r < TWO32
    ensures 0 <= x < TWO32 ==> r == x
    ensures -TWO32 <= x < 0 ==> r == x + TWO32
    ensures TWO32 <= x < 2 * TWO32 ==> r == x - TWO32
  {
    x % TWO32
  }

  /** Unsigned subtraction. */
  function Sub32(a: nat, b: nat): (r: nat)
    requires a < TWO32 && b < TWO32
    ensures r == if a >= b then a - b else a + TWO32 - b
  {
    Wrap(a as int - b as int)
  }

  /** x & ~7 */
  function AlignDown(x: nat): (r: nat)
    ensures r % 8 == 0 && r <= x < r + 8
  {
    x - x % 8
  }

  lemma Mod8(a: int, b: int)
    requires a % 8 == 0 && b % 8 == 0
    ensures (a - b) % 8 == 0
  {}

  lemma AtLeastOnce(a: nat, k: nat)
    requires k >= 1
    ensures a * k >= a
  {}

  lemma Distributes(a: int, x: int, y: int)
    ensures a * (x - y) == a * x - a * y
  {}

  /** A multiple leaves no remainder. */
  lemma MultipleMod(a: nat, q: nat, x: nat)
    requires a > 0 && x == a * q
    ensures x % a == 0
  {
    var d, r := x / a, x % a;
    assert x == a * d + r;
    Distributes(a, q, d);
    Distributes(a, d, q);
    if q > d {
      AtLeastOnce(a, q - d);
    } else if q < d {
      AtLeastOnce(a, d - q);
    }
  }

  function PadRequest(req: nat): nat { AlignDown(Wrap(req + CHUNK_OVERHEAD + 7)) }

  function Request2Size(req: nat): nat { if req < MIN_REQUEST then MIN_CHUNK_SIZE else PadRequest(req) }

  /** align_offset(chunk2mem(a)): how far a is below the next 8-aligned address. */
  function AlignOffset(a: nat): (r: nat)
    ensures r < 8 && (a + r) % 8 == 0
  {
    (8 - a % 8) % 8
  }

  /** The smallest chunk that serves a request: overhead added, 8-aligned, never below the minimum. */
  lemma Request2SizeTight(req: nat)
    requires req < MAX_REQUEST
    ensures Request2Size(req) % 8 == 0 && MIN_CHUNK_SIZE <= Request2Size(req) < TWO32
    ensures Request2Size(req) >= req + CHUNK_OVERHEAD
    ensures forall n: nat | n % 8 == 0 && n >= MIN_CHUNK_SIZE && n >= req + CHUNK_OVERHEAD :: Request2Size(req) <= n
  {
    if req < MIN_REQUEST { assert req + CHUNK_OVERHEAD <= MIN_CHUNK_SIZE; }
  }

  function Pow2(n: nat): (r: nat)
    ensures r >= 1
  {
    if n == 0 then 1 else 2 * Pow2(n - 1)
  }

  lemma {:induction false} Pow2Add(m: nat, n: nat)
    ensures Pow2(m + n) == Pow2(m) * Pow2(n)
  {
    if m > 0 {
      Pow2Add(m - 1, n);
      assert Pow2(m) * Pow2(n) == 2 * (Pow2(m - 1) * Pow2(n));
    }
  }

  lemma {:induction false} Pow2Mono(m: nat, n: nat)
    requires m < n
    ensures 2 * Pow2(m) <= Pow2(n)
  {
    if m + 1 < n { Pow2Mono(m, n - 1); }
  }
}
