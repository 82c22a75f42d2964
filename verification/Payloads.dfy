/** What callers keep in their chunks, and what the allocator's stores can do to it. */
module Payloads {
  import opened Words
  import opened Rings
  import opened Tries
  import opened Bins
  import opened Tiling
  import opened Coalesce
  import opened State
  import opened Keeping
  import opened AllocOps

  /** The bytes of memory; noise is what the allocator's words look like, byte by byte. */
  class Payload {
    var bytes: map<int, int>
    var noise: map<int, int>
  }

  function Byte(b: map<int, int>, a: int): int { if a in b then b[a] else 0 }

  // ----- the allocator's stores

  /** The word of some field that has a as its byte d differs. */
  predicate TouchedAt(c: Cells, c': Cells, a: int, d: nat) {
    || At(c'.foot, a - d) != At(c.foot, a - d)
    || HeadAt(c'.head, a - 4 - d) != HeadAt(c.head, a - 4 - d)
    || At(c'.fd, a - 8 - d) != At(c.fd, a - 8 - d)
    || At(c'.bk, a - 12 - d) != At(c.bk, a - 12 - d)
    || Kid(c'.child, a - 16 - d, false) != Kid(c.child, a - 16 - d, false)
    || Kid(c'.child, a - 20 - d, true) != Kid(c.child, a - 20 - d, true)
    || At(c'.parent, a - 24 - d) != At(c.parent, a - 24 - d)
    || At(c'.index, a - 28 - d) != At(c.index, a - 28 - d)
  }

  /** Byte a is part of a word that differs between c and c'. */
  predicate Touched(c: Cells, c': Cells, a: int) {
    TouchedAt(c, c', a, 0) || TouchedAt(c, c', a, 1) || TouchedAt(c, c', a, 2) || TouchedAt(c, c', a, 3)
  }

  /** The bytes of the words that have changed from c to c' change with them. */
  method Overwrite(ram: Payload, c: Cells, c': Cells)
    modifies ram`bytes
    ensures forall a :: Byte(ram.bytes, a) == if Touched(c, c', a) then Byte(ram.noise, a) else Byte(old(ram.bytes), a)
  {
    hide Touched;
    ram.bytes := map a | a in ram.bytes.Keys + ram.noise.Keys ::
      if Touched(c, c', a) then Byte(ram.noise, a) else Byte(ram.bytes, a);
  }

  lemma SameUntouched(c: Cells, c': Cells, lo: int, hi: int, a: int)
    requires SameIn(c, c', lo, hi) && lo <= a < hi
    ensures !Touched(c, c', a)
  {}

  // ----- whose bytes are whose

  /** From its memory address up to the size field of the next chunk. */
  predicate Within(g: Tags, p: int, a: int)
    requires p in g.tiles
  {
    p + 8 <= a < p + g.tiles[p].size + CHUNK_OVERHEAD
  }

  /** No word the allocator keeps, be it a head, the foot of a free chunk, a link or anything of top, is a byte of a
      held chunk. */
  lemma MetadataApart(g: Tags, p: int, a: int, q: int)
    requires TagsOk(g) && p in LiveOf(g) && p in g.tiles && Within(g, p, a)
    ensures q in g.tiles || q == g.top ==> !(q + 4 <= a < q + 8)
    ensures q in g.tiles && !HeadAt(g.head, q).pinuse ==> !(q <= a < q + 4)
    ensures q in g.tiles && !g.tiles[q].used ==> !(q + 8 <= a < End(g.tiles, q))
    ensures q == g.top != 0 ==> !(q + 8 <= a < q + g.topsize + TOP_FOOT_SIZE)
  {
    hide HeadsOk;
    var e := End(g.tiles, p);
    assert HeadAt(g.head, e).pinuse;
  }

  /** The bytes of the chunks held in g, except p's, are as they were. */
  ghost predicate BytesKept(g: Tags, p: int, b: map<int, int>, b': map<int, int>) {
    forall q, a | q in LiveOf(g) && q != p && q in g.tiles && Within(g, q, a) :: Byte(b', a) == Byte(b, a)
  }

  /** Whatever the stores from c to c' make of the bytes of their words, callers' bytes are as they were. */
  lemma SparedBytes(g: Tags, p: int, c: Cells, c': Cells, b: map<int, int>, b': map<int, int>)
    requires Spared(g, {p}, c, c') && forall a | !Touched(c, c', a) :: Byte(b', a) == Byte(b, a)
    ensures BytesKept(g, p, b, b')
  {
    hide SameIn, Touched, Byte;
    forall q, a | q in LiveOf(g) && q != p && q in g.tiles && Within(g, q, a) ensures Byte(b', a) == Byte(b, a) {
      assert Held(g, q);
      SameUntouched(c, c', q + 8, q + g.tiles[q].size + 4, a);
    }
  }

  lemma SparedMore(g: Tags, x: set<int>, y: set<int>, c: Cells, c': Cells)
    requires Spared(g, x, c, c') && x <= y
    ensures Spared(g, y, c, c')
  {
    hide SameIn;
  }

  /** Through two steps, if nobody but p has gone in between. */
  lemma BytesTrans(g: Tags, p: int, g1: Tags, p1: int, b: map<int, int>, b1: map<int, int>, b2: map<int, int>)
    requires BytesKept(g, p, b, b1) && BytesKept(g1, p1, b1, b2)
    requires forall q | q in LiveOf(g) && q != p ::
               q in g.tiles && q in LiveOf(g1) && q != p1 && q in g1.tiles && g1.tiles[q] == g.tiles[q]
    ensures BytesKept(g, p, b, b2)
  {
    hide LiveOf, Byte;
    forall q, a | q in LiveOf(g) && q != p && q in g.tiles && Within(g, q, a) ensures Byte(b2, a) == Byte(b, a) {
      assert Within(g1, q, a);
    }
  }

  // ----- clearing and copying

  predicate Zeroed(b: map<int, int>, x: int, n: int) { forall a | x <= a < x + n :: Byte(b, a) == 0 }

  /** memset(dst, 0, n) */
  method Memset(ram: Payload, dst: int, n: nat)
    modifies ram`bytes
    ensures Zeroed(ram.bytes, dst, n)
    ensures forall a | a < dst || dst + n <= a :: Byte(ram.bytes, a) == Byte(old(ram.bytes), a)
  {
    var i := 0;
    while i < n
      invariant 0 <= i <= n && Zeroed(ram.bytes, dst, i)
      invariant forall a | a < dst || dst + i <= a :: Byte(ram.bytes, a) == Byte(old(ram.bytes), a)
    {
      ghost var was := ram.bytes;
      ram.bytes := ram.bytes[dst + i := 0];
      assert forall a | dst <= a < dst + i :: Byte(ram.bytes, a) == Byte(was, a);
      i := i + 1;
    }
  }

  /** The n bytes at dst are those that were at src. */
  predicate Copied(b: map<int, int>, src: int, b': map<int, int>, dst: int, n: nat) {
    forall a | dst <= a < dst + n :: Byte(b', a) == Byte(b, a - dst + src)
  }

  method Memcpy(ram: Payload, dst: int, src: int, n: nat)
    requires dst + n <= src || src + n <= dst
    modifies ram`bytes
    ensures Copied(old(ram.bytes), src, ram.bytes, dst, n)
    ensures forall a | a < dst || dst + n <= a :: Byte(ram.bytes, a) == Byte(old(ram.bytes), a)
  {
    var i := 0;
    while i < n
      invariant 0 <= i <= n
      invariant Copied(old(ram.bytes), src, ram.bytes, dst, i)
      invariant forall a | a < dst || dst + i <= a :: Byte(ram.bytes, a) == Byte(old(ram.bytes), a)
    {
      assert Byte(ram.bytes, src + i) == Byte(old(ram.bytes), src + i);
      ghost var was := ram.bytes;
      ram.bytes := ram.bytes[dst + i := Byte(ram.bytes, src + i)];
      assert forall a | dst <= a < dst + i :: Byte(ram.bytes, a) == Byte(was, a);
      i := i + 1;
    }
  }
}
