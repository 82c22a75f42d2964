/** The kernel's physical memory map as a list of blocks: what carving and marking do to it. */
module MemMap {
  import opened Words

  /** struct memory_map without its list node; kind 0 is free, 2 is reserved by the kernel. */
  datatype Block = Block(base: nat, size: nat, kind: int)

  predicate Holds(b: Block, a: int) { b.base <= a < b.base + b.size }

  /** The blocks lie in order in the address space. */
  predicate Ordered(v: seq<Block>) {
    && (forall i | 0 <= i < |v| :: v[i].base + v[i].size <= TWO32)
    && (forall i, j | 0 <= i < j < |v| :: v[i].base + v[i].size <= v[j].base)
  }

  predicate CoversAt(v: seq<Block>, a: int) { exists i | 0 <= i < |v| :: Holds(v[i], a) }

  predicate FreeAt(v: seq<Block>, a: int) { exists i | 0 <= i < |v| :: v[i].kind == 0 && Holds(v[i], a) }

  /** memory_split: the first size bytes of block i become a reserved block of their own. */
  function Carve(v: seq<Block>, i: nat, size: nat): seq<Block>
    requires i < |v| && size <= v[i].size
  {
    v[..i] + [Block(v[i].base, size, 2), Block(v[i].base + size, v[i].size - size, v[i].kind)] + v[i + 1..]
  }

  function Mark(v: seq<Block>, i: nat, kind: int): seq<Block>
    requires i < |v|
  {
    v[i := v[i].(kind := kind)]
  }

  /** Where the blocks of v are in Carve(v, i, size), and back. */
  lemma CarveAt(v: seq<Block>, i: nat, size: nat)
    requires i < |v| && size <= v[i].size
    ensures var w := Carve(v, i, size);
            && |w| == |v| + 1 && w[i] == Block(v[i].base, size, 2)
            && w[i + 1] == Block(v[i].base + size, v[i].size - size, v[i].kind)
            && (forall j | 0 <= j < i :: w[j] == v[j]) && (forall j | i + 1 < j < |w| :: w[j] == v[j - 1])
  {}

  lemma CarveOrdered(v: seq<Block>, i: nat, size: nat)
    requires Ordered(v) && i < |v| && size <= v[i].size
    ensures Ordered(Carve(v, i, size))
  {
    CarveAt(v, i, size);
    var w := Carve(v, i, size);
    forall j, k | 0 <= j < k < |w| ensures w[j].base + w[j].size <= w[k].base {
      var j', k' := if j <= i then j else j - 1, if k <= i then k else k - 1;
      assert j' < k' ==> v[j'].base + v[j'].size <= v[k'].base;
    }
  }

  lemma CarveCovers(v: seq<Block>, i: nat, size: nat, a: int)
    requires i < |v| && size <= v[i].size
    ensures CoversAt(Carve(v, i, size), a) <==> CoversAt(v, a)
  {
    CarveAt(v, i, size);
    var w := Carve(v, i, size);
    if CoversAt(v, a) {
      var j :| 0 <= j < |v| && Holds(v[j], a);
      assert Holds(w[if j < i || (j == i && a < v[i].base + size) then j else j + 1], a);
    }
    if CoversAt(w, a) {
      var j :| 0 <= j < |w| && Holds(w[j], a);
      assert Holds(v[if j <= i then j else j - 1], a);
    }
  }

  /** Exactly the carved bytes stop being free. */
  lemma CarveFree(v: seq<Block>, i: nat, size: nat, a: int)
    requires Ordered(v) && i < |v| && size <= v[i].size && v[i].kind == 0
    ensures FreeAt(Carve(v, i, size), a) <==> FreeAt(v, a) && !(v[i].base <= a < v[i].base + size)
  {
    CarveAt(v, i, size);
    hide Carve;
    var w := Carve(v, i, size);
    if FreeAt(v, a) && !(v[i].base <= a < v[i].base + size) {
      var j :| 0 <= j < |v| && v[j].kind == 0 && Holds(v[j], a);
      assert w[if j < i then j else j + 1].kind == 0 && Holds(w[if j < i then j else j + 1], a);
    }
    if FreeAt(w, a) { CarvedFree(v, i, size, a); }
  }

  lemma CarvedFree(v: seq<Block>, i: nat, size: nat, a: int)
    requires Ordered(v) && i < |v| && size <= v[i].size && FreeAt(Carve(v, i, size), a)
    ensures FreeAt(v, a) && !(v[i].base <= a < v[i].base + size)
  {
    CarveAt(v, i, size);
    hide Carve;
    var w := Carve(v, i, size);
    var j :| 0 <= j < |w| && w[j].kind == 0 && Holds(w[j], a);
    var j' := if j <= i then j else j - 1;
    assert v[j'].kind == 0 && Holds(v[j'], a);
    if j' < i { assert v[j'].base + v[j'].size <= v[i].base; }
    if j' > i { assert v[i].base + v[i].size <= v[j'].base; }
  }

  lemma MarkFree(v: seq<Block>, i: nat, a: int)
    requires Ordered(v) && i < |v| && v[i].kind == 0
    ensures FreeAt(Mark(v, i, 2), a) <==> FreeAt(v, a) && !Holds(v[i], a)
  {
    var w := Mark(v, i, 2);
    if FreeAt(v, a) && !Holds(v[i], a) {
      var j :| 0 <= j < |v| && v[j].kind == 0 && Holds(v[j], a);
      assert w[j].kind == 0 && Holds(w[j], a);
    }
    if FreeAt(w, a) {
      var j :| 0 <= j < |w| && w[j].kind == 0 && Holds(w[j], a);
      assert v[j].kind == 0 && Holds(v[j], a);
      if j < i { assert v[j].base + v[j].size <= v[i].base; }
      if j > i { assert v[i].base + v[i].size <= v[j].base; }
    }
  }

  lemma MarkCovers(v: seq<Block>, i: nat, kind: int, a: int)
    requires i < |v|
    ensures CoversAt(Mark(v, i, kind), a) <==> CoversAt(v, a)
  {
    var w := Mark(v, i, kind);
    if CoversAt(v, a) {
      var j :| 0 <= j < |v| && Holds(v[j], a);
      assert Holds(w[j], a);
    }
    if CoversAt(w, a) {
      var j :| 0 <= j < |w| && Holds(w[j], a);
      assert Holds(v[j], a);
    }
  }

  // ----- what a reservation may do to the map

  /** An empty block begins at p; it hides what else begins there from memory_release. */
  ghost predicate EmptyAt(v: seq<Block>, p: int) { exists i: nat :: i < |v| && v[i].base == p && v[i].size == 0 }

  /** Still ordered over the same addresses; nothing reserved before has changed or become free, and empty blocks
      stay. */
  ghost predicate Tighter(v: seq<Block>, w: seq<Block>) {
    && Ordered(w)
    && (forall a :: CoversAt(w, a) <==> CoversAt(v, a))
    && (forall a :: FreeAt(w, a) ==> FreeAt(v, a))
    && (forall b | b in v && b.kind != 0 :: b in w)
    && (forall p | EmptyAt(v, p) :: EmptyAt(w, p))
  }

  lemma TighterTrans(v: seq<Block>, w: seq<Block>, x: seq<Block>)
    requires Tighter(v, w) && Tighter(w, x)
    ensures Tighter(v, x)
  {}

  /** [p, p + size) was free and is now a reserved block. */
  ghost predicate Granted(v: seq<Block>, w: seq<Block>, p: nat, size: nat) {
    && (forall a | p <= a < p + size :: FreeAt(v, a) && !FreeAt(w, a))
    && Block(p, size, 2) in w
  }

  lemma GrantedEarlier(v: seq<Block>, w: seq<Block>, x: seq<Block>, p: nat, size: nat)
    requires Tighter(v, w) && Granted(w, x, p, size)
    ensures Granted(v, x, p, size)
  {}

  lemma CarveKeeps(v: seq<Block>, i: nat, size: nat, b: Block)
    requires i < |v| && size <= v[i].size && v[i].kind == 0 && b in v && b.kind != 0
    ensures b in Carve(v, i, size)
  {
    CarveAt(v, i, size);
    hide Carve;
    var j :| 0 <= j < |v| && v[j] == b;
    assert Carve(v, i, size)[if j < i then j else j + 1] == b;
  }

  lemma CarveEmpty(v: seq<Block>, i: nat, size: nat, p: int)
    requires i < |v| && size <= v[i].size && EmptyAt(v, p)
    ensures EmptyAt(Carve(v, i, size), p)
  {
    CarveAt(v, i, size);
    hide Carve;
    var j: nat :| j < |v| && v[j].base == p && v[j].size == 0;
    var w, l := Carve(v, i, size), if j <= i then j else j + 1;
    assert w[l].base == p && w[l].size == 0;
  }

  lemma CarveGrants(v: seq<Block>, i: nat, size: nat)
    requires Ordered(v) && i < |v| && size <= v[i].size && v[i].kind == 0
    ensures Tighter(v, Carve(v, i, size)) && Granted(v, Carve(v, i, size), v[i].base, size)
  {
    var w := Carve(v, i, size);
    CarveAt(v, i, size);
    CarveOrdered(v, i, size);
    hide Carve;
    forall a ensures CoversAt(w, a) <==> CoversAt(v, a) { CarveCovers(v, i, size, a); }
    forall a
      ensures FreeAt(w, a) <==> FreeAt(v, a) && !(v[i].base <= a < v[i].base + size)
    {
      CarveFree(v, i, size, a);
    }
    forall a | v[i].base <= a < v[i].base + size ensures FreeAt(v, a) { assert Holds(v[i], a); }
    forall b | b in v && b.kind != 0 ensures b in w { CarveKeeps(v, i, size, b); }
    forall p | EmptyAt(v, p) ensures EmptyAt(w, p) { CarveEmpty(v, i, size, p); }
    assert w[i] in w;
  }

  lemma MarkEmpty(v: seq<Block>, i: nat, kind: int, p: int)
    requires i < |v| && EmptyAt(v, p)
    ensures EmptyAt(Mark(v, i, kind), p)
  {
    var j: nat :| j < |v| && v[j].base == p && v[j].size == 0;
    assert Mark(v, i, kind)[j].base == p && Mark(v, i, kind)[j].size == 0;
  }

  lemma MarkGrants(v: seq<Block>, i: nat)
    requires Ordered(v) && i < |v| && v[i].kind == 0
    ensures Tighter(v, Mark(v, i, 2)) && Granted(v, Mark(v, i, 2), v[i].base, v[i].size)
  {
    var w := Mark(v, i, 2);
    forall a ensures CoversAt(w, a) <==> CoversAt(v, a) { MarkCovers(v, i, 2, a); }
    forall a ensures FreeAt(w, a) <==> FreeAt(v, a) && !Holds(v[i], a) { MarkFree(v, i, a); }
    forall a | v[i].base <= a < v[i].base + v[i].size ensures FreeAt(v, a) { assert Holds(v[i], a); }
    forall b | b in v && b.kind != 0 ensures b in w {
      var j :| 0 <= j < |v| && v[j] == b;
      assert w[j] == b;
    }
    forall p | EmptyAt(v, p) ensures EmptyAt(w, p) { MarkEmpty(v, i, 2, p); }
    assert w[i] in w;
  }

  // ----- which block the search of __memory_reserve_ex stops at

  /** The tests of the loop, with their 32-bit sums. */
  predicate Fits(b: Block, base: nat, size: nat) { b.kind == 0 && base == 0 && b.size >= size }

  predicate Stops(b: Block, base: nat, size: nat) {
    Fits(b, base, size) || (b.kind == 0 && b.base <= base < Wrap(b.base + b.size))
  }

  ghost predicate StopsAt(v: seq<Block>, base: nat, size: nat, i: nat) {
    i < |v| && Stops(v[i], base, size) && forall j | 0 <= j < i :: !Stops(v[j], base, size)
  }

  /** A fixed request is turned down when it would end at or beyond the end of its block. */
  predicate Refused(b: Block, base: nat, size: nat) { Wrap(base + size) >= Wrap(b.base + b.size) }

  /** Everything a request does to the map when the search stops at block i. */
  function Taken(v: seq<Block>, base: nat, size: nat, i: nat): seq<Block>
    requires i < |v|
  {
    var b := v[i];
    if Fits(b, base, size) then if b.size == size then Mark(v, i, 2) else Carve(v, i, size)
    else if Refused(b, base, size) || base < b.base then v
    else if base - b.base > b.size || base + size > b.base + b.size then v
    else if base == b.base then Carve(v, i, size)
    else CarveInside(v, i, base - b.base, size)
  }

  /** Two cuts: skip bytes that are reserved with nobody holding them, then the request. */
  function CarveInside(v: seq<Block>, i: nat, skip: nat, size: nat): seq<Block>
    requires i < |v| && skip + size <= v[i].size
  {
    v[..i] + [Block(v[i].base, skip, 2), Block(v[i].base + skip, size, 2),
              Block(v[i].base + skip + size, v[i].size - skip - size, v[i].kind)] + v[i + 1..]
  }

  lemma CarveTwice(v: seq<Block>, i: nat, skip: nat, size: nat)
    requires i < |v| && skip + size <= v[i].size
    ensures Carve(Carve(v, i, skip), i + 1, size) == CarveInside(v, i, skip, size)
  {}

  /** The map w that a request leaves: what the first block the search stops at makes of it, or v itself. */
  ghost predicate Settled(v: seq<Block>, w: seq<Block>, base: nat, size: nat) {
    && (forall i: nat | StopsAt(v, base, size, i) :: w == Taken(v, base, size, i))
    && ((forall i: nat :: !StopsAt(v, base, size, i)) ==> w == v)
  }

  lemma SettledAt(v: seq<Block>, base: nat, size: nat, i: nat)
    requires StopsAt(v, base, size, i)
    ensures Settled(v, Taken(v, base, size, i), base, size)
  {
    forall j: nat | StopsAt(v, base, size, j) ensures j == i {}
  }

  lemma SettledInside(v: seq<Block>, w: seq<Block>, base: nat, size: nat, i: nat)
    requires StopsAt(v, base, size, i) && !Fits(v[i], base, size) && !Refused(v[i], base, size)
    requires v[i].base < base && base + size < v[i].base + v[i].size < TWO32
    requires var x := Carve(v, i, base - v[i].base); StopsAt(x, base, size, i + 1) && Settled(x, w, base, size)
    ensures Settled(v, w, base, size)
  {
    var first := base - v[i].base;
    CarveAt(v, i, first);
    CarveTwice(v, i, first, size);
    SettledAt(v, base, size, i);
    hide StopsAt, Carve;
  }

  /** The test keeps every accepted request inside its block exactly when the request itself does not wrap. */
  lemma RefusedExact(base: nat, size: nat)
    requires base < MAX_SIZE_T && size < TWO32
    ensures (forall b: Block | b.base <= base < b.base + b.size < TWO32 && !Refused(b, base, size) ::
               base + size < b.base + b.size)
            <==> base + size < TWO32
  {
    if base + size >= TWO32 {
      var b := Block(0, MAX_SIZE_T, 0);
      assert b.base <= base < b.base + b.size < TWO32 && !Refused(b, base, size);
    }
  }

  /** A free block at address 0 too small for the request stops the search of a request for any address. */
  ghost predicate ZeroBlocked(v: seq<Block>, size: nat) {
    exists j | 0 <= j < |v| :: v[j].kind == 0 && v[j].base == 0 && 0 < v[j].size < size
  }

  /** The search of a request for any address comes to a block it can use. */
  ghost predicate Found(v: seq<Block>, size: nat) { exists i: nat :: StopsAt(v, 0, size, i) && Fits(v[i], 0, size) }

  lemma {:induction false} FirstStop(v: seq<Block>, base: nat, size: nat, i: nat) returns (j: nat)
    requires i < |v| && Stops(v[i], base, size)
    ensures StopsAt(v, base, size, j)
    decreases i
  {
    hide Stops;
    if exists k: nat :: k < i && Stops(v[k], base, size) {
      var k: nat :| k < i && Stops(v[k], base, size);
      j := FirstStop(v, base, size, k);
    } else {
      j := i;
    }
  }

  /** A request for any address finds a block exactly when one is large enough and none blocks the way at address 0. */
  lemma AnywhereExact(v: seq<Block>, size: nat)
    requires Ordered(v) && size < TWO32
    ensures Found(v, size) <==> (exists i: nat :: i < |v| && Fits(v[i], 0, size)) && !ZeroBlocked(v, size)
  {
    if Found(v, size) {
      var i: nat :| StopsAt(v, 0, size, i) && Fits(v[i], 0, size);
      FoundMeans(v, size, i);
    }
    if (exists i: nat :: i < |v| && Fits(v[i], 0, size)) && !ZeroBlocked(v, size) {
      var i: nat :| i < |v| && Fits(v[i], 0, size);
      var j := FirstStop(v, 0, size, i);
      StopFits(v, size, j);
      assert Found(v, size);
    }
  }

  lemma FoundMeans(v: seq<Block>, size: nat, i: nat)
    requires Ordered(v) && size < TWO32 && StopsAt(v, 0, size, i) && Fits(v[i], 0, size)
    ensures !ZeroBlocked(v, size)
  {
    forall j | 0 <= j < |v| ensures !(v[j].kind == 0 && v[j].base == 0 && 0 < v[j].size < size) {
      if i < j { assert v[i].base + v[i].size <= v[j].base; }
    }
  }

  lemma StopFits(v: seq<Block>, size: nat, j: nat)
    requires Ordered(v) && size < TWO32 && StopsAt(v, 0, size, j) && !ZeroBlocked(v, size)
    ensures Fits(v[j], 0, size)
  {}
}
