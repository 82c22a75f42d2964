/** k/list.c: intrusive circular lists, and the sequences they keep. */
module Lists {
  import opened Rings

  class Links {
    var next: Ptrs
    var prev: Ptrs
  }

  /** list is the head of a list with these members, in order. */
  predicate Spells(next: Ptrs, prev: Ptrs, list: int, members: seq<int>) { Ring(next, prev, [list] + members) }

  method ListInit(l: Links, list: int)
    modifies l
    ensures Spells(l.next, l.prev, list, [])
    ensures l.next == old(l.next)[list := list] && l.prev == old(l.prev)[list := list]
  {
    l.prev := l.prev[list := list];
    l.next := l.next[list := list];
  }

  /** list_insert after any node of a list. */
  method ListInsert(l: Links, list: int, elm: int, ghost r: seq<int>)
    requires Ring(l.next, l.prev, r) && r[0] == list && elm !in r
    modifies l
    ensures Ring(l.next, l.prev, Insert2(r, elm))
    ensures forall a | a !in r && a != elm :: At(l.next, a) == At(old(l.next), a) && At(l.prev, a) == At(old(l.prev), a)
  {
    RingInsert(l.next, l.prev, r, elm);
    ghost var next, prev := l.next, l.prev;
    ghost var f := At(l.next, list);
    NextIn(next, prev, r);
    l.prev := l.prev[elm := list];
    l.next := l.next[elm := At(l.next, list)];
    l.next := l.next[list := elm];
    l.prev := l.prev[At(l.next, elm) := elm];
    InsertWrites(next, prev, r, list, elm, l.next, l.prev);
  }

  lemma NextIn(next: Ptrs, prev: Ptrs, r: seq<int>)
    requires Ring(next, prev, r)
    ensures At(next, r[0]) in r && At(prev, r[0]) in r
  {
    assert Linked(next, prev, r, 0) && Linked(next, prev, r, |r| - 1);
  }

  /** The four stores in the source's order leave the same links. */
  lemma InsertWrites(next: Ptrs, prev: Ptrs, r: seq<int>, list: int, elm: int, next': Ptrs, prev': Ptrs)
    requires Ring(next, prev, r) && r[0] == list && elm !in r
    requires next' == next[elm := At(next, list)][list := elm]
    requires prev' == prev[elm := list][At(next', elm) := elm]
    requires Ring(next[list := elm][elm := At(next, list)], prev[At(next, list) := elm][elm := list], Insert2(r, elm))
    ensures Ring(next', prev', Insert2(r, elm))
  {
    assert elm != list;
    assert next' == next[list := elm][elm := At(next, list)];
    NextIn(next, prev, r);
    assert At(next, list) != elm;
    assert prev' == prev[At(next, list) := elm][elm := list];
  }

  /** list_insert(head->prev, elm) appends. */
  method ListAppend(l: Links, head: int, elm: int, ghost members: seq<int>)
    requires Spells(l.next, l.prev, head, members) && elm != head && elm !in members
    modifies l
    ensures Spells(l.next, l.prev, head, members + [elm])
  {
    ghost var r := [head] + members;
    RingRotate(l.next, l.prev, r);
    ghost var last := r[|r| - 1];
    assert Linked(l.next, l.prev, r, |r| - 1);
    ListInsert(l, At(l.prev, head), elm, Rotate(r));
    AppendSpells(l.next, l.prev, head, members, elm);
  }

  /** Rotating back: the head first and the new node last. */
  lemma AppendSpells(next: Ptrs, prev: Ptrs, head: int, members: seq<int>, elm: int)
    requires Ring(next, prev, Insert2(Rotate([head] + members), elm))
    ensures Spells(next, prev, head, members + [elm])
  {
    var r := [head] + members;
    var s := Insert2(Rotate(r), elm);
    if members == [] {
      assert s == [head, elm] == [head] + (members + [elm]);
    } else {
      Rotations(next, prev, s, 2);
      assert Turned(s, 2) == [head] + (members + [elm]);
    }
  }

  /** list_insert(head, elm) prepends. */
  method ListPrepend(l: Links, head: int, elm: int, ghost members: seq<int>)
    requires Spells(l.next, l.prev, head, members) && elm != head && elm !in members
    modifies l
    ensures Spells(l.next, l.prev, head, [elm] + members)
  {
    ListInsert(l, head, elm, [head] + members);
    assert Insert2([head] + members, elm) == [head] + ([elm] + members);
  }

  /** What cache_try_free does with a node that is its own: alone on a list of its own first, then at the front of
      the free list. */
  method FreeNode(l: Links, freelist: int, ptr: int, ghost members: seq<int>)
    requires Spells(l.next, l.prev, freelist, members) && ptr != freelist && ptr !in members
    modifies l
    ensures Spells(l.next, l.prev, freelist, [ptr] + members)
  {
    ghost var next, prev := l.next, l.prev;
    ListInit(l, ptr);
    RingFrame(next, prev, l.next, l.prev, [freelist] + members);
    ListPrepend(l, freelist, ptr, members);
  }

  function Turned(r: seq<int>, k: nat): seq<int>
    requires k <= |r|
  {
    r[k..] + r[..k]
  }

  lemma {:induction false} Rotations(next: Ptrs, prev: Ptrs, r: seq<int>, k: nat)
    requires Ring(next, prev, r) && k <= |r|
    ensures Ring(next, prev, Turned(r, k))
    decreases |r| - k
  {
    if k == |r| {
      assert Turned(r, k) == r;
    } else {
      Rotations(next, prev, r, k + 1);
      RingRotate(next, prev, Turned(r, k + 1));
      assert Rotate(Turned(r, k + 1)) == Turned(r, k);
    }
  }

  lemma BesideIn(next: Ptrs, prev: Ptrs, r: seq<int>, j: nat)
    requires Ring(next, prev, r) && j < |r|
    ensures At(next, r[j]) in r && At(prev, r[j]) in r
  {
    assert Linked(next, prev, r, j) && Linked(next, prev, r, if j == 0 then |r| - 1 else j - 1);
  }

  method ListRemove(l: Links, elm: int, ghost r: seq<int>, ghost j: nat)
    requires Ring(l.next, l.prev, r) && j < |r| && r[j] == elm && |r| >= 2
    modifies l
    ensures Ring(l.next, l.prev, Drop(r, j)) && At(l.next, elm) == 0 == At(l.prev, elm)
    ensures forall a | a !in r :: At(l.next, a) == At(old(l.next), a) && At(l.prev, a) == At(old(l.prev), a)
  {
    RingRemove(l.next, l.prev, r, j);
    BesideIn(l.next, l.prev, r, j);
    Rings.DropDistinct(r, j);
    l.next := l.next[At(l.prev, elm) := At(l.next, elm)];
    l.prev := l.prev[At(l.next, elm) := At(l.prev, elm)];
    ghost var next, prev := l.next, l.prev;
    l.next := l.next[elm := 0];
    l.prev := l.prev[elm := 0];
    RingFrame(next, prev, l.next, l.prev, Drop(r, j));
  }

  /** list_empty */
  method ListEmpty(l: Links, list: int, ghost members: seq<int>) returns (empty: bool)
    requires Spells(l.next, l.prev, list, members)
    ensures empty <==> members == []
  {
    assert Linked(l.next, l.prev, [list] + members, 0);
    empty := At(l.next, list) == list;
  }
}
