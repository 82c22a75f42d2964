/** Circular doubly linked lists held in two pointer maps, and the sequences they spell. */
module Rings {
  type Ptrs = map<int, int>

  /** A pointer field; memory that was never written reads as null. */
  function At(m: Ptrs, a: int): int { if a in m then m[a] else 0 }

  predicate Distinct(r: seq<int>) { forall i, j | 0 <= i < j < |r| :: r[i] != r[j] }

  function Next(k: int, n: int): int { if k + 1 == n then 0 else k + 1 }

  predicate Linked(fd: Ptrs, bk: Ptrs, r: seq<int>, k: int)
    requires 0 <= k < |r|
  {
    var f := r[Next(k, |r|)];
    At(fd, r[k]) == f && At(bk, f) == r[k]
  }

  /** Following fd from r[0] visits exactly r, once each, and returns; bk runs it backwards. */
  predicate Ring(fd: Ptrs, bk: Ptrs, r: seq<int>) {
    |r| > 0 && Distinct(r) && forall k | 0 <= k < |r| :: Linked(fd, bk, r, k)
  }

  /** A ring does not notice writes to nodes outside it. */
  lemma RingFrame(fd: Ptrs, bk: Ptrs, fd': Ptrs, bk': Ptrs, r: seq<int>)
    requires Ring(fd, bk, r)
    requires forall a | a in r :: At(fd', a) == At(fd, a) && At(bk', a) == At(bk, a)
    ensures Ring(fd', bk', r)
  {
    forall k | 0 <= k < |r| ensures Linked(fd', bk', r, k) {
      assert Linked(fd, bk, r, k);
      assert r[k] in r && r[Next(k, |r|)] in r;
    }
  }

  function Insert2(r: seq<int>, x: int): seq<int>
    requires |r| > 0
  {
    [r[0], x] + r[1..]
  }

  function Drop(r: seq<int>, j: nat): seq<int>
    requires j < |r|
  {
    r[..j] + r[j + 1..]
  }

  lemma Insert2Distinct(r: seq<int>, x: int)
    requires |r| > 0 && Distinct(r) && x !in r
    ensures Distinct(Insert2(r, x))
  {
    var s := Insert2(r, x);
    forall i, j | 0 <= i < j < |s| ensures s[i] != s[j] {
      if i == 1 { assert s[j] == r[j - 1]; }
      else if j == 1 { assert s[i] == r[0]; }
      else {
        var i', j' := if i == 0 then 0 else i - 1, j - 1;
        assert s[i] == r[i'] && s[j] == r[j'] && i' < j';
      }
    }
  }

  /** Linking x in behind the first node. */
  lemma RingInsert(fd: Ptrs, bk: Ptrs, r: seq<int>, x: int)
    requires Ring(fd, bk, r) && x !in r
    ensures var t := r[0];
            var f := At(fd, t);
            Ring(fd[t := x][x := f], bk[f := x][x := t], Insert2(r, x))
  {
    var t, s := r[0], Insert2(r, x);
    assert Linked(fd, bk, r, 0);
    var f := At(fd, t);
    var fd', bk' := fd[t := x][x := f], bk[f := x][x := t];
    Insert2Distinct(r, x);
    forall k | 0 <= k < |s| ensures Linked(fd', bk', s, k) {
      if k >= 2 {
        assert Linked(fd, bk, r, k - 1);
        assert s[k] == r[k - 1] && s[Next(k, |s|)] == r[Next(k - 1, |r|)];
        assert s[k] != t && r[Next(k - 1, |r|)] != f;
      }
    }
  }

  lemma DropDistinct(r: seq<int>, j: nat)
    requires j < |r| && Distinct(r)
    ensures Distinct(Drop(r, j))
    ensures forall a :: a in Drop(r, j) <==> a in r && a != r[j]
  {
    var s := Drop(r, j);
    forall i | 0 <= i < |s| ensures s[i] == (if i < j then r[i] else r[i + 1]) {}
    forall a | a in r && a != r[j] ensures a in s {
      var i :| 0 <= i < |r| && r[i] == a;
      assert s[if i < j then i else i - 1] == a;
    }
  }

  /** Unlinking the j-th node of a ring of two or more. */
  lemma RingRemove(fd: Ptrs, bk: Ptrs, r: seq<int>, j: nat)
    requires Ring(fd, bk, r) && j < |r| && |r| >= 2
    ensures var f, b := At(fd, r[j]), At(bk, r[j]);
            Ring(fd[b := f], bk[f := b], Drop(r, j))
  {
    var f, b := At(fd, r[j]), At(bk, r[j]);
    var n := |r|;
    var p := if j == 0 then n - 1 else j - 1;
    assert Linked(fd, bk, r, j) && Linked(fd, bk, r, p);
    assert b == r[p] && f == r[Next(j, n)];
    DropDistinct(r, j);
    var s := Drop(r, j);
    var fd', bk' := fd[b := f], bk[f := b];
    forall k | 0 <= k < |s| ensures Linked(fd', bk', s, k) {
      var k' := if k < j then k else k + 1;
      assert s[k] == r[k'];
      assert Linked(fd, bk, r, k');
      if k' != p {
        assert s[Next(k, |s|)] == r[Next(k', n)];
        assert r[k'] != b && r[Next(k', n)] != f;
      } else {
        assert s[Next(k, |s|)] == f;
      }
    }
  }

  function Rotate(r: seq<int>): seq<int>
    requires |r| > 0
  {
    [r[|r| - 1]] + r[..|r| - 1]
  }

  /** A ring may be spelled starting from its last node. */
  lemma RingRotate(fd: Ptrs, bk: Ptrs, r: seq<int>)
    requires Ring(fd, bk, r)
    ensures Ring(fd, bk, Rotate(r))
    ensures forall a :: a in Rotate(r) <==> a in r
  {
    var n, s := |r|, Rotate(r);
    forall i | 0 <= i < n ensures s[i] == r[if i == 0 then n - 1 else i - 1] {}
    forall a | a in r ensures a in s {
      var i :| 0 <= i < n && r[i] == a;
      assert s[Next(i, n)] == a;
    }
    forall k | 0 <= k < n ensures Linked(fd, bk, s, k) {
      var k' := if k == 0 then n - 1 else k - 1;
      assert Linked(fd, bk, r, k');
      assert s[Next(k, n)] == r[Next(k', n)];
    }
  }

  /** The neighbours of a member are members, and they are itself only in a ring of one. */
  lemma RingNeighbours(fd: Ptrs, bk: Ptrs, r: seq<int>, j: nat)
    requires Ring(fd, bk, r) && j < |r|
    ensures var f, b := At(fd, r[j]), At(bk, r[j]);
            && f in r && b in r && At(bk, f) == r[j] && At(fd, b) == r[j]
            && (f == r[j] <==> |r| == 1) && (b == r[j] <==> |r| == 1)
            && (f == b ==> |r| <= 2)
            && b == r[if j == 0 then |r| - 1 else j - 1] && f == r[Next(j, |r|)]
  {
    var p := if j == 0 then |r| - 1 else j - 1;
    assert Linked(fd, bk, r, j) && Linked(fd, bk, r, p);
  }
}
