/**
 The system's side of sbrk: a break with free memory above it.  Between calls to the allocator the
 break may have been moved anywhere; during one call nobody else moves it.
 */
module Sbrk {
  import opened Words
  import opened Segments
  import opened SysOps

  datatype Option<+T> = None | Some(value: T)

  /** No segment reaches into the room above the break. */
  predicate Spare(segs: seq<Segment>, brk: nat, room: nat) {
    room == 0 || forall i | 0 <= i < |segs| :: SegEnd(segs[i]) <= brk || brk + room <= segs[i].base
  }

  /** The system turns the next request down. */
  predicate Refuses(refusals: seq<bool>) { refusals != [] && refusals[0] }

  /** What the system will answer, now and later. */
  datatype Oracle = Oracle(brk: nat, room: nat, refusals: seq<bool>) {
    function Answered(): Oracle { this.(refusals := if refusals == [] then [] else refusals[1..]) }

    /** sbrk(n) for n >= 0 is granted; sbrk(0) always is. */
    predicate Grants(n: nat) { n == 0 || (n <= room && !Refuses(refusals)) }

    function Grown(n: nat): Oracle {
      if n == 0 then this
      else if Grants(n) then Answered().(brk := brk + n, room := room - n)
      else Answered()
    }

    /** sbrk(-n) is granted. */
    predicate TakesBack(n: nat) { n == 0 || (n < brk && !Refuses(refusals)) }

    function Shrunk(n: nat): Oracle {
      if n == 0 then this
      else if TakesBack(n) then Answered().(brk := brk - n, room := room + n) else Answered()
    }
  }

  class System {
    var brk: nat
    /** How far the break may rise. */
    var room: nat
    /** Requests the system turns down, in order; beyond the script none. */
    var refusals: seq<bool>

    function Now(): Oracle
      reads this
    {
      Oracle(brk, room, refusals)
    }

    constructor (start: nat, above: nat)
      ensures brk == start && room == above && refusals == []
    {
      brk, room, refusals := start, above, [];
    }

    /** The memory between the break and its limit belongs to nobody. */
    predicate Free(segs: seq<Segment>)
      reads this
    {
      && brk > 0 && brk + room <= MAX_SIZE_T
      && Spare(segs, brk, room)
    }

    method Answer() returns (no: bool)
      modifies this`refusals
      ensures no <==> Refuses(old(refusals))
      ensures Now() == old(Now()).Answered()
    {
      no := refusals != [] && refusals[0];
      if refusals != [] {
        refusals := refusals[1..];
      }
    }

    /** sbrk(n) for n >= 0; sbrk(0) always reports the break. */
    method Grow(n: nat) returns (r: Option<nat>)
      modifies this
      ensures r.Some? <==> n == 0 || (n <= old(room) && !Refuses(old(refusals)))
      ensures r.Some? ==> r.value == old(brk) && n <= old(room) && brk == old(brk) + n && room == old(room) - n
      ensures r.None? ==> brk == old(brk) && room == old(room)
      ensures Now() == old(Now()).Grown(n)
    {
      if n > 0 {
        var no := Answer();
        if no || n > room {
          return None;
        }
      }
      r := Some(brk);
      brk := brk + n;
      room := room - n;
    }

    /** sbrk(-n) for n >= 0 */
    method Shrink(n: nat) returns (r: Option<nat>)
      modifies this
      ensures r.Some? <==> n == 0 || (n < old(brk) && !Refuses(old(refusals)))
      ensures r.Some? ==> r.value == old(brk) && n <= old(brk) && brk == old(brk) - n && room == old(room) + n
      ensures r.None? ==> brk == old(brk) && room == old(room)
      ensures Now() == old(Now()).Shrunk(n)
    {
      if n > 0 {
        var no := Answer();
        if no || n >= brk {
          return None;
        }
      }
      r := Some(brk);
      brk := brk - n;
      room := room + n;
    }
  }
}
