/** StateReplayWrapper.tsx: the in-memory replay cursor. One mutable value,
    the shown half-move, starts at the game's total and moves only by jumps
    that land within [0, total]. */
module StateReplay {
  import Replay

  /** The jump guard: 0 <= n <= total. */
  predicate InRange(total: int, n: int) {
    0 <= n && n <= total
  }

  /** The cursor after replayMoveUpdate(n) from `current`. */
  function Next(total: int, current: int, n: int): int {
    if InRange(total, n) then n else current
  }

  /** The cursor after a sequence of jump requests, first to last. */
  function Run(total: int, current: int, requests: seq<int>): int
    decreases |requests|
  {
    if requests == [] then current
    else Run(total, Next(total, current, requests[0]), requests[1..])
  }

  /** A jump lands exactly on an in-range target and ignores any other:
      out-of-range targets are not clamped. A repeated jump changes nothing. */
  lemma NextLandsOrIgnores(total: int, current: int, n: int)
    ensures InRange(total, n) ==> Next(total, current, n) == n
    ensures !InRange(total, n) ==> Next(total, current, n) == current
    ensures Next(total, Next(total, current, n), n) == Next(total, current, n)
  {
  }

  /** From an in-range cursor, any sequence of jumps keeps it in range. */
  lemma {:induction false} RunStaysInRange(total: int, current: int, requests: seq<int>)
    requires InRange(total, current)
    ensures InRange(total, Run(total, current, requests))
    decreases |requests|
  {
    if requests != [] {
      RunStaysInRange(total, Next(total, current, requests[0]), requests[1..]);
    }
  }

  /** After a sequence of jumps the cursor is either where it started or the
      last in-range request; if the last request is in range, it is that. */
  lemma {:induction false} RunEndsOnLastInRange(total: int, current: int, requests: seq<int>)
    ensures var r := Run(total, current, requests);
            r == current || (r in requests && InRange(total, r))
    ensures requests != [] && InRange(total, requests[|requests| - 1])
            ==> Run(total, current, requests) == requests[|requests| - 1]
    decreases |requests|
  {
    if requests != [] {
      var rest := requests[1..];
      RunEndsOnLastInRange(total, Next(total, current, requests[0]), rest);
      if rest != [] {
        assert rest[|rest| - 1] == requests[|requests| - 1];
      }
    }
  }

  /** The URL cursor's in-bounds test is this one with the lower bound
      raised to 2: they disagree exactly on half-moves 0 and 1. */
  lemma BoundsDifferAtZeroAndOne(total: int, n: int)
    ensures Replay.MoveInbounds(total, n) ==> InRange(total, n)
    ensures InRange(total, n) && !Replay.MoveInbounds(total, n) <==> (n == 0 || n == 1) && n <= total
  {
  }

  class ReplayCursor {
    /** Derived once from the game; never reassigned. */
    const total: int
    var currentHalfMove: int

    /** With a non-negative total, the cursor stays within [0, total]. */
    ghost predicate Valid()
      reads this
    {
      total >= 0 ==> InRange(total, currentHalfMove)
    }

    /** The cursor starts at the last half-move. */
    constructor (totalHalfMoves: int)
      ensures total == totalHalfMoves && currentHalfMove == totalHalfMoves
      ensures Valid()
    {
      total := totalHalfMoves;
      currentHalfMove := totalHalfMoves;
    }

    /** replayMoveUpdate: jump only to an in-range half-move. */
    method ReplayMoveUpdate(newHalfMove: int)
      requires Valid()
      modifies this
      ensures Valid()
      ensures currentHalfMove == Next(total, old(currentHalfMove), newHalfMove)
    {
      if newHalfMove >= 0 && newHalfMove <= total {
        currentHalfMove := newHalfMove;
      }
    }
  }
}
