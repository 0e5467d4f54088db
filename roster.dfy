/** Queries over the roster of players that the turn order depends on: how
    many are still in the game, who is first among them, and what "the next
    non-eliminated player in cyclic order" means. */
module Roster {
  import opened Cards

  /** The number of players not yet eliminated. */
  function CountActive(ps: seq<Player>): (n: nat)
    reads (set p | p in ps)`isEliminated
    ensures n <= |ps|
    decreases |ps|
  {
    if ps == [] then 0
    else (if ps[0].isEliminated then 0 else 1) + CountActive(ps[1..])
  }

  /** The roster position of the first player still in the game, or |ps| if there is none. */
  function FirstActive(ps: seq<Player>): (i: nat)
    reads (set p | p in ps)`isEliminated
    ensures i <= |ps|
    ensures i < |ps| ==> !ps[i].isEliminated
    ensures forall k :: 0 <= k < i ==> ps[k].isEliminated
    ensures i == |ps| <==> CountActive(ps) == 0
    decreases |ps|
  {
    if ps == [] then 0
    else if !ps[0].isEliminated then 0
    else
      assert forall k :: 1 <= k < |ps| ==> ps[k] == ps[1..][k - 1];
      1 + FirstActive(ps[1..])
  }

  /** The players still in the game, in roster order (the `Where(!IsEliminated)` filter). */
  function Active(ps: seq<Player>): (r: seq<Player>)
    reads (set p | p in ps)`isEliminated
    ensures |r| == CountActive(ps)
    ensures forall p :: p in r ==> p in ps && !p.isEliminated
    ensures forall k :: 0 <= k < |ps| && !ps[k].isEliminated ==> ps[k] in r
    ensures r != [] ==> r[0] == ps[FirstActive(ps)]
    decreases |ps|
  {
    if ps == [] then []
    else
      assert forall p :: p in ps[1..] ==> p in ps;
      assert forall k :: 1 <= k < |ps| ==> ps[k] == ps[1..][k - 1];
      (if ps[0].isEliminated then [] else [ps[0]]) + Active(ps[1..])
  }

  /** When exactly one player is left, that player is the first active one
      (seats are held by distinct players). */
  lemma SoleSurvivor(ps: seq<Player>, k: int)
    requires forall i, j :: 0 <= i < j < |ps| ==> ps[i] != ps[j]
    requires CountActive(ps) == 1
    requires 0 <= k < |ps| && !ps[k].isEliminated
    ensures k == FirstActive(ps)
  {
    var r := Active(ps);
    assert ps[k] in r;
    assert r == [r[0]];
  }

  lemma {:induction false} AllActiveCount(ps: seq<Player>)
    requires forall k :: 0 <= k < |ps| ==> !ps[k].isEliminated
    ensures CountActive(ps) == |ps|
    decreases |ps|
  {
    if ps != [] {
      assert forall k :: 0 <= k < |ps| - 1 ==> ps[1..][k] == ps[k + 1];
      AllActiveCount(ps[1..]);
    }
  }

  /** How many steps forward, wrapping around a roster of n seats, lead from seat `from` to seat k. */
  function CyclicDist(from: int, k: int, n: int): int
  {
    if from <= k then k - from else k - from + n
  }

  /** The seat after seat i at a table of n seats. */
  function NextSeat(i: int, n: int): int
  {
    if i + 1 < n then i + 1 else 0
  }

  /** The turn advance `(i + 1) % n` is the next seat. */
  lemma NextSeatIsMod(i: int, n: int)
    requires 0 <= i < n
    ensures (i + 1) % n == NextSeat(i, n)
  {
    if i + 1 == n {
      assert (i + 1) % n == 0;
    }
  }

  /** Taking one step from seat i brings every other seat one step closer. */
  lemma CyclicDistStep(i: int, j: int, n: int)
    requires 0 <= i < n && 0 <= j < n && i != j
    ensures CyclicDist(NextSeat(i, n), j, n) == CyclicDist(i, j, n) - 1
  {
  }

  /** Seat `to` is the first non-eliminated seat met when walking the roster
      cyclically from seat `from` (inclusive). */
  ghost predicate SkippedTo(ps: seq<Player>, from: int, to: int)
    reads (set p | p in ps)`isEliminated
  {
    && 0 <= from < |ps| && 0 <= to < |ps|
    && !ps[to].isEliminated
    && forall k :: 0 <= k < |ps| && CyclicDist(from, k, |ps|) < CyclicDist(from, to, |ps|) ==> ps[k].isEliminated
  }

  /** The next player in cyclic order is determined uniquely. */
  lemma SkippedToUnique(ps: seq<Player>, from: int, a: int, b: int)
    requires SkippedTo(ps, from, a) && SkippedTo(ps, from, b)
    ensures a == b
  {
    // distinct seats lie at distinct distances, and the nearer one would have to be eliminated
  }

  /** The player whose seat it is keeps the turn when still in the game. */
  lemma SkippedToActive(ps: seq<Player>, from: int, to: int)
    requires SkippedTo(ps, from, to) && !ps[from].isEliminated
    ensures to == from
  {
    assert SkippedTo(ps, from, from);
    SkippedToUnique(ps, from, from, to);
  }

  /** From an eliminated seat, the search continues at the next seat. */
  lemma SkippedToStep(ps: seq<Player>, i: int, to: int)
    requires 0 <= i < |ps| && ps[i].isEliminated
    requires SkippedTo(ps, NextSeat(i, |ps|), to)
    ensures SkippedTo(ps, i, to)
  {
    var n := |ps|;
    CyclicDistStep(i, to, n);
    forall k | 0 <= k < n && CyclicDist(i, k, n) < CyclicDist(i, to, n)
      ensures ps[k].isEliminated
    {
      if k != i {
        CyclicDistStep(i, k, n);
      }
    }
  }
}
