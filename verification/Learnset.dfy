/**
 The four moves that a new Pokémon gets: a window on its level-up moves.
 */
module Learnset {
  import opened Common

  datatype LevelupMove = LevelupMove(level: int, move: nat)

  const SLOTS := 4
  const NO_MOVE := 0

  /** How many entries come before the first one above the level. */
  function Eligible(moves: seq<LevelupMove>, level: int): (k: nat)
    ensures k <= |moves|
    ensures forall i | 0 <= i < k :: moves[i].level <= level
    ensures k < |moves| ==> moves[k].level > level
  {
    if moves == [] || moves[0].level > level then 0 else 1 + Eligible(moves[1..], level)
  }

  /** Where the window starts, among `k` eligible entries of `n`. */
  function Start(k: nat, n: nat): nat
    requires 1 <= k <= n
  {
    if k == n then (if n > 4 then n - 4 else 0)
    else if k <= 4 then 0
    else k - 5
  }

  /** What ends up in the slots. */
  function DefaultMove(moves: seq<LevelupMove>, level: int, slot: nat): nat
    requires moves != [] ==> Eligible(moves, level) >= 1
    requires slot < SLOTS
  {
    if moves == [] then NO_MOVE
    else
      var k := Eligible(moves, level);
      if slot < Min(SLOTS, k) then moves[Start(k, |moves|) + slot].move else NO_MOVE
  }

  /** The window holds min(4, k) consecutive eligible entries. They are the last eligible ones
      exactly when the whole table is eligible or there are at most four; otherwise the window
      stops one short, and misses the move learned last. */
  lemma WindowIsLatestIff(k: nat, n: nat)
    requires 1 <= k <= n
    ensures Start(k, n) + Min(SLOTS, k) <= k
    ensures Start(k, n) + Min(SLOTS, k) == k <==> k == n || k <= 4
    ensures !(k == n || k <= 4) ==> Start(k, n) + Min(SLOTS, k) == k - 1
  {
  }

  /** With a table of six moves and a level that makes five of them eligible, the fifth is missed. */
  lemma LatestMoveMissed()
    ensures var moves := [LevelupMove(1, 10), LevelupMove(2, 20), LevelupMove(3, 30),
                          LevelupMove(4, 40), LevelupMove(5, 50), LevelupMove(9, 60)];
            && Eligible(moves, 5) == 5
            && (forall slot: nat | slot < SLOTS :: DefaultMove(moves, 5, slot) == moves[slot].move)
            && (forall slot: nat | slot < SLOTS :: DefaultMove(moves, 5, slot) != 50)
  {
    var moves := [LevelupMove(1, 10), LevelupMove(2, 20), LevelupMove(3, 30),
                  LevelupMove(4, 40), LevelupMove(5, 50), LevelupMove(9, 60)];
    EligibleIs(moves, 5, 5);
  }

  /** The moves that a Pokémon of some level gets, when exactly the first `k` entries of its table are
      within the level up to the first that is not: the last four of a table that is all within the
      level, all of up to four, and otherwise the four before the last of the `k`. */
  lemma DefaultMovesAre(moves: seq<LevelupMove>, level: int, k: nat, slot: nat)
    requires 1 <= k <= |moves| && slot < 4
    requires forall i | 0 <= i < k :: moves[i].level <= level
    requires k < |moves| ==> moves[k].level > level
    ensures moves[0].level <= level && Eligible(moves, level) == k
    ensures k <= 4 ==> DefaultMove(moves, level, slot) == if slot < k then moves[slot].move else 0
    ensures k > 4 && k == |moves| ==> DefaultMove(moves, level, slot) == moves[k - 4 + slot].move
    ensures k > 4 && k < |moves| ==> DefaultMove(moves, level, slot) == moves[k - 5 + slot].move
  {
    EligibleIs(moves, level, k);
  }

  lemma EligibleIs(moves: seq<LevelupMove>, level: int, k: nat)
    requires k <= |moves| && forall i | 0 <= i < k :: moves[i].level <= level
    requires k < |moves| ==> moves[k].level > level
    ensures Eligible(moves, level) == k
  {
  }
}
