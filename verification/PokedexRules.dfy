/** What the calls do to the two sets of species. */
module PokedexRules {
  datatype Dex = Dex(seen: set<nat>, caught: set<nat>)

  datatype Op = SetSeen(species: nat, value: bool) | SetCaught(species: nat, value: bool)

  function Apply(dex: Dex, op: Op): Dex {
    match op
    case SetSeen(x, true) => dex.(seen := dex.seen + {x})
    case SetSeen(x, false) => Dex(dex.seen - {x}, dex.caught - {x})
    case SetCaught(x, true) => Dex(dex.seen + {x}, dex.caught + {x})
    case SetCaught(x, false) => dex.(caught := dex.caught - {x})
  }

  function Run(dex: Dex, ops: seq<Op>): Dex
    decreases |ops|
  {
    if ops == [] then dex else Run(Apply(dex, ops[0]), ops[1..])
  }

  /** Nothing caught that was not seen. */
  predicate Coherent(dex: Dex) {
    dex.caught <= dex.seen
  }

  predicate Names(ops: seq<Op>, x: nat) {
    exists i | 0 <= i < |ops| :: ops[i].species == x
  }

  lemma NamesHead(ops: seq<Op>, x: nat)
    requires ops != []
    ensures Names(ops, x) <==> ops[0].species == x || Names(ops[1..], x)
  {
  }

  /** Any run keeps a coherent Pokédex coherent. From native memory that holds a species caught
      but not seen, it becomes coherent exactly when the run names every such species. */
  lemma {:induction false} RunIsCoherentIff(dex: Dex, ops: seq<Op>)
    ensures Coherent(Run(dex, ops)) <==> forall x | x in dex.caught - dex.seen :: Names(ops, x)
    decreases |ops|
  {
    if ops == [] {
      if x :| x in dex.caught && x !in dex.seen {
        assert x in dex.caught - dex.seen && !Names(ops, x);
      }
    } else {
      var next := Apply(dex, ops[0]);
      RunIsCoherentIff(next, ops[1..]);
      assert next.caught - next.seen == dex.caught - dex.seen - {ops[0].species};
      forall x {
        NamesHead(ops, x);
      }
    }
  }

  /** The last call of a run that decides whether `x` is seen: `set_has_seen`, or catching it. */
  function LastSeen(ops: seq<Op>, x: nat, start: bool): bool {
    if ops == [] then start
    else
      var last := ops[|ops| - 1];
      if last.species == x && (last.SetSeen? || last.value) then last.value
      else LastSeen(ops[..|ops| - 1], x, start)
  }

  function LastCaught(ops: seq<Op>, x: nat, start: bool): bool {
    if ops == [] then start
    else
      var last := ops[|ops| - 1];
      if last.species == x && (last.SetCaught? || !last.value) then last.value
      else LastCaught(ops[..|ops| - 1], x, start)
  }

  lemma {:induction false} RunSplits(dex: Dex, ops: seq<Op>)
    requires ops != []
    ensures Run(dex, ops) == Apply(Run(dex, ops[..|ops| - 1]), ops[|ops| - 1])
    decreases |ops|
  {
    if |ops| == 1 {
    } else {
      RunSplits(Apply(dex, ops[0]), ops[1..]);
      assert ops[1..][..|ops| - 2] == ops[..|ops| - 1][1..];
    }
  }

  /** The outcome of a run, species by species: the last call that decides wins. */
  lemma {:induction false} RunIsLastWrite(dex: Dex, ops: seq<Op>, x: nat)
    ensures x in Run(dex, ops).seen <==> LastSeen(ops, x, x in dex.seen)
    ensures x in Run(dex, ops).caught <==> LastCaught(ops, x, x in dex.caught)
  {
    if ops == [] {
    } else {
      RunSplits(dex, ops);
      RunIsLastWrite(dex, ops[..|ops| - 1], x);
    }
  }

  predicate Unsees(op: Op, x: nat) {
    op == SetSeen(x, false)
  }

  /** Both setters clear the caught bit when they clear theirs. */
  predicate Uncatches(op: Op, x: nat) {
    op == SetSeen(x, false) || op == SetCaught(x, false)
  }

  /** No call of the run from position `i` on makes `x` unseen. */
  predicate StaysSeen(ops: seq<Op>, x: nat, i: nat) {
    forall j | i <= j < |ops| :: !Unsees(ops[j], x)
  }

  predicate StaysCaught(ops: seq<Op>, x: nat, i: nat) {
    forall j | i <= j < |ops| :: !Uncatches(ops[j], x)
  }

  /** A species is seen after a run exactly if it was seen before or a call saw or caught it, and none
      after that made it unseen; it is caught exactly if it was or a call caught it, and none after
      that made it uncaught or unseen. */
  lemma {:induction false} RunIsDecided(dex: Dex, ops: seq<Op>, x: nat)
    ensures x in Run(dex, ops).seen <==>
            || (x in dex.seen && StaysSeen(ops, x, 0))
            || exists i | 0 <= i < |ops| :: ops[i] in {SetSeen(x, true), SetCaught(x, true)} && StaysSeen(ops, x, i + 1)
    ensures x in Run(dex, ops).caught <==>
            || (x in dex.caught && StaysCaught(ops, x, 0))
            || exists i | 0 <= i < |ops| :: ops[i] == SetCaught(x, true) && StaysCaught(ops, x, i + 1)
  {
    if ops == [] {
    } else {
      var front, last := ops[..|ops| - 1], ops[|ops| - 1];
      RunSplits(dex, ops);
      RunIsDecided(dex, front, x);
      assert forall i: nat | i <= |front| :: StaysSeen(ops, x, i) <==> StaysSeen(front, x, i) && !Unsees(last, x);
      assert forall i: nat | i <= |front| ::
          StaysCaught(ops, x, i) <==> StaysCaught(front, x, i) && !Uncatches(last, x);
      assert StaysSeen(ops, x, |ops|) && StaysCaught(ops, x, |ops|);
      assert forall i | 0 <= i < |front| :: ops[i] == front[i];
    }
  }
}
