/**
 The locking discipline of LibPKMN. Every object derives from a lockable adapter
 over a recursive mutex, and a method takes its own object's mutex with a scoped
 guard before it calls into the objects below it.

 `Code` is what a call does to mutexes: a tree of scoped guards. A thread runs the
 flattened trace of its calls, and the machine below interleaves any number of
 threads over recursive mutexes that record an owner and a depth.
 */
module Locking {

  // ---------------------------------------------------------------- mutexes

  /** One mutex per object; `id` tells objects of one kind apart. `OwnPokemon` is the
      mutex of a Pokémon that no thread but its creator can reach yet: the result of a conversion,
      or a new member of a container whose own mutex the creator still holds. */
  datatype Lock =
    | Save(id: nat)
    | Bag(id: nat)
    | Pc(id: nat)
    | Items(id: nat)
    | Party(id: nat)
    | Box(id: nat)
    | Daycare(id: nat)
    | Pokemon(id: nat)
    | Pokedex(id: nat)
    | OwnPokemon(creator: nat, id: nat)

  /** The level of a shared object in the ownership hierarchy. */
  function Level(l: Lock): nat {
    match l
    case Save(_) => 0
    case Bag(_) => 1
    case Pc(_) => 1
    case Items(_) => 2
    case Party(_) => 2
    case Box(_) => 2
    case Daycare(_) => 2
    case Pokemon(_) => 3
    case Pokedex(_) => 4
    case OwnPokemon(_, _) => 5
  }

  datatype Code =
    | Done
    | Guard(lock: Lock, body: Code, next: Code)

  function Then(first: Code, second: Code): Code {
    match first
    case Done => second
    case Guard(l, body, next) => Guard(l, body, Then(next, second))
  }

  datatype Act = Acquire(lock: Lock) | Release(lock: Lock)

  function Trace(code: Code): seq<Act> {
    match code
    case Done => []
    case Guard(l, body, next) => [Acquire(l)] + Trace(body) + [Release(l)] + Trace(next)
  }

  // ---------------------------------------------------------------- the machine

  datatype Owner = Owner(thread: nat, depth: nat)

  /** `mutexes` holds the locked mutexes; `rest` is what each thread has still to do. */
  datatype State = State(mutexes: map<Lock, Owner>, rest: seq<seq<Act>>)

  predicate Finished(s: State) {
    forall t | 0 <= t < |s.rest| :: s.rest[t] == []
  }

  /** A recursive mutex can be taken when it is free or already the caller's. */
  predicate CanAct(mutexes: map<Lock, Owner>, t: nat, act: Act) {
    match act
    case Acquire(l) => l in mutexes ==> mutexes[l].thread == t
    case Release(l) => l in mutexes && mutexes[l].thread == t
  }

  function Acted(mutexes: map<Lock, Owner>, t: nat, act: Act): map<Lock, Owner>
    requires CanAct(mutexes, t, act)
  {
    match act
    case Acquire(l) => mutexes[l := Owner(t, if l in mutexes then mutexes[l].depth + 1 else 1)]
    case Release(l) => if mutexes[l].depth <= 1 then mutexes - {l}
                       else mutexes[l := Owner(t, mutexes[l].depth - 1)]
  }

  predicate Enabled(s: State, t: nat) {
    t < |s.rest| && s.rest[t] != [] && CanAct(s.mutexes, t, s.rest[t][0])
  }

  function Step(s: State, t: nat): State
    requires Enabled(s, t)
  {
    State(Acted(s.mutexes, t, s.rest[t][0]), s.rest[t := s.rest[t][1..]])
  }

  /** `s'` is reached from `s` when the scheduler picks the threads in `schedule`. */
  predicate Reaches(s: State, schedule: seq<nat>, s': State)
    decreases |schedule|
  {
    if schedule == [] then s == s'
    else Enabled(s, schedule[0]) && Reaches(Step(s, schedule[0]), schedule[1..], s')
  }

  // ---------------------------------------------------------------- the discipline

  predicate Foreign(t: nat, l: Lock) {
    l.OwnPokemon? && l.creator != t
  }

  /** Thread `t`, holding `held`, may take `l`: it holds `l` already, or `l` is an
      unpublished Pokémon of its own, or `l` is below every shared object it holds. */
  predicate MayTake(t: nat, held: seq<Lock>, l: Lock) {
    && !Foreign(t, l)
    && (|| l in held
        || l.OwnPokemon?
        || forall h | h in held && !h.OwnPokemon? :: Level(h) < Level(l))
  }

  predicate Disciplined(t: nat, held: seq<Lock>, code: Code)
    decreases code
  {
    match code
    case Done => true
    case Guard(l, body, next) =>
      MayTake(t, held, l) && Disciplined(t, held + [l], body) && Disciplined(t, held, next)
  }

  /** The same on traces: brackets match, nothing is held at the end. */
  predicate Proper(t: nat, held: seq<Lock>, rest: seq<Act>)
    decreases |rest|
  {
    if rest == [] then held == []
    else match rest[0]
      case Acquire(l) => MayTake(t, held, l) && Proper(t, held + [l], rest[1..])
      case Release(l) => held != [] && held[|held| - 1] == l && Proper(t, held[..|held| - 1], rest[1..])
  }

  lemma AcquireIsProper(t: nat, held: seq<Lock>, l: Lock, rest: seq<Act>)
    requires MayTake(t, held, l) && Proper(t, held + [l], rest)
    ensures Proper(t, held, [Acquire(l)] + rest)
  {
  }

  lemma ReleaseIsProper(t: nat, held: seq<Lock>, l: Lock, rest: seq<Act>)
    requires Proper(t, held, rest)
    ensures Proper(t, held + [l], [Release(l)] + rest)
  {
  }

  lemma {:induction false} TraceIsProper(t: nat, held: seq<Lock>, code: Code, rest: seq<Act>)
    requires Disciplined(t, held, code)
    requires Proper(t, held, rest)
    ensures Proper(t, held, Trace(code) + rest)
    decreases code
  {
    match code
    case Done =>
      assert Trace(code) + rest == rest;
    case Guard(l, body, next) =>
      var tail := Trace(next) + rest;
      var inner := [Release(l)] + tail;
      assert Trace(code) + rest == [Acquire(l)] + (Trace(body) + inner);
      TraceIsProper(t, held, next, rest);
      ReleaseIsProper(t, held, l, tail);
      TraceIsProper(t, held + [l], body, inner);
      AcquireIsProper(t, held, l, Trace(body) + inner);
  }

  // ---------------------------------------------------------------- the invariant

  /** `helds[t]` is the stack of guards open in thread `t`; the mutex table agrees with it. */
  ghost predicate Inv(s: State, helds: seq<seq<Lock>>) {
    && |helds| == |s.rest|
    && (forall t: nat | t < |helds| :: Proper(t, helds[t], s.rest[t]))
    && (forall t: nat, l | t < |helds| && l in helds[t] :: !Foreign(t, l))
    && (forall t: nat, l | t < |helds| :: multiset(helds[t])[l] == Depth(s, t, l))
    && (forall l | l in s.mutexes :: s.mutexes[l].thread < |helds| && s.mutexes[l].depth >= 1)
  }

  function Depth(s: State, t: nat, l: Lock): nat {
    if l in s.mutexes && s.mutexes[l].thread == t then s.mutexes[l].depth else 0
  }

  function HeldAfter(held: seq<Lock>, act: Act): seq<Lock> {
    match act
    case Acquire(l) => held + [l]
    case Release(l) => if held == [] then [] else held[..|held| - 1]
  }

  lemma HeldAfterCounts(held: seq<Lock>, act: Act, l: Lock)
    requires act.Release? ==> held != [] && held[|held| - 1] == act.lock
    ensures multiset(HeldAfter(held, act))[l] ==
            multiset(held)[l] + (if l != act.lock then 0 else if act.Acquire? then 1 else -1)
  {
    if act.Release? {
      assert held == HeldAfter(held, act) + [act.lock];
    }
  }

  lemma StepMovesDepth(s: State, t: nat, u: nat, l: Lock)
    requires Enabled(s, t)
    requires l in s.mutexes ==> s.mutexes[l].depth >= 1
    ensures Depth(Step(s, t), u, l) ==
            Depth(s, u, l) + (if u != t || l != s.rest[t][0].lock then 0
                              else if s.rest[t][0].Acquire? then 1 else -1)
  {
  }

  lemma StepKeepsInv(s: State, helds: seq<seq<Lock>>, t: nat) returns (helds': seq<seq<Lock>>)
    requires Inv(s, helds) && Enabled(s, t)
    ensures Inv(Step(s, t), helds')
  {
    var act := s.rest[t][0];
    var s' := Step(s, t);
    assert Proper(t, helds[t], s.rest[t]);
    helds' := helds[t := HeldAfter(helds[t], act)];
    forall u: nat, l | u < |helds'| ensures multiset(helds'[u])[l] == Depth(s', u, l) {
      assert multiset(helds[u])[l] == Depth(s, u, l);
      StepMovesDepth(s, t, u, l);
      HeldAfterCounts(helds[t], act, l);
    }
    forall u: nat, l | u < |helds'| && l in helds'[u] ensures !Foreign(u, l) {
      if u == t && l !in helds[t] {
        assert l == act.lock;
      }
    }
    forall l | l in s'.mutexes ensures s'.mutexes[l].thread < |helds'| && s'.mutexes[l].depth >= 1 {
    }
    forall u: nat | u < |helds'| ensures Proper(u, helds'[u], s'.rest[u]) {
      assert Proper(u, helds[u], s.rest[u]);
    }
  }

  /** A thread that cannot move waits for a mutex of another, unfinished thread, which it does
      not hold, and which is below all the shared objects it holds. */
  lemma Waits(s: State, helds: seq<seq<Lock>>, t: nat) returns (l: Lock, u: nat)
    requires Inv(s, helds) && t < |s.rest| && s.rest[t] != [] && !Enabled(s, t)
    ensures s.rest[t][0] == Acquire(l) && !l.OwnPokemon?
    ensures forall h | h in helds[t] && !h.OwnPokemon? :: Level(h) < Level(l)
    ensures u < |s.rest| && l in helds[u] && s.rest[u] != []
  {
    assert Proper(t, helds[t], s.rest[t]);
    l := s.rest[t][0].lock;
    assert multiset(helds[t])[l] == Depth(s, t, l);
    u := s.mutexes[l].thread;
    assert multiset(helds[u])[l] == Depth(s, u, l);
    assert l in helds[u];
    assert !Foreign(u, l) && !Foreign(t, l);
    assert Proper(u, helds[u], s.rest[u]);
  }

  /** Follow the waiting threads downwards: the level of the awaited mutex strictly grows, so
      some thread on the way can move. */
  lemma {:induction false} SomeoneMoves(s: State, helds: seq<seq<Lock>>, t: nat, level: int) returns (u: nat)
    requires Inv(s, helds) && t < |s.rest| && s.rest[t] != []
    requires -1 <= level
    requires level >= 0 ==> exists h :: h in helds[t] && !h.OwnPokemon? && Level(h) == level
    ensures Enabled(s, u)
    decreases 5 - level
  {
    if Enabled(s, t) {
      u := t;
    } else {
      var l, v := Waits(s, helds, t);
      u := SomeoneMoves(s, helds, v, Level(l));
    }
  }

  function Work(rest: seq<seq<Act>>): nat {
    if rest == [] then 0 else |rest[0]| + Work(rest[1..])
  }

  lemma {:induction false} WorkShrinks(rest: seq<seq<Act>>, t: nat)
    requires t < |rest| && rest[t] != []
    ensures Work(rest[t := rest[t][1..]]) == Work(rest) - 1
  {
    var rest' := rest[t := rest[t][1..]];
    if t == 0 {
      assert rest'[1..] == rest[1..];
    } else {
      WorkShrinks(rest[1..], t - 1);
      assert rest'[1..] == rest[1..][t - 1 := rest[1..][t - 1][1..]];
    }
  }

  lemma {:induction false} ReachesKeepsInv(s: State, helds: seq<seq<Lock>>, schedule: seq<nat>, s': State)
    returns (helds': seq<seq<Lock>>)
    requires Inv(s, helds) && Reaches(s, schedule, s')
    ensures Inv(s', helds')
    ensures |schedule| + Work(s'.rest) == Work(s.rest)
    decreases |schedule|
  {
    if schedule == [] {
      helds' := helds;
    } else {
      WorkShrinks(s.rest, schedule[0]);
      helds' := StepKeepsInv(s, helds, schedule[0]);
      helds' := ReachesKeepsInv(Step(s, schedule[0]), helds', schedule[1..], s');
    }
  }

  lemma FinishedIsFree(s: State, helds: seq<seq<Lock>>)
    requires Inv(s, helds) && Finished(s)
    ensures s.mutexes == map[]
  {
    forall t: nat | t < |helds| ensures helds[t] == [] {
      assert Proper(t, helds[t], s.rest[t]);
    }
    forall l ensures l !in s.mutexes {
      var t := if l in s.mutexes then s.mutexes[l].thread else 0;
      if t < |helds| {
        assert multiset(helds[t])[l] == Depth(s, t, l);
      }
    }
  }

  function Start(programs: seq<Code>): State {
    State(map[], seq(|programs|, t requires 0 <= t < |programs| => Trace(programs[t])))
  }

  /** Whatever disciplined code any number of threads run, under every schedule: some thread can
      move until all have finished, no schedule is longer than the code, and at the end every
      mutex is free. */
  lemma DisciplineIsDeadlockFree(programs: seq<Code>, schedule: seq<nat>, s: State)
    requires forall t: nat | t < |programs| :: Disciplined(t, [], programs[t])
    requires Reaches(Start(programs), schedule, s)
    ensures Finished(s) || exists t: nat :: Enabled(s, t)
    ensures Finished(s) ==> s.mutexes == map[]
    ensures |schedule| <= Work(Start(programs).rest)
  {
    var start := Start(programs);
    var helds := seq(|programs|, _ => []);
    forall t: nat | t < |programs| ensures Proper(t, helds[t], start.rest[t]) {
      TraceIsProper(t, [], programs[t], []);
      assert Trace(programs[t]) + [] == start.rest[t];
    }
    helds := ReachesKeepsInv(start, helds, schedule, s);
    if !Finished(s) {
      var t: nat :| t < |s.rest| && s.rest[t] != [];
      var u := SomeoneMoves(s, helds, t, -1);
    } else {
      FinishedIsFree(s, helds);
    }
  }
}
