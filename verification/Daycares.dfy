/**
 Generation II daycares lock two Pokémon at once, in no fixed order: two of them deadlock.
 */
module Daycares {
  import opened Common
  import opened Locking
  import opened LibraryCalls

  predicate Plays(mutexes: map<Lock, Owner>, t: nat, acts: seq<Act>)
    decreases |acts|
  {
    acts == [] || (CanAct(mutexes, t, acts[0]) && Plays(Acted(mutexes, t, acts[0]), t, acts[1..]))
  }

  function Played(mutexes: map<Lock, Owner>, t: nat, acts: seq<Act>): map<Lock, Owner>
    requires Plays(mutexes, t, acts)
    decreases |acts|
  {
    if acts == [] then mutexes else Played(Acted(mutexes, t, acts[0]), t, acts[1..])
  }

  /** What a thread can play alone, a schedule of that thread alone reaches. */
  lemma {:induction false} PlayedIsReached(s: State, t: nat, acts: seq<Act>, rest: seq<Act>, s': State)
    returns (schedule: seq<nat>)
    requires t < |s.rest| && s.rest[t] == acts + rest && Plays(s.mutexes, t, acts)
    requires s' == State(Played(s.mutexes, t, acts), s.rest[t := rest])
    ensures Reaches(s, schedule, s')
    decreases |acts|
  {
    if acts == [] {
      schedule := [];
      assert acts + rest == rest && s.rest[t := rest] == s.rest;
    } else {
      assert s.rest[t][0] == acts[0] && s.rest[t][1..] == acts[1..] + rest;
      assert Step(s, t).rest[t := rest] == s.rest[t := rest];
      var later := PlayedIsReached(Step(s, t), t, acts[1..], rest, s');
      schedule := [t] + later;
      assert schedule[1..] == later;
    }
  }

  lemma {:induction false} ReachesThen(s: State, a: seq<nat>, s1: State, b: seq<nat>, s2: State)
    requires Reaches(s, a, s1) && Reaches(s1, b, s2)
    ensures Reaches(s, a + b, s2)
    decreases |a|
  {
    if a == [] {
      assert a + b == b;
    } else {
      assert (a + b)[0] == a[0] && (a + b)[1..] == a[1..] + b;
      ReachesThen(Step(s, a[0]), a[1..], s1, b, s2);
    }
  }

  lemma {:induction false} PlaysConcat(mutexes: map<Lock, Owner>, t: nat, a: seq<Act>, b: seq<Act>)
    requires Plays(mutexes, t, a) && Plays(Played(mutexes, t, a), t, b)
    ensures Plays(mutexes, t, a + b)
    ensures Played(mutexes, t, a + b) == Played(Played(mutexes, t, a), t, b)
    decreases |a|
  {
    if a == [] {
      assert a + b == b;
    } else {
      assert (a + b)[0] == a[0] && (a + b)[1..] == a[1..] + b;
      PlaysConcat(Acted(mutexes, t, a[0]), t, a[1..], b);
    }
  }

  lemma {:induction false} TraceOfThen(a: Code, b: Code)
    ensures Trace(Then(a, b)) == Trace(a) + Trace(b)
    decreases a
  {
    match a
    case Done =>
    case Guard(l, body, next) => TraceOfThen(next, b);
  }

  lemma {:induction false} GettersPlay(mutexes: map<Lock, Owner>, t: nat, l: Lock, n: nat)
    requires l in mutexes ==> mutexes[l].thread == t && mutexes[l].depth >= 1
    ensures Plays(mutexes, t, Trace(Times(Getter(l), n)))
    ensures Played(mutexes, t, Trace(Times(Getter(l), n))) == mutexes
  {
    if n == 0 {
    } else {
      TraceOfThen(Getter(l), Times(Getter(l), n - 1));
      var once := [Acquire(l), Release(l)];
      assert Trace(Getter(l)) == once;
      assert once[1..] == [Release(l)] && once[1..][1..] == [];
      var taken := Acted(mutexes, t, Acquire(l));
      assert Acted(taken, t, Release(l)) == mutexes;
      assert Plays(taken, t, [Release(l)]) && Played(taken, t, [Release(l)]) == mutexes;
      GettersPlay(mutexes, t, l, n - 1);
      PlaysConcat(mutexes, t, once, Trace(Times(Getter(l), n - 1)));
    }
  }

  /** A Generation II placement of Pokémon `x` into the second place of a daycare with `y` in the
      first. */
  function Disorderly(daycare: nat, x: nat, y: nat): Call {
    PlaceInDaycare(daycare, Placing(x, false, 1, None, false, false), Some(y), false)
  }

  lemma PlaysOne(mutexes: map<Lock, Owner>, t: nat, act: Act)
    requires CanAct(mutexes, t, act)
    ensures Plays(mutexes, t, [act]) && Played(mutexes, t, [act]) == Acted(mutexes, t, act)
  {
    assert [act][1..] == [];
  }

  lemma SelfPlays(mutexes: map<Lock, Owner>, t: nat, l: Lock)
    requires l in mutexes ==> mutexes[l].thread == t && mutexes[l].depth >= 1
    ensures Plays(mutexes, t, Trace(Getter(l))) && Played(mutexes, t, Trace(Getter(l))) == mutexes
  {
    GettersPlay(mutexes, t, l, 1);
    TraceOfThen(Getter(l), Done);
  }

  /** What it does until it asks for `y`. */
  function Approach(t: nat, daycare: nat, x: nat): seq<Act> {
    [Acquire(Daycare(daycare))] + Trace(Getter(Pokemon(x))) + [Acquire(Pokemon(x))]
    + (Trace(Getter(Pokemon(x)))
       + (Trace(Times(Getter(Pokemon(x)), 1)) + Trace(Times(Getter(MemberLock(t)), 2))))
  }

  lemma ResidentsTrace(t: nat, y: nat) returns (tail: seq<Act>)
    ensures Trace(ResidentsCode(t, Some(y), false)) == [Acquire(Pokemon(y))] + tail
  {
    TraceOfThen(Getter(Pokemon(y)), Getter(MemberLock(t)));
    tail := [Release(Pokemon(y))] + Trace(Getter(MemberLock(t)));
    assert Trace(Getter(Pokemon(y))) == [Acquire(Pokemon(y)), Release(Pokemon(y))];
  }

  lemma InnerTrace(t: nat, p: Placing, residents: Code)
    requires !p.foreign && p.names == 1
    ensures var self := Getter(Pokemon(p.pokemon));
            Trace(Then(self, Then(NamingCode(t, p), residents)))
            == (Trace(self) + (Trace(Times(self, 1)) + Trace(Times(Getter(MemberLock(t)), 2)))) + Trace(residents)
  {
    var self := Getter(Pokemon(p.pokemon));
    TraceOfThen(Times(self, 1), Times(Getter(MemberLock(t)), 2));
    TraceOfThen(NamingCode(t, p), residents);
    TraceOfThen(self, Then(NamingCode(t, p), residents));
  }

  lemma Regrouped<T>(d: T, self: seq<T>, x: T, under: seq<T>, asked: seq<T>, tail: seq<T>, x': T, d': T)
    ensures [d] + (self + ([x] + (under + (asked + tail)) + [x'])) + [d']
            == ([d] + self + [x] + under) + (asked + (tail + [x'] + [d']))
  {
  }

  lemma ApproachIsPrefix(t: nat, daycare: nat, x: nat, y: nat) returns (rest: seq<Act>)
    ensures Trace(CallCode(t, Disorderly(daycare, x, y))) == Approach(t, daycare, x) + ([Acquire(Pokemon(y))] + rest)
  {
    var d, p := Daycare(daycare), Disorderly(daycare, x, y).placing;
    var self := Getter(Pokemon(x));
    var residents := ResidentsCode(t, Some(y), false);
    var inner := Then(self, Then(NamingCode(t, p), residents));
    var tail := ResidentsTrace(t, y);
    InnerTrace(t, p, residents);
    TraceOfThen(self, Holding(Pokemon(x), inner));
    rest := tail + [Release(Pokemon(x))] + [Release(d)];
    Regrouped(Acquire(d), Trace(self), Acquire(Pokemon(x)),
              Trace(self) + (Trace(Times(self, 1)) + Trace(Times(Getter(MemberLock(t)), 2))),
              [Acquire(Pokemon(y))], tail, Release(Pokemon(x)), Release(d));
    assert Trace(Holding(Pokemon(x), inner)) == [Acquire(Pokemon(x))] + Trace(inner) + [Release(Pokemon(x))];
    assert CallCode(t, Disorderly(daycare, x, y)) == Holding(d, Then(self, Holding(Pokemon(x), inner)));
  }

  /** Alone, it gets as far as holding the daycare and `x`. */
  lemma ApproachPlays(mutexes: map<Lock, Owner>, t: nat, daycare: nat, x: nat)
    requires Daycare(daycare) !in mutexes && Pokemon(x) !in mutexes && MemberLock(t) !in mutexes
    ensures Plays(mutexes, t, Approach(t, daycare, x))
    ensures Played(mutexes, t, Approach(t, daycare, x))
            == mutexes[Daycare(daycare) := Owner(t, 1)][Pokemon(x) := Owner(t, 1)]
  {
    var d, self := Daycare(daycare), Trace(Getter(Pokemon(x)));
    var naming, member := Trace(Times(Getter(Pokemon(x)), 1)), Trace(Times(Getter(MemberLock(t)), 2));
    var m1 := mutexes[d := Owner(t, 1)];
    var m2 := m1[Pokemon(x) := Owner(t, 1)];
    PlaysOne(mutexes, t, Acquire(d));
    SelfPlays(m1, t, Pokemon(x));
    PlaysConcat(mutexes, t, [Acquire(d)], self);
    PlaysOne(m1, t, Acquire(Pokemon(x)));
    PlaysConcat(mutexes, t, [Acquire(d)] + self, [Acquire(Pokemon(x))]);
    SelfPlays(m2, t, Pokemon(x));
    GettersPlay(m2, t, Pokemon(x), 1);
    GettersPlay(m2, t, MemberLock(t), 2);
    PlaysConcat(m2, t, naming, member);
    PlaysConcat(m2, t, self, naming + member);
    PlaysConcat(mutexes, t, [Acquire(d)] + self + [Acquire(Pokemon(x))], self + (naming + member));
  }

  lemma StartOfTwo(p: Code, q: Code)
    ensures Start([p, q]) == State(map[], [Trace(p), Trace(q)])
  {
  }

  /** Two threads, one after the other, each as far as it can play. */
  lemma BothPlay(acts0: seq<Act>, rest0: seq<Act>, acts1: seq<Act>, rest1: seq<Act>) returns (schedule: seq<nat>)
    requires Plays(map[], 0, acts0) && Plays(Played(map[], 0, acts0), 1, acts1)
    ensures Reaches(State(map[], [acts0 + rest0, acts1 + rest1]), schedule,
                    State(Played(Played(map[], 0, acts0), 1, acts1), [rest0, rest1]))
  {
    var s0 := State(map[], [acts0 + rest0, acts1 + rest1]);
    var s1 := State(Played(map[], 0, acts0), [rest0, acts1 + rest1]);
    var s2 := State(Played(s1.mutexes, 1, acts1), [rest0, rest1]);
    var a := PlayedIsReached(s0, 0, acts0, rest0, s1);
    var b := PlayedIsReached(s1, 1, acts1, rest1, s2);
    ReachesThen(s0, a, s1, b, s2);
    schedule := a + b;
  }

  /** Orderliness is needed: any two daycares deadlock when each is given the Pokémon that lives in
      the other. */
  lemma DaycaresDeadlock(d: nat, e: nat, x: nat, y: nat) returns (schedule: seq<nat>, s: State)
    requires d != e && x != y
    ensures Reaches(Start([CallCode(0, Disorderly(d, x, y)), CallCode(1, Disorderly(e, y, x))]), schedule, s)
    ensures !Finished(s) && forall t: nat :: !Enabled(s, t)
  {
    var rest0 := ApproachIsPrefix(0, d, x, y);
    var rest1 := ApproachIsPrefix(1, e, y, x);
    ApproachPlays(map[], 0, d, x);
    var held := Played(map[], 0, Approach(0, d, x));
    ApproachPlays(held, 1, e, y);
    var asks0, asks1 := [Acquire(Pokemon(y))] + rest0, [Acquire(Pokemon(x))] + rest1;
    StartOfTwo(CallCode(0, Disorderly(d, x, y)), CallCode(1, Disorderly(e, y, x)));
    schedule := BothPlay(Approach(0, d, x), asks0, Approach(1, e, y), asks1);
    s := State(Played(held, 1, Approach(1, e, y)), [asks0, asks1]);
    assert s.rest[0][0] == Acquire(Pokemon(y)) && s.rest[1][0] == Acquire(Pokemon(x));
  }
}
