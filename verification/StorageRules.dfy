/**
 Parties and boxes of packed Pokémon, and the Pokédex that records what is put into them:
 what one placement does, and what any run of placements leaves.
 */
module StorageRules {
  import opened Common
  import opened Words
  import opened PokedexRules

  /** The packed structure: its species index (0 for none), its egg bit, its personality and the
      rest. */
  datatype Packed = Packed(index: nat, egg: bool, personality: Word, data: nat)

  const VACANT := Packed(0, false, ZeroWord(), 0)
  const PARTY_SIZE := 6

  /** A Pokémon as its accessors show it; species 0 is "none". */
  datatype Pokemon = Pokemon(game: nat, species: nat, egg: bool, packed: Packed)

  /** The database (species by index); what an object makes of its copy of packed data (an Unown has
      its personality rewritten); and the conversion between games, which may be refused. */
  datatype World = World(
    game: nat,
    speciesAt: nat -> nat,
    settled: Packed -> Packed,
    convert: (Packed, nat) -> Option<Packed>)

  /** The structure that is copied in: the Pokémon's own, or the converted one. */
  function Actual(w: World, p: Pokemon): Option<Packed> {
    if p.game == w.game then Some(p.packed) else w.convert(p.packed, p.game)
  }

  // ---------------------------------------------------------------- the party

  datatype Party = Party(slots: seq<Packed>, count: int)

  datatype Placed<S> = Placed(state: S, outcome: Outcome)

  /** `set_pokemon`, given the count it read before it took the lock. */
  function PlaceSeeing(w: World, num: int, s: Party, at: int, p: Pokemon): Placed<Party>
    requires |s.slots| == PARTY_SIZE
  {
    if !(0 <= at <= Min(PARTY_SIZE - 1, num)) then Placed(s, OutOfRange)
    else if at < num - 1 && p.species == 0 then Placed(s, InvalidArgument)
    else match Actual(w, p)
      case None => Placed(s, CannotConvert)
      case Some(packed) =>
        var change := if at == num && packed.index > 0 && p.species != 0 then 1
                      else if at == num - 1 && packed.index == 0 && p.species == 0 then -1
                      else 0;
        Placed(Party(s.slots[at := packed], s.count + change), Success)
  }

  function Place(w: World, s: Party, at: int, p: Pokemon): Placed<Party>
    requires |s.slots| == PARTY_SIZE
  {
    PlaceSeeing(w, s.count, s, at, p)
  }

  /** No gaps: the slots below the count are taken, the others vacant. */
  predicate Contiguous(s: Party) {
    && |s.slots| == PARTY_SIZE
    && 0 <= s.count <= PARTY_SIZE
    && forall i | 0 <= i < PARTY_SIZE :: s.slots[i].index > 0 <==> i < s.count
  }

  /** A placement keeps the party contiguous exactly when it is refused or what it copies in is
      vacant or taken as the Pokémon's species says, in the direction that matters there. */
  lemma PlaceKeepsContiguousIff(w: World, s: Party, at: int, p: Pokemon)
    requires Contiguous(s)
    ensures Contiguous(Place(w, s, at, p).state) <==>
            || Place(w, s, at, p).outcome != Success
            || if at == s.count then p.species == 0 ==> Actual(w, p).value.index == 0
               else Actual(w, p).value.index == 0 ==> p.species == 0
  {
    var r := Place(w, s, at, p);
    if r.outcome == Success {
      assert r.state.slots[at] == Actual(w, p).value;
    }
  }

  /** Loading clears what lies past the count. The native count is an unsigned 32-bit field that
      is read as a signed one. */
  type Word32 = n: int | 0 <= n < 0x1_0000_0000

  function SignedCount(native: Word32): int {
    if native < 0x8000_0000 then native else native - 0x1_0000_0000
  }

  function LoadedSlot(slot: Packed, i: int, num: int): Packed {
    if i >= num && slot.index > 0 then VACANT else slot
  }

  function Load(slots: seq<Packed>, native: Word32): (s: Party)
    requires |slots| == PARTY_SIZE
    ensures |s.slots| == PARTY_SIZE
  {
    var num := SignedCount(native);
    Party(seq(PARTY_SIZE, i requires 0 <= i < PARTY_SIZE => LoadedSlot(slots[i], i, num)), num)
  }

  lemma LoadIsContiguousIff(slots: seq<Packed>, native: Word32)
    requires |slots| == PARTY_SIZE
    ensures Contiguous(Load(slots, native)) <==>
            var num := SignedCount(native);
            0 <= num <= PARTY_SIZE && forall i | 0 <= i < num :: slots[i].index > 0
  {
    var num := SignedCount(native);
    forall i | 0 <= i < PARTY_SIZE
      ensures Load(slots, native).slots[i].index > 0 <==> i < num && slots[i].index > 0
    {
    }
  }

  /** The GameCube party counts the taken slots instead. */
  function TakenCount(slots: seq<Packed>): nat {
    if slots == [] then 0
    else TakenCount(slots[..|slots| - 1]) + (if slots[|slots| - 1].index > 0 then 1 else 0)
  }

  function TakenSlots(slots: seq<Packed>): set<nat> {
    set i | 0 <= i < |slots| && slots[i].index > 0
  }

  /** What is counted is the number of slots with a species index. */
  lemma {:induction false} TakenCountIsSize(slots: seq<Packed>)
    ensures TakenCount(slots) == |TakenSlots(slots)|
  {
    if slots == [] {
      assert TakenSlots(slots) == {};
    } else {
      var last := |slots| - 1;
      var front := slots[..last];
      TakenCountIsSize(front);
      assert forall i | 0 <= i < last :: front[i] == slots[i];
      assert TakenSlots(slots) == TakenSlots(front) + if slots[last].index > 0 then {last} else {};
      assert last !in TakenSlots(front);
    }
  }

  lemma {:induction false} TakenCountBounds(slots: seq<Packed>)
    ensures TakenCount(slots) <= |slots|
    ensures TakenCount(slots) == |slots| <==> forall i | 0 <= i < |slots| :: slots[i].index > 0
    ensures (forall i | 0 <= i < |slots| :: slots[i].index > 0 <==> i < TakenCount(slots))
            <==> forall i, j | 0 <= i < j < |slots| :: slots[j].index > 0 ==> slots[i].index > 0
  {
    if slots == [] {
    } else {
      var front := slots[..|slots| - 1];
      TakenCountBounds(front);
      assert forall i | 0 <= i < |front| :: front[i] == slots[i];
    }
  }

  /** Counting gives a contiguous party exactly when the native slots have no gap. */
  lemma CountedLoadIsContiguousIff(slots: seq<Packed>)
    requires |slots| == PARTY_SIZE
    ensures Contiguous(Party(slots, TakenCount(slots))) <==>
            forall i, j | 0 <= i < j < PARTY_SIZE :: slots[j].index > 0 ==> slots[i].index > 0
  {
    TakenCountBounds(slots);
  }

  /** `set_pokemon` checks against a count read before it takes the lock. If another thread has
      changed the party meanwhile, the placement keeps it contiguous in exactly these cases. */
  lemma StaleCountIsHarmlessIff(w: World, seen: int, s: Party, at: int, p: Pokemon)
    requires Contiguous(s) && Genuine(w, p)
    requires PlaceSeeing(w, seen, s, at, p).outcome == Success
    ensures Contiguous(PlaceSeeing(w, seen, s, at, p).state) <==>
            if p.species != 0 then if at == seen then at == s.count else at < s.count
            else if at == seen then at >= s.count else at == s.count - 1
  {
    var r := PlaceSeeing(w, seen, s, at, p);
    assert r.state.slots[at] == Actual(w, p).value;
    assert s.slots[at].index > 0 <==> at < s.count;
    if s.count < PARTY_SIZE {
      assert r.state.slots[s.count].index > 0 ==> at == s.count;
    }
    if s.count > 0 {
      assert r.state.slots[s.count - 1].index == 0 ==> at == s.count - 1;
    }
  }

  // ---------------------------------------------------------------- writing objects back

  /** Objects settle their own copies; the slots take them over when the native data is asked for. */
  function AllSettled(w: World, slots: seq<Packed>): (settled: seq<Packed>)
    ensures |settled| == |slots| && forall i | 0 <= i < |slots| :: settled[i] == w.settled(slots[i])
  {
    seq(|slots|, i requires 0 <= i < |slots| => w.settled(slots[i]))
  }

  /** Settling keeps the species index and the egg bit, and what is settled stays as it is. */
  ghost predicate Settles(w: World) {
    forall packed ::
      w.settled(packed).index == packed.index && w.settled(packed).egg == packed.egg
      && w.settled(w.settled(packed)) == w.settled(packed)
  }

  /** Writing back keeps a party as contiguous as it was, and doing it twice is doing it once. */
  lemma WritingBackKeepsContiguous(w: World, s: Party)
    requires Settles(w)
    ensures Contiguous(s.(slots := AllSettled(w, s.slots))) <==> Contiguous(s)
    ensures AllSettled(w, AllSettled(w, s.slots)) == AllSettled(w, s.slots)
  {
    var settled := AllSettled(w, s.slots);
    assert forall i | 0 <= i < |s.slots| :: settled[i].index == s.slots[i].index;
  }

  // ---------------------------------------------------------------- boxes

  /** `self` says that the Pokémon object is the one already in that slot of the box. */
  function PlaceInBox(w: World, slots: seq<Packed>, at: int, p: Pokemon, self: bool): Placed<seq<Packed>> {
    if !(0 <= at < |slots|) then Placed(slots, OutOfRange)
    else if self then Placed(slots, InvalidArgument)
    else match Actual(w, p)
      case None => Placed(slots, CannotConvert)
      case Some(packed) => Placed(slots[at := packed], Success)
  }

  // ---------------------------------------------------------------- one save

  /** A save's party, its boxes and the Pokédex they share. */
  datatype Save = Save(party: Party, boxes: seq<seq<Packed>>, dex: Dex)

  datatype Step =
    | ToParty(at: int, pokemon: Pokemon)
    | ToBox(box: nat, at: int, pokemon: Pokemon, self: bool)

  predicate Counts(p: Pokemon) {
    p.species != 0 && !p.egg
  }

  function Record(dex: Dex, p: Pokemon): Dex {
    if Counts(p) then PokedexRules.Run(dex, [SetSeen(p.species, true), SetCaught(p.species, true)]) else dex
  }

  predicate WellFormed(s: Save) {
    |s.party.slots| == PARTY_SIZE
  }

  predicate Addressed(s: Save, step: Step) {
    step.ToBox? ==> step.box < |s.boxes|
  }

  function OutcomeOf(w: World, s: Save, step: Step): Outcome
    requires WellFormed(s) && Addressed(s, step)
  {
    match step
    case ToParty(at, p) => Place(w, s.party, at, p).outcome
    case ToBox(box, at, p, self) => PlaceInBox(w, s.boxes[box], at, p, self).outcome
  }

  function Apply(w: World, s: Save, step: Step): (s': Save)
    requires WellFormed(s) && Addressed(s, step)
    ensures WellFormed(s') && |s'.boxes| == |s.boxes|
  {
    var dex := if OutcomeOf(w, s, step) == Success then Record(s.dex, step.pokemon) else s.dex;
    match step
    case ToParty(at, p) => s.(party := Place(w, s.party, at, p).state, dex := dex)
    case ToBox(box, at, p, self) =>
      s.(boxes := s.boxes[box := PlaceInBox(w, s.boxes[box], at, p, self).state], dex := dex)
  }

  predicate AllAddressed(s: Save, steps: seq<Step>) {
    forall i | 0 <= i < |steps| :: Addressed(s, steps[i])
  }

  function Run(w: World, s: Save, steps: seq<Step>): (s': Save)
    requires WellFormed(s) && AllAddressed(s, steps)
    ensures WellFormed(s') && |s'.boxes| == |s.boxes|
    decreases |steps|
  {
    if steps == [] then s else Run(w, Apply(w, s, steps[0]), steps[1..])
  }

  /** The species that the accepted placements of a run put in, eggs and "none" left aside. */
  function Gained(w: World, s: Save, steps: seq<Step>): set<nat>
    requires WellFormed(s) && AllAddressed(s, steps)
    decreases |steps|
  {
    if steps == [] then {}
    else
      (if OutcomeOf(w, s, steps[0]) == Success && Counts(steps[0].pokemon) then {steps[0].pokemon.species} else {})
      + Gained(w, Apply(w, s, steps[0]), steps[1..])
  }

  lemma RecordAdds(dex: Dex, p: Pokemon)
    ensures Record(dex, p) == if Counts(p) then Dex(dex.seen + {p.species}, dex.caught + {p.species}) else dex
  {
    if Counts(p) {
      var first, second := SetSeen(p.species, true), SetCaught(p.species, true);
      assert [first, second][1..] == [second] && [second][1..] == [];
      assert PokedexRules.Run(PokedexRules.Apply(dex, first), [second])
             == PokedexRules.Apply(PokedexRules.Apply(dex, first), second);
    }
  }

  lemma {:induction false} RunOneMore(w: World, s: Save, steps: seq<Step>, step: Step)
    requires WellFormed(s) && AllAddressed(s, steps) && Addressed(s, step)
    ensures AllAddressed(s, steps + [step])
    ensures Run(w, s, steps + [step]) == Apply(w, Run(w, s, steps), step)
    decreases |steps|
  {
    if steps == [] {
      assert ([] + [step])[1..] == [];
    } else {
      assert (steps + [step])[0] == steps[0] && (steps + [step])[1..] == steps[1..] + [step];
      RunOneMore(w, Apply(w, s, steps[0]), steps[1..], step);
    }
  }

  /** After any run of placements into party and boxes, the shared Pokédex has seen and caught
      exactly what it had before, and what the accepted placements put in. */
  lemma {:induction false} RunRecordsExactly(w: World, s: Save, steps: seq<Step>)
    requires WellFormed(s) && AllAddressed(s, steps)
    ensures Run(w, s, steps).dex.seen == s.dex.seen + Gained(w, s, steps)
    ensures Run(w, s, steps).dex.caught == s.dex.caught + Gained(w, s, steps)
    decreases |steps|
  {
    if steps == [] {
    } else {
      RecordAdds(s.dex, steps[0].pokemon);
      RunRecordsExactly(w, Apply(w, s, steps[0]), steps[1..]);
    }
  }

  // ---------------------------------------------------------------- what holds in every save

  /** The packed structure says the same as the accessors, before and after conversion. */
  predicate Genuine(w: World, p: Pokemon) {
    Actual(w, p).Some? ==>
      var packed := Actual(w, p).value;
      && w.speciesAt(packed.index) == p.species
      && packed.egg == p.egg
      && (packed.index == 0 <==> p.species == 0)
  }

  predicate Caught(w: World, dex: Dex, slot: Packed) {
    slot.index > 0 && !slot.egg ==> w.speciesAt(slot.index) in dex.caught
  }

  /** Party without gaps, nothing caught unseen, and every stored Pokémon that is not an egg
      has been caught. */
  predicate Consistent(w: World, s: Save) {
    && Contiguous(s.party)
    && Coherent(s.dex)
    && (forall i | 0 <= i < PARTY_SIZE :: Caught(w, s.dex, s.party.slots[i]))
    && (forall b, i | 0 <= b < |s.boxes| && 0 <= i < |s.boxes[b]| :: Caught(w, s.dex, s.boxes[b][i]))
  }

  lemma StepKeepsConsistent(w: World, s: Save, step: Step)
    requires Consistent(w, s) && Addressed(s, step) && Genuine(w, step.pokemon)
    ensures Consistent(w, Apply(w, s, step))
  {
    var p, s' := step.pokemon, Apply(w, s, step);
    RecordAdds(s.dex, p);
    if OutcomeOf(w, s, step) == Success {
      assert Caught(w, s'.dex, Actual(w, p).value);
    }
    forall slot | Caught(w, s.dex, slot) ensures Caught(w, s'.dex, slot) {
    }
    if step.ToParty? {
      PlaceKeepsContiguousIff(w, s.party, step.at, p);
    } else {
      forall b, i | 0 <= b < |s'.boxes| && 0 <= i < |s'.boxes[b]| ensures Caught(w, s'.dex, s'.boxes[b][i]) {
        assert s'.boxes[b][i] == s.boxes[b][i] || s'.boxes[b][i] == Actual(w, p).value;
      }
    }
  }

  /** Every run of genuine placements keeps a save consistent, accepted or refused. */
  lemma {:induction false} RunKeepsConsistent(w: World, s: Save, steps: seq<Step>)
    requires Consistent(w, s) && AllAddressed(s, steps)
    requires forall i | 0 <= i < |steps| :: Genuine(w, steps[i].pokemon)
    ensures Consistent(w, Run(w, s, steps))
    decreases |steps|
  {
    if steps == [] {
    } else {
      StepKeepsConsistent(w, s, steps[0]);
      RunKeepsConsistent(w, Apply(w, s, steps[0]), steps[1..]);
    }
  }

  /** Two threads that each pass the checks against a count of 2: the first empties slot 1, the
      second appends at slot 2. The second leaves a gap. */
  lemma StaleCountLeavesGap(w: World, bulbasaur: Packed)
    requires bulbasaur.index > 0 && w.speciesAt(bulbasaur.index) != 0
    ensures var taken := Pokemon(w.game, w.speciesAt(bulbasaur.index), false, bulbasaur);
            var none := Pokemon(w.game, 0, false, VACANT);
            var s := Party([bulbasaur, bulbasaur, VACANT, VACANT, VACANT, VACANT], 2);
            var first := PlaceSeeing(w, 2, s, 1, none);
            var second := PlaceSeeing(w, 2, first.state, 2, taken);
            && Contiguous(first.state) && first.outcome == second.outcome == Success
            && second.state == Party([bulbasaur, VACANT, bulbasaur, VACANT, VACANT, VACANT], 2)
            && !Contiguous(second.state)
  {
    var s := Party([bulbasaur, bulbasaur, VACANT, VACANT, VACANT, VACANT], 2);
    var first := PlaceSeeing(w, 2, s, 1, Pokemon(w.game, 0, false, VACANT));
    assert first.state.slots == [bulbasaur, VACANT, VACANT, VACANT, VACANT, VACANT];
    var second := PlaceSeeing(w, 2, first.state, 2, Pokemon(w.game, w.speciesAt(bulbasaur.index), false, bulbasaur));
    assert second.state.slots == [bulbasaur, VACANT, bulbasaur, VACANT, VACANT, VACANT];
    assert second.state.slots[1].index == 0;
  }
}
