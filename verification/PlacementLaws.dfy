/**
 Where a placed Pokémon goes, when a placement is refused and with which error, and which species a
 run of placements brings into the Pokédex.
 */
module PlacementLaws {
  import opened Common
  import opened Words
  import opened StorageRules

  /** The Pokémon can be brought into the game of the container. */
  predicate Convertible(w: World, p: Pokemon) {
    p.game == w.game || w.convert(p.packed, p.game).Some?
  }

  function Brought(w: World, p: Pokemon): Packed
    requires Convertible(w, p)
  {
    if p.game == w.game then p.packed else w.convert(p.packed, p.game).value
  }

  // ---------------------------------------------------------------- boxes

  /** A box takes any Pokémon that can be converted, at any of its entries, unless the object is
      the very one that is there; the order of the tests fixes which error is given. */
  lemma BoxOutcomeIs(w: World, slots: seq<Packed>, at: int, p: Pokemon, self: bool)
    ensures var outcome := PlaceInBox(w, slots, at, p, self).outcome;
            && (outcome == OutOfRange <==> at < 0 || at >= |slots|)
            && (outcome == InvalidArgument <==> 0 <= at < |slots| && self)
            && (outcome == CannotConvert <==> 0 <= at < |slots| && !self && !Convertible(w, p))
            && (outcome == Success <==> 0 <= at < |slots| && !self && Convertible(w, p))
  {
  }

  /** An accepted placement writes the Pokémon, converted if it is from another game, at the entry
      that was asked for, and no other entry; a refused one writes nothing. */
  lemma BoxPlacementIsLocal(w: World, slots: seq<Packed>, at: int, p: Pokemon, self: bool)
    ensures var r := PlaceInBox(w, slots, at, p, self);
            && |r.state| == |slots|
            && (forall k | 0 <= k < |slots| && k != at :: r.state[k] == slots[k])
            && (r.outcome == Success ==> Convertible(w, p) && 0 <= at < |slots| && r.state[at] == Brought(w, p))
            && (r.outcome != Success ==> r.state == slots)
  {
  }

  // ---------------------------------------------------------------- parties

  /** A party takes a Pokémon at a slot in use or right behind them, "none" only at the last one in
      use or behind it. */
  lemma PartyOutcomeIs(w: World, s: Party, at: int, p: Pokemon)
    requires |s.slots| == PARTY_SIZE
    ensures var outcome := Place(w, s, at, p).outcome;
            var inside, gap := 0 <= at <= s.count && at < 6, p.species == 0 && at + 1 < s.count;
            && (outcome == OutOfRange <==> !inside)
            && (outcome == InvalidArgument <==> inside && gap)
            && (outcome == CannotConvert <==> inside && !gap && !Convertible(w, p))
            && (outcome == Success <==> inside && !gap && Convertible(w, p))
  {
  }

  lemma PartyPlacementIsLocal(w: World, s: Party, at: int, p: Pokemon)
    requires |s.slots| == PARTY_SIZE
    ensures var r := Place(w, s, at, p);
            && |r.state.slots| == PARTY_SIZE
            && (forall k | 0 <= k < PARTY_SIZE && k != at :: r.state.slots[k] == s.slots[k])
            && (r.outcome == Success ==>
                  Convertible(w, p) && 0 <= at < PARTY_SIZE && r.state.slots[at] == Brought(w, p))
            && (r.outcome != Success ==> r.state == s)
  {
  }

  /** In a party without gaps a genuine placement counts one more exactly if a Pokémon is put behind
      the others, and one less exactly if "none" takes the place of the last one: the count is again
      the number of Pokémon. */
  lemma PartyCountIs(w: World, s: Party, at: int, p: Pokemon)
    requires Contiguous(s) && Genuine(w, p) && Place(w, s, at, p).outcome == Success
    ensures var s' := Place(w, s, at, p).state;
            && s'.count == TakenCount(s'.slots)
            && s'.count == s.count + (if at == s.count && p.species != 0 then 1
                                      else if at == s.count - 1 && p.species == 0 then -1
                                      else 0)
  {
    var s' := Place(w, s, at, p).state;
    PlaceKeepsContiguousIff(w, s, at, p);
    CountIsTaken(s'.slots, s'.count);
  }

  lemma {:induction false} CountIsTaken(slots: seq<Packed>, count: int)
    requires 0 <= count <= |slots|
    requires forall i | 0 <= i < |slots| :: slots[i].index > 0 <==> i < count
    ensures TakenCount(slots) == count
  {
    if slots == [] {
    } else {
      var last := |slots| - 1;
      CountIsTaken(slots[..last], Min(count, last));
    }
  }

  // ---------------------------------------------------------------- loading

  /** The native count modulo 2^32, in the range of a signed 32-bit integer. */
  lemma SignedCountIs(native: Word32)
    ensures -0x8000_0000 <= SignedCount(native) < 0x8000_0000
    ensures SignedCount(native) % 0x1_0000_0000 == native
  {
  }

  /** Loading keeps the slots below the count, and past it the vacant ones; every taken slot past it
      is vacated. */
  lemma LoadKeepsCounted(slots: seq<Packed>, native: Word32, i: nat)
    requires |slots| == PARTY_SIZE && i < PARTY_SIZE
    ensures var s := Load(slots, native);
            && s.count == SignedCount(native)
            && (i < s.count ==> s.slots[i] == slots[i])
            && (i >= s.count ==> s.slots[i].index == 0)
            && (i >= s.count && slots[i].index == 0 ==> s.slots[i] == slots[i])
            && (i >= s.count && slots[i].index > 0 ==> s.slots[i] == Packed(0, false, ZeroWord(), 0))
  {
  }

  // ---------------------------------------------------------------- runs

  /** A species is among those that a run brings exactly if one of its placements, accepted on the
      save as the placements before it left it, was of that species and of no egg. */
  lemma {:induction false} GainedIff(w: World, s: Save, steps: seq<Step>, species: nat)
    requires WellFormed(s) && AllAddressed(s, steps)
    ensures species in Gained(w, s, steps) <==>
            exists i | 0 <= i < |steps| :: BringsIn(w, s, steps, i, species)
    decreases |steps|
  {
    if steps == [] {
    } else {
      var s', rest := Apply(w, s, steps[0]), steps[1..];
      GainedIff(w, s', rest, species);
      assert Run(w, s, steps[..0]) == s;
      forall i | 0 <= i < |rest| ensures BringsIn(w, s', rest, i, species) == BringsIn(w, s, steps, i + 1, species) {
        assert steps[..i + 1][0] == steps[0] && steps[..i + 1][1..] == rest[..i];
      }
      if i :| 1 <= i < |steps| && BringsIn(w, s, steps, i, species) {
        assert BringsIn(w, s', rest, i - 1, species);
      }
      if BringsIn(w, s, steps, 0, species) {
        assert species == steps[0].pokemon.species;
      }
    }
  }

  predicate BringsIn(w: World, s: Save, steps: seq<Step>, i: nat, species: nat)
    requires WellFormed(s) && AllAddressed(s, steps) && i < |steps|
  {
    var p := steps[i].pokemon;
    && OutcomeOf(w, Run(w, s, steps[..i]), steps[i]) == Success
    && p.species == species != 0 && !p.egg
  }
}
