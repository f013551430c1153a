/**
 Parties and boxes as objects over their native buffers, with the shared Pokédex object.
 Each does in place what `StorageRules` says.
 */
module Storage {
  import opened Common
  import opened Words
  import opened StorageRules
  import opened PlacementLaws
  import PokedexRules
  import opened Pokedexes

  /** A Pokémon object, over a settled copy of packed data. Two objects are the same Pokémon memory
      only if they are one object. */
  class PokemonObject {
    const game: nat
    const species: nat
    const egg: bool
    const packed: Packed

    function Value(): Pokemon {
      Pokemon(game, species, egg, packed)
    }

    constructor (w: World, packed: Packed)
      ensures Value() == Pokemon(w.game, w.speciesAt(packed.index), packed.egg, w.settled(packed))
    {
      game, species, egg, this.packed := w.game, w.speciesAt(packed.index), packed.egg, w.settled(packed);
    }
  }

  ghost function PokedexFrame(pokedex: Pokedex?): set<object> {
    if pokedex == null then {} else {pokedex, pokedex.seenBuffer, pokedex.ownedBuffer}
  }

  ghost predicate PokedexReady(pokedex: Pokedex?, p: Pokemon)
    reads PokedexFrame(pokedex)
  {
    pokedex != null ==> pokedex.Valid() && (Counts(p) ==> pokedex.InRange(p.species))
  }

  twostate predicate Recorded(pokedex: Pokedex?, p: Pokemon, accepted: bool)
    reads PokedexFrame(pokedex)
  {
    pokedex != null && old(pokedex.Valid()) ==>
      && pokedex.Valid()
      && pokedex.Sets() == if accepted then Record(old(pokedex.Sets()), p) else old(pokedex.Sets())
  }

  /** The end of every `set_pokemon`: a Pokémon that goes into a save has been seen and caught. */
  method RecordInPokedex(pokedex: Pokedex?, pokemon: PokemonObject)
    requires PokedexReady(pokedex, pokemon.Value())
    modifies PokedexFrame(pokedex)
    ensures Recorded(pokedex, pokemon.Value(), true)
  {
    if pokedex != null {
      if pokemon.species != 0 && !pokemon.egg {
        RecordAdds(pokedex.Sets(), pokemon.Value());
        pokedex.SetHasSeen(pokemon.species, true);
        pokedex.SetHasCaught(pokemon.species, true);
      }
    }
  }

  class GbaParty {
    const w: World
    const party: array<Packed>
    var count: Word32
    var pokemonList: seq<PokemonObject>
    var pokedex: Pokedex?

    ghost predicate Valid()
      reads this, party
    {
      && party.Length == |pokemonList| == PARTY_SIZE
      && party !in PokedexFrame(pokedex)  // a buffer of its own
      && (forall i | 0 <= i < PARTY_SIZE ::
            pokemonList[i].packed == w.settled(party[i]) && pokemonList[i].game == w.game)
    }

    ghost function State(): Party
      reads this, party
    {
      Party(party[..], SignedCount(count))
    }

    constructor (w: World, native: seq<Packed>, count: Word32)
      requires |native| == PARTY_SIZE
      ensures Valid() && fresh(party) && this.w == w && pokedex == null
      ensures State() == Load(native, count)
    {
      this.w, this.count, pokedex := w, count, null;
      party := new Packed[PARTY_SIZE](i requires 0 <= i < PARTY_SIZE => native[i]);
      pokemonList := [];
      new;
      assert party[..] == native;
      FromNative();
    }

    method SetPokedex(newPokedex: Pokedex)
      requires Valid() && party !in PokedexFrame(newPokedex)
      modifies this`pokedex
      ensures Valid() && pokedex == newPokedex && State() == old(State())
    {
      pokedex := newPokedex;
    }

    /** Asking for the native data copies every object's own data into its slot. */
    method GetNative() returns (slots: seq<Packed>)
      requires Valid() && Settles(w)
      modifies party
      ensures Valid() && slots == party[..] == AllSettled(w, old(party[..]))
    {
      var i := 0;
      while i < party.Length
        invariant 0 <= i <= party.Length
        invariant forall k | 0 <= k < i :: party[k] == w.settled(old(party[..])[k])
        invariant forall k | i <= k < party.Length :: party[k] == old(party[..])[k]
      {
        party[i] := pokemonList[i].packed;
        i := i + 1;
      }
      assert party[..] == AllSettled(w, old(party[..]));
      slots := party[..];
    }

    method GetNumPokemon() returns (n: int)
      ensures n == State().count
    {
      n := SignedCount(count);
    }

    method FromNative()
      requires party.Length == PARTY_SIZE && party !in PokedexFrame(pokedex)
      modifies this`pokemonList, party
      ensures Valid() && State() == Load(old(party[..]), count)
    {
      var num := GetNumPokemon();
      pokemonList := [];
      var i := 0;
      while i < PARTY_SIZE
        invariant 0 <= i <= PARTY_SIZE && |pokemonList| == i
        invariant forall k | 0 <= k < i :: party[k] == LoadedSlot(old(party[..])[k], k, num)
        invariant forall k | i <= k < PARTY_SIZE :: party[k] == old(party[..])[k]
        invariant forall k | 0 <= k < i :: pokemonList[k].packed == w.settled(party[k]) && pokemonList[k].game == w.game
      {
        if i >= num && party[i].index > 0 {
          party[i] := VACANT;
        }
        var made := new PokemonObject(w, party[i]);
        pokemonList := pokemonList + [made];
        i := i + 1;
      }
      assert party[..] == Load(old(party[..]), count).slots;
    }

    method CopyIn(index: nat, actual: Packed)
      requires Valid() && index < PARTY_SIZE
      modifies this`pokemonList, party
      ensures Valid() && party[..] == old(party[..])[index := actual]
    {
      party[index] := actual;
      var made := new PokemonObject(w, actual);
      pokemonList := pokemonList[index := made];
    }

    method UpdateCount(index: nat, num: int, species: nat)
      requires party.Length == PARTY_SIZE && index < PARTY_SIZE
      requires num == State().count && index <= num
      modifies this`count
      ensures State().count == num + (if index == num && party[index].index > 0 && species != 0 then 1
                                      else if index == num - 1 && party[index].index == 0 && species == 0 then -1
                                      else 0)
    {
      if index == num {
        if party[index].index > 0 && species != 0 {
          count := count + 1;
        }
      } else if index == num - 1 {
        if party[index].index == 0 && species == 0 {
          count := count - 1;
        }
      }
    }

    method SetPokemon(index: int, newPokemon: PokemonObject) returns (outcome: Outcome)
      requires Valid() && PokedexReady(pokedex, newPokemon.Value())
      modifies this, party, PokedexFrame(pokedex)
      ensures Valid() && pokedex == old(pokedex)
      ensures Placed(State(), outcome) == Place(w, old(State()), index, newPokemon.Value())
      ensures if outcome == Success then
                0 <= index < PARTY_SIZE && Convertible(w, newPokemon.Value())
                && party[..] == old(party[..])[index := Brought(w, newPokemon.Value())]
              else party[..] == old(party[..])
      ensures Recorded(pokedex, newPokemon.Value(), outcome == Success)
    {
      var num := GetNumPokemon();
      var maxIndex := Min(PARTY_SIZE - 1, num);
      if !(0 <= index <= maxIndex) {
        return OutOfRange;
      }
      if index < num - 1 && newPokemon.species == 0 {
        return InvalidArgument;
      }
      var actual := newPokemon.packed;
      if newPokemon.game != w.game {
        match w.convert(newPokemon.packed, newPokemon.game)
        case None => return CannotConvert;
        case Some(converted) => actual := converted;
      }
      CopyIn(index, actual);
      UpdateCount(index, num, newPokemon.species);
      RecordInPokedex(pokedex, newPokemon);
      return Success;
    }
  }

  /** The GameCube party keeps its own count and has no Pokédex. */
  class GcnParty {
    const w: World
    const natives: array<Packed>
    var numPokemon: int
    var pokemonList: seq<PokemonObject>

    ghost predicate Valid()
      reads this, natives
    {
      && natives.Length == |pokemonList| == PARTY_SIZE
      && (forall i | 0 <= i < PARTY_SIZE ::
            pokemonList[i].packed == w.settled(natives[i]) && pokemonList[i].game == w.game)
    }

    ghost function State(): Party
      reads this, natives
    {
      Party(natives[..], numPokemon)
    }

    constructor (w: World, native: seq<Packed>)
      requires |native| == PARTY_SIZE
      ensures Valid() && fresh(natives) && this.w == w
      ensures natives[..] == native
      ensures (forall i | 0 <= i < PARTY_SIZE :: w.speciesAt(native[i].index) == 0 <==> native[i].index == 0)
              ==> numPokemon == TakenCount(native)
    {
      this.w, numPokemon := w, 0;
      natives := new Packed[PARTY_SIZE](i requires 0 <= i < PARTY_SIZE => native[i]);
      pokemonList := [];
      new;
      assert natives[..] == native;
      FromNative();
    }

    method FromNative()
      requires natives.Length == PARTY_SIZE
      modifies this`pokemonList, this`numPokemon
      ensures Valid()
      ensures (forall i | 0 <= i < PARTY_SIZE :: w.speciesAt(natives[i].index) == 0 <==> natives[i].index == 0)
              ==> numPokemon == TakenCount(natives[..])
    {
      pokemonList, numPokemon := [], 0;
      var i := 0;
      while i < PARTY_SIZE
        invariant 0 <= i <= PARTY_SIZE && |pokemonList| == i
        invariant forall k | 0 <= k < i ::
                    pokemonList[k].packed == w.settled(natives[k]) && pokemonList[k].game == w.game
        invariant (forall k | 0 <= k < PARTY_SIZE :: w.speciesAt(natives[k].index) == 0 <==> natives[k].index == 0)
                  ==> numPokemon == TakenCount(natives[..i])
      {
        var made := new PokemonObject(w, natives[i]);
        pokemonList := pokemonList + [made];
        if made.species != 0 {
          numPokemon := numPokemon + 1;
        }
        assert natives[..i + 1][..i] == natives[..i];
        i := i + 1;
      }
      assert natives[..i] == natives[..];
    }

    method SetPokemon(index: int, newPokemon: PokemonObject) returns (outcome: Outcome)
      requires Valid()
      modifies this, natives
      ensures Valid()
      ensures Placed(State(), outcome) == Place(w, old(State()), index, newPokemon.Value())
      ensures if outcome == Success then
                0 <= index < PARTY_SIZE && Convertible(w, newPokemon.Value())
                && natives[..] == old(natives[..])[index := Brought(w, newPokemon.Value())]
              else natives[..] == old(natives[..])
    {
      var num := numPokemon;
      var maxIndex := Min(PARTY_SIZE - 1, num);
      if !(0 <= index <= maxIndex) {
        return OutOfRange;
      }
      if index < num - 1 && newPokemon.species == 0 {
        return InvalidArgument;
      }
      var actual := newPokemon.packed;
      if newPokemon.game != w.game {
        match w.convert(newPokemon.packed, newPokemon.game)
        case None => return CannotConvert;
        case Some(converted) => actual := converted;
      }
      natives[index] := actual;
      var made := new PokemonObject(w, actual);
      pokemonList := pokemonList[index := made];
      if index == num {
        if natives[index].index > 0 && newPokemon.species != 0 {
          numPokemon := numPokemon + 1;
        }
      } else if index == num - 1 {
        if natives[index].index == 0 && newPokemon.species == 0 {
          numPokemon := numPokemon - 1;
        }
      }
      return Success;
    }
  }

  class GbaBox {
    const w: World
    const entries: array<Packed>
    var pokemonList: seq<PokemonObject>
    var pokedex: Pokedex?

    ghost predicate Valid()
      reads this, entries
    {
      && entries.Length == |pokemonList|
      && entries !in PokedexFrame(pokedex)  // a buffer of its own
      && (forall i | 0 <= i < entries.Length :: pokemonList[i].packed == w.settled(entries[i]))
    }

    constructor (w: World, native: seq<Packed>)
      ensures Valid() && fresh(entries) && this.w == w && pokedex == null
      ensures entries[..] == native
    {
      this.w, pokedex := w, null;
      entries := new Packed[|native|](i requires 0 <= i < |native| => native[i]);
      pokemonList := [];
      new;
      assert entries[..] == native;
      FromNative();
    }

    /** A box is loaded as it is. */
    method FromNative()
      requires entries !in PokedexFrame(pokedex)
      modifies this`pokemonList
      ensures Valid()
    {
      pokemonList := [];
      var i := 0;
      while i < entries.Length
        invariant 0 <= i <= entries.Length && |pokemonList| == i
        invariant forall k | 0 <= k < i :: pokemonList[k].packed == w.settled(entries[k])
      {
        var made := new PokemonObject(w, entries[i]);
        pokemonList := pokemonList + [made];
        i := i + 1;
      }
    }

    method SetPokedex(newPokedex: Pokedex)
      requires Valid() && entries !in PokedexFrame(newPokedex)
      modifies this`pokedex
      ensures Valid() && pokedex == newPokedex
    {
      pokedex := newPokedex;
    }

    /** Asking for the native data copies every object's own data into its slot. */
    method GetNative() returns (slots: seq<Packed>)
      requires Valid() && Settles(w)
      modifies entries
      ensures Valid() && slots == entries[..] == AllSettled(w, old(entries[..]))
    {
      var i := 0;
      while i < entries.Length
        invariant 0 <= i <= entries.Length
        invariant forall k | 0 <= k < i :: entries[k] == w.settled(old(entries[..])[k])
        invariant forall k | i <= k < entries.Length :: entries[k] == old(entries[..])[k]
      {
        entries[i] := pokemonList[i].packed;
        i := i + 1;
      }
      assert entries[..] == AllSettled(w, old(entries[..]));
      slots := entries[..];
    }

    method GetNumPokemon() returns (n: nat)
      requires Valid()
      ensures n == |TakenSlots(entries[..])|
    {
      n := 0;
      var i := 0;
      while i < entries.Length
        invariant 0 <= i <= entries.Length && n == TakenCount(entries[..i])
      {
        assert entries[..i + 1][..i] == entries[..i];
        if entries[i].index > 0 {
          n := n + 1;
        }
        i := i + 1;
      }
      assert entries[..i] == entries[..];
      TakenCountIsSize(entries[..]);
    }

    /** The bound check lets the capacity itself through; the access after it does not. */
    method SetPokemon(index: int, newPokemon: PokemonObject) returns (outcome: Outcome)
      requires Valid() && PokedexReady(pokedex, newPokemon.Value())
      modifies this, entries, PokedexFrame(pokedex)
      ensures Valid() && pokedex == old(pokedex)
      ensures var self := 0 <= index < entries.Length && old(pokemonList)[index] == newPokemon;
              Placed(entries[..], outcome) == PlaceInBox(w, old(entries[..]), index, newPokemon.Value(), self)
      ensures if outcome == Success then
                0 <= index < entries.Length && Convertible(w, newPokemon.Value())
                && entries[..] == old(entries[..])[index := Brought(w, newPokemon.Value())]
                && pokemonList == old(pokemonList)[index := pokemonList[index]]
              else entries[..] == old(entries[..]) && pokemonList == old(pokemonList)
      ensures Recorded(pokedex, newPokemon.Value(), outcome == Success)
    {
      if !(0 <= index <= entries.Length) {
        return OutOfRange;
      }
      if index == |pokemonList| {
        return OutOfRange;
      }
      if pokemonList[index] == newPokemon {
        return InvalidArgument;
      }
      var actual := newPokemon.packed;
      if newPokemon.game != w.game {
        match w.convert(newPokemon.packed, newPokemon.game)
        case None => return CannotConvert;
        case Some(converted) => actual := converted;
      }
      entries[index] := actual;
      var made := new PokemonObject(w, actual);
      pokemonList := pokemonList[index := made];
      assert Valid() && entries[..] == old(entries[..])[index := actual];
      RecordInPokedex(pokedex, newPokemon);
      return Success;
    }
  }
}
