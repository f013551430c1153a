/**
 The Pokédex object: two bitmaps, kept so that what is caught has been seen, and two lists
 that are rebuilt from them only when a dirty flag says so.
 */
module Pokedexes {
  import opened PokedexBits
  import opened PokedexRules

  class Pokedex {
    const numPokemon: nat
    const seenBuffer: array<bv8>
    const ownedBuffer: array<bv8>
    // The native structure has three pointers for "seen"; all three are set to one buffer.
    const seenA: array<bv8>
    const seenB: array<bv8>
    const seenC: array<bv8>

    var allSeen: seq<nat>
    var dirtySeen: bool
    var allCaught: seq<nat>
    var dirtyCaught: bool

    ghost predicate Shaped()
      reads this
    {
      && seenBuffer.Length == ownedBuffer.Length == (numPokemon + 7) / 8
      && seenBuffer != ownedBuffer
      && seenA == seenB == seenC == seenBuffer
    }

    ghost predicate SeenIsFresh()
      requires Shaped()
      reads this, seenBuffer
    {
      !dirtySeen ==> allSeen == Listed(seenBuffer[..], numPokemon)
    }

    ghost predicate CaughtIsFresh()
      requires Shaped()
      reads this, ownedBuffer
    {
      !dirtyCaught ==> allCaught == Listed(ownedBuffer[..], numPokemon)
    }

    ghost predicate Valid()
      reads this, seenBuffer, ownedBuffer
    {
      Shaped() && SeenIsFresh() && CaughtIsFresh()
    }

    ghost function Sets(): Dex
      requires Shaped()
      reads this, seenBuffer, ownedBuffer
    {
      Dex(Numbers(seenBuffer[..]), Numbers(ownedBuffer[..]))
    }

    /** The species numbers that have a bit at all; up to seven lie above `numPokemon`. */
    predicate InRange(species: nat) {
      1 <= species <= 8 * ((numPokemon + 7) / 8)
    }

    constructor (numPokemon: nat, nativeSeenA: seq<bv8>, nativeOwned: seq<bv8>)
      requires |nativeSeenA| == |nativeOwned| == (numPokemon + 7) / 8
      ensures Valid() && fresh(seenBuffer) && fresh(ownedBuffer)
      ensures this.numPokemon == numPokemon
      ensures Sets() == Dex(Numbers(nativeSeenA), Numbers(nativeOwned))
    {
      this.numPokemon := numPokemon;
      var numBytes := (numPokemon + 7) / 8;
      var seen := new bv8[numBytes](i requires 0 <= i < numBytes => nativeSeenA[i]);
      var owned := new bv8[numBytes](i requires 0 <= i < numBytes => nativeOwned[i]);
      seenBuffer, ownedBuffer := seen, owned;
      seenA, seenB, seenC := seen, seen, seen;
      allSeen, dirtySeen, allCaught, dirtyCaught := [], true, [], true;
      new;
      assert seenBuffer[..] == nativeSeenA && ownedBuffer[..] == nativeOwned;
    }

    static method SetBit(buffer: array<bv8>, species: nat, value: bool)
      requires InBuffer(buffer[..], species)
      modifies buffer
      ensures buffer[..] == WithBit(old(buffer[..]), species, value)
    {
      var at, k := (species - 1) / 8, (species - 1) % 8;
      buffer[at] := WithMask(buffer[at], k, value);
    }

    /** The native call writes through all three "seen" pointers. */
    method SetNativeSeen(species: nat, value: bool)
      requires Shaped() && InRange(species)
      modifies seenBuffer
      ensures seenBuffer[..] == WithBit(old(seenBuffer[..]), species, value)
    {
      SetBit(seenA, species, value);
      SetBit(seenB, species, value);
      SetBit(seenC, species, value);
      forall n: nat | InBuffer(seenBuffer[..], n)
        ensures BitAt(seenBuffer[..], n) == BitAt(WithBit(old(seenBuffer[..]), species, value), n)
      {
        WithBitReads(old(seenBuffer[..]), species, value, n);
      }
      RewriteIsIdempotent(old(seenBuffer[..]), species, value);
    }

    static lemma RewriteIsIdempotent(buffer: seq<bv8>, species: nat, value: bool)
      requires InBuffer(buffer, species)
      ensures var once := WithBit(buffer, species, value);
              WithBit(once, species, value) == once
    {
    }

    method HasSeen(species: nat) returns (r: bool)
      requires Shaped() && InRange(species)
      ensures r <==> species in Sets().seen
    {
      r := BitAt(seenA[..], species);
    }

    method HasCaught(species: nat) returns (r: bool)
      requires Shaped() && InRange(species)
      ensures r <==> species in Sets().caught
    {
      r := BitAt(ownedBuffer[..], species);
    }

    /** Calls `SetHasCaught` while its own cache is stale and not yet marked so. */
    method SetHasSeen(species: nat, value: bool)
      requires Shaped() && InRange(species)
      modifies this`dirtySeen, this`dirtyCaught, seenBuffer, ownedBuffer
      ensures Sets() == Apply(old(Sets()), SetSeen(species, value))
      ensures SeenIsFresh()
      ensures old(CaughtIsFresh()) ==> CaughtIsFresh()
      decreases if value then 0 else 1
    {
      SetNativeSeen(species, value);
      WithBitNumbers(old(seenBuffer[..]), species, value);
      var caught := HasCaught(species);
      if !value && caught {
        SetHasCaught(species, false);
      }
      dirtySeen := true;
    }

    method SetHasCaught(species: nat, value: bool)
      requires Shaped() && InRange(species)
      modifies this`dirtySeen, this`dirtyCaught, seenBuffer, ownedBuffer
      ensures Sets() == Apply(old(Sets()), SetCaught(species, value))
      ensures CaughtIsFresh()
      ensures old(SeenIsFresh()) ==> SeenIsFresh()
      decreases if value then 1 else 0
    {
      SetBit(ownedBuffer, species, value);
      WithBitNumbers(old(ownedBuffer[..]), species, value);
      var seen := HasSeen(species);
      if value && !seen {
        SetHasSeen(species, true);
      }
      dirtyCaught := true;
    }

    method MemberVector(buffer: array<bv8>) returns (list: seq<nat>)
      requires buffer.Length == (numPokemon + 7) / 8
      ensures list == Listed(buffer[..], numPokemon)
    {
      list := [];
      var number := 1;
      while number <= numPokemon
        invariant 1 <= number <= numPokemon + 1
        invariant list == Listed(buffer[..], number - 1)
      {
        if BitAt(buffer[..], number) {
          list := list + [number];
        }
        number := number + 1;
      }
    }

    method GetAllSeen() returns (list: seq<nat>)
      requires Valid()
      modifies this`allSeen, this`dirtySeen
      ensures Valid() && list == Listed(seenBuffer[..], numPokemon)
    {
      if dirtySeen {
        allSeen := MemberVector(seenA);
        dirtySeen := false;
      }
      list := allSeen;
    }

    method GetNumSeen() returns (n: nat)
      requires Valid()
      modifies this`allSeen, this`dirtySeen
      ensures Valid() && n == |NumbersTo(seenBuffer[..], numPokemon)|
    {
      if dirtySeen {
        allSeen := MemberVector(seenA);
        dirtySeen := false;
      }
      n := |allSeen|;
      ListedIsExact(seenBuffer[..], numPokemon);
    }

    method GetAllCaught() returns (list: seq<nat>)
      requires Valid()
      modifies this`allCaught, this`dirtyCaught
      ensures Valid() && list == Listed(ownedBuffer[..], numPokemon)
    {
      if dirtyCaught {
        allCaught := MemberVector(ownedBuffer);
        dirtyCaught := false;
      }
      list := allCaught;
    }

    method GetNumCaught() returns (n: nat)
      requires Valid()
      modifies this`allCaught, this`dirtyCaught
      ensures Valid() && n == |NumbersTo(ownedBuffer[..], numPokemon)|
    {
      if dirtyCaught {
        allCaught := MemberVector(ownedBuffer);
        dirtyCaught := false;
      }
      n := |allCaught|;
      ListedIsExact(ownedBuffer[..], numPokemon);
    }
  }
}
