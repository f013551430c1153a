/** A save's party and boxes as objects that share one Pokédex object, over a run of placements. */
module Saves {
  import opened Common
  import opened Words
  import opened StorageRules
  import opened Storage
  import PokedexRules
  import opened Pokedexes

  /** A placement into the party, or into one of the boxes. */
  datatype Request = Request(box: Option<nat>, at: int, pokemon: PokemonObject)

  /** The step that carries out a request. */
  ghost predicate Carries(step: Step, request: Request) {
    match request.box
    case None => step == ToParty(request.at, request.pokemon.Value())
    case Some(box) => step.ToBox? && step == ToBox(box, request.at, request.pokemon.Value(), step.self)
  }

  /** What the first requests have done so far. */
  ghost predicate CarriedOut(w: World, before: Save, requests: seq<Request>, steps: seq<Step>, after: Save) {
    && WellFormed(before) && AllAddressed(before, steps) && |steps| <= |requests|
    && (forall k | 0 <= k < |steps| :: Carries(steps[k], requests[k]))
    && after == StorageRules.Run(w, before, steps)
  }

  lemma OneMorePlaced(w: World, before: Save, requests: seq<Request>, steps: seq<Step>, step: Step)
    requires WellFormed(before) && AllAddressed(before, steps) && |steps| < |requests|
    requires CarriedOut(w, before, requests, steps, StorageRules.Run(w, before, steps))
    requires Addressed(before, step) && Carries(step, requests[|steps|])
    ensures CarriedOut(w, before, requests, steps + [step],
                   StorageRules.Apply(w, StorageRules.Run(w, before, steps), step))
  {
    RunOneMore(w, before, steps, step);
  }

  class GbaSave {
    const w: World
    const party: GbaParty
    const boxes: seq<GbaBox>
    const pokedex: Pokedex

    ghost function Parts(): set<object> {
      {party, party.party} + PokedexFrame(pokedex)
      + (set b | b in boxes :: b) + (set b | b in boxes :: b.entries)
    }

    /** No two parts share memory. */
    ghost predicate Apart() {
      && party.party !in PokedexFrame(pokedex)
      && (forall i | 0 <= i < |boxes| ::
            boxes[i].entries != party.party && boxes[i].entries !in PokedexFrame(pokedex))
      && (forall i, j | 0 <= i < j < |boxes| :: boxes[i] != boxes[j] && boxes[i].entries != boxes[j].entries)
    }

    ghost predicate BoxReady(box: GbaBox)
      reads box, box.entries
    {
      box.w == w && box.pokedex == pokedex && box.Valid()
    }

    ghost predicate Valid()
      reads Parts()
    {
      && Apart()
      && party.w == w && party.pokedex == pokedex && party.Valid()
      && pokedex.Valid()
      && (forall i | 0 <= i < |boxes| :: BoxReady(boxes[i]))
    }

    ghost function BoxContents(): (contents: seq<seq<Packed>>)
      reads Parts()
      ensures |contents| == |boxes| && forall i | 0 <= i < |boxes| :: contents[i] == boxes[i].entries[..]
    {
      seq(|boxes|, i requires 0 <= i < |boxes| reads Parts() => boxes[i].entries[..])
    }

    ghost function State(): Save
      requires Valid()
      reads Parts()
    {
      Save(party.State(), BoxContents(), pokedex.Sets())
    }

    /** The save hands its Pokédex to its party and to every box of its PC. */
    constructor (w: World, party: GbaParty, boxes: seq<GbaBox>, pokedex: Pokedex)
      requires party.w == w && party.Valid() && pokedex.Valid()
      requires forall i | 0 <= i < |boxes| :: boxes[i].w == w && boxes[i].Valid()
      requires party.party !in PokedexFrame(pokedex)
      requires forall i | 0 <= i < |boxes| ::
                 boxes[i].entries != party.party && boxes[i].entries !in PokedexFrame(pokedex)
      requires forall i, j | 0 <= i < j < |boxes| :: boxes[i] != boxes[j] && boxes[i].entries != boxes[j].entries
      modifies party`pokedex, (set b | b in boxes :: b)`pokedex
      ensures Valid() && this.w == w && this.party == party && this.boxes == boxes && this.pokedex == pokedex
      ensures party.State() == old(party.State()) && pokedex.Sets() == old(pokedex.Sets())
      ensures forall i | 0 <= i < |boxes| :: boxes[i].entries[..] == old(boxes[i].entries[..])
    {
      this.w, this.party, this.boxes, this.pokedex := w, party, boxes, pokedex;
      new;
      party.SetPokedex(pokedex);
      var i := 0;
      while i < |boxes|
        invariant 0 <= i <= |boxes|
        invariant party.Valid() && party.pokedex == pokedex
        invariant forall k | 0 <= k < |boxes| :: boxes[k].Valid()
        invariant forall k | 0 <= k < i :: boxes[k].pokedex == pokedex
      {
        assert boxes[i] in boxes;
        boxes[i].SetPokedex(pokedex);
        i := i + 1;
      }
    }

    // -------------------------------------------------------------- placements

    /** The save has the box, and the Pokédex the species. */
    ghost predicate InReach(request: Request) {
      && (request.box.Some? ==> request.box.value < |boxes|)
      && (Counts(request.pokemon.Value()) ==> pokedex.InRange(request.pokemon.species))
    }

    method PlaceInParty(at: int, pokemon: PokemonObject) returns (outcome: Outcome)
      requires Valid() && PokedexReady(pokedex, pokemon.Value())
      modifies party, party.party, PokedexFrame(pokedex)
      ensures Valid()
      ensures State() == StorageRules.Apply(w, old(State()), ToParty(at, pokemon.Value()))
      ensures outcome == OutcomeOf(w, old(State()), ToParty(at, pokemon.Value()))
    {
      outcome := party.SetPokemon(at, pokemon);
      forall i | 0 <= i < |boxes| ensures BoxReady(boxes[i]) && boxes[i].entries[..] == old(boxes[i].entries[..]) {
        assert old(BoxReady(boxes[i]));
      }
      assert BoxContents() == old(BoxContents());
    }

    method PlaceInBox(box: nat, at: int, pokemon: PokemonObject) returns (outcome: Outcome, ghost step: Step)
      requires Valid() && PokedexReady(pokedex, pokemon.Value()) && box < |boxes|
      modifies boxes[box], boxes[box].entries, PokedexFrame(pokedex)
      ensures Valid()
      ensures step.ToBox? && step == ToBox(box, at, pokemon.Value(), step.self)
      ensures step.self <==> 0 <= at < boxes[box].entries.Length && old(boxes[box].pokemonList)[at] == pokemon
      ensures State() == StorageRules.Apply(w, old(State()), step)
      ensures outcome == OutcomeOf(w, old(State()), step)
    {
      var target := boxes[box];
      step := ToBox(box, at, pokemon.Value(), 0 <= at < target.entries.Length && target.pokemonList[at] == pokemon);
      outcome := target.SetPokemon(at, pokemon);
      forall i | 0 <= i < |boxes| && i != box
        ensures BoxReady(boxes[i]) && boxes[i].entries[..] == old(boxes[i].entries[..])
      {
        assert old(BoxReady(boxes[i]));
      }
      assert BoxContents() == old(BoxContents())[box := target.entries[..]];
    }

    method PlaceEach(requests: seq<Request>) returns (ghost steps: seq<Step>)
      requires Valid() && forall i | 0 <= i < |requests| :: InReach(requests[i])
      modifies Parts()
      ensures Valid() && |steps| == |requests| && AllAddressed(old(State()), steps)
      ensures forall i | 0 <= i < |requests| :: Carries(steps[i], requests[i])
      ensures State() == StorageRules.Run(w, old(State()), steps)
    {
      ghost var before := State();
      steps := [];
      var i := 0;
      while i < |requests|
        invariant 0 <= i <= |requests| && |steps| == i
        invariant Valid() && CarriedOut(w, before, requests, steps, State())
      {
        ghost var step := PlaceOne(requests[i]);
        OneMorePlaced(w, before, requests, steps, step);
        steps := steps + [step];
        i := i + 1;
      }
    }

    /** Any run of placements does to the objects what the rules say; so at the end the shared Pokédex
        has seen and caught what it had, and the species of the accepted placements, and a save that
        was consistent is so still. */
    method PlaceAll(requests: seq<Request>) returns (ghost steps: seq<Step>)
      requires Valid() && forall i | 0 <= i < |requests| :: InReach(requests[i])
      modifies Parts()
      ensures Valid() && |steps| == |requests| && AllAddressed(old(State()), steps)
      ensures forall i | 0 <= i < |requests| :: Carries(steps[i], requests[i])
      ensures pokedex.Sets().seen == old(pokedex.Sets().seen) + Gained(w, old(State()), steps)
      ensures pokedex.Sets().caught == old(pokedex.Sets().caught) + Gained(w, old(State()), steps)
      ensures old(Consistent(w, State())) && (forall i | 0 <= i < |requests| :: Genuine(w, requests[i].pokemon.Value()))
              ==> Consistent(w, State())
    {
      ghost var before := State();
      steps := PlaceEach(requests);
      RunRecordsExactly(w, before, steps);
      if Consistent(w, before) && forall i | 0 <= i < |requests| :: Genuine(w, requests[i].pokemon.Value()) {
        RunKeepsConsistent(w, before, steps);
      }
    }

    method PlaceOne(request: Request) returns (ghost step: Step)
      requires Valid() && InReach(request)
      modifies Parts()
      ensures Valid() && Addressed(old(State()), step) && Carries(step, request)
      ensures State() == StorageRules.Apply(w, old(State()), step)
    {
      match request.box {
        case None =>
          step := ToParty(request.at, request.pokemon.Value());
          var _ := PlaceInParty(request.at, request.pokemon);
        case Some(box) =>
          assert boxes[box] in boxes;
          var _, placed := PlaceInBox(box, request.at, request.pokemon);
          step := placed;
      }
    }
  }
}
