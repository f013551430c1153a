/**
 What the public calls of the library lock, and the theorem that no interleaving of
 them deadlocks, however far each call gets.
 */
module LibraryCalls {
  import opened Common
  import opened Locking

  /** The Pokémon handed to a party, a box or a daycare. `foreign` means that it has to be converted
      first; `names` is how many of the accessors for its two names take its mutex, if the container
      stores names at all (Generation I: two, Generation II: one, others: none); `pokedex` is the
      Pokédex of the save, `counted` whether the Pokédex records it and `seen` whether the Pokédex
      had it as seen already. */
  datatype Placing = Placing(pokemon: nat, foreign: bool, names: nat,
                             pokedex: Option<nat>, counted: bool, seen: bool)

  datatype BoxContents = BoxContents(box: nat, members: seq<nat>)

  datatype SaveContents = SaveContents(
    bag: nat, pockets: seq<nat>, itemPc: nat,
    party: nat, members: seq<nat>, pc: nat, boxes: seq<BoxContents>, pokedex: nat)

  datatype Call =
    | SetHasSeen(pokedex: nat, value: bool, caught: bool)
    | SetHasCaught(pokedex: nat, value: bool, seen: bool)
    | ReadPokedex(pokedex: nat)
    | EditItems(list: nat)
    | EditBag(bag: nat, pocket: nat, pockets: seq<nat>)
    | EditPokemon(pokemon: nat, ownCalls: nat)
    | PlaceInParty(party: nat, placing: Placing)
    | PlaceInBox(box: nat, present: Option<nat>, placing: Placing)
    | PlaceInDaycare(daycare: nat, placing: Placing, other: Option<nat>, first: bool)
    | DaycareNative(daycare: nat, residents: seq<nat>)
    | PartyNative(party: nat, members: seq<nat>)
    | BoxNative(box: nat, residents: seq<nat>)
    | PcNative(pc: nat, boxes: seq<BoxContents>)
    | SaveAs(save: nat, contents: SaveContents)
    | GameCubeSaveAs(save: nat, contents: SaveContents)

  // ---------------------------------------------------------------- the guards of each call

  function Holding(l: Lock, body: Code): Code {
    Guard(l, body, Done)
  }

  function Getter(l: Lock): Code {
    Holding(l, Done)
  }

  function SetHasSeenCode(d: nat, value: bool, caught: bool): Code {
    Holding(Pokedex(d),
            if value then Done
            else Then(Getter(Pokedex(d)), if caught then Getter(Pokedex(d)) else Done))
  }

  function SetHasCaughtCode(d: nat, value: bool, seen: bool): Code {
    Holding(Pokedex(d),
            if !value then Done
            else Then(Getter(Pokedex(d)), if seen then Done else SetHasSeenCode(d, true, false)))
  }

  function PocketLock(id: nat): Lock { Items(id) }

  function PokemonLock(id: nat): Lock { Pokemon(id) }

  function Sweep(kind: nat -> Lock, ids: seq<nat>): Code {
    if ids == [] then Done else Then(Getter(kind(ids[0])), Sweep(kind, ids[1..]))
  }

  function PokemonSweep(members: seq<nat>): Code {
    Sweep(PokemonLock, members)
  }

  function BagNativeCode(bag: nat, pockets: seq<nat>): Code {
    Holding(Bag(bag), Sweep(PocketLock, pockets))
  }

  function EditBagCode(bag: nat, pocket: nat, pockets: seq<nat>): Code {
    Holding(Bag(bag), Then(Getter(Items(pocket)), Sweep(PocketLock, pockets)))
  }

  function Times(code: Code, n: nat): Code {
    if n == 0 then Done else Then(code, Times(code, n - 1))
  }

  function OwnCalls(pokemon: nat, n: nat): Code {
    Times(Holding(Pokemon(pokemon), Getter(Pokemon(pokemon))), n)
  }

  /** `to_game`: the new object is the caller's own until it is published. */
  function ToGameCode(t: nat, pokemon: nat): Code {
    var self := Getter(Pokemon(pokemon));
    var made := Getter(OwnPokemon(t, 0));
    Holding(Pokemon(pokemon), Times(Then(self, made), 4))
  }

  function RecordCode(p: Placing): Code {
    if p.pokedex.None? then Done else
      var self := Getter(Pokemon(p.pokemon));
      Then(self, Then(self,
                      if !p.counted then Done
                      else Then(SetHasSeenCode(p.pokedex.value, true, false),
                                SetHasCaughtCode(p.pokedex.value, true, p.seen))))
  }

  /** The Pokémon whose memory is copied: the converted one, or the one handed over. */
  function ActualLock(t: nat, p: Placing): Lock {
    if p.foreign then OwnPokemon(t, 0) else Pokemon(p.pokemon)
  }

  /** The new member of the container, which nobody can ask for while the container is locked. */
  function MemberLock(t: nat): Lock {
    OwnPokemon(t, 1)
  }

  /** The names are read from the Pokémon and set on the new member. */
  function NamingCode(t: nat, p: Placing): Code {
    if p.names == 0 then Done
    else Then(Times(Getter(ActualLock(t, p)), p.names), Times(Getter(MemberLock(t)), 2))
  }

  /** The part of `set_pokemon` that runs under the party's or the box's own guard. In Generations I
      and II the species, the egg flag and again the names are asked for after the naming. */
  function PlaceCode(t: nat, p: Placing): Code {
    var self := Getter(Pokemon(p.pokemon));
    var actual := Getter(ActualLock(t, p));
    Then(self,
         Then(if p.foreign then ToGameCode(t, p.pokemon) else Done,
              Holding(ActualLock(t, p),
                      Then(actual,
                           Then(NamingCode(t, p),
                                Then(if p.names == 0 then self else Times(actual, 4), RecordCode(p)))))))
  }

  /** In Generation II the daycare then stores the names of both residents, the other one included. */
  function ResidentsCode(t: nat, other: Option<nat>, first: bool): Code {
    var mine := Getter(MemberLock(t));
    if other.None? then Times(mine, 3)
    else if first then Then(mine, Getter(Pokemon(other.value)))
    else Then(Getter(Pokemon(other.value)), mine)
  }

  function DaycareCode(t: nat, daycare: nat, p: Placing, other: Option<nat>, first: bool): Code {
    Holding(Daycare(daycare),
            Then(Getter(Pokemon(p.pokemon)),
                 Then(if p.foreign then ToGameCode(t, p.pokemon) else Done,
                      Holding(ActualLock(t, p),
                              Then(Getter(ActualLock(t, p)),
                                   Then(NamingCode(t, p),
                                        if p.names == 0 then Done else ResidentsCode(t, other, first)))))))
  }

  function BoxNativeCode(b: BoxContents): Code {
    Holding(Box(b.box), PokemonSweep(b.members))
  }

  function BoxesCode(boxes: seq<BoxContents>): Code {
    if boxes == [] then Done else Then(BoxNativeCode(boxes[0]), BoxesCode(boxes[1..]))
  }

  function BoxLock(id: nat): Lock { Box(id) }

  function BoxSweep(boxes: seq<BoxContents>): Code {
    Sweep(BoxLock, seq(|boxes|, i requires 0 <= i < |boxes| => boxes[i].box))
  }

  /** First the contents of all boxes, then their names, then their wallpapers. */
  function PcNativeCode(pc: nat, boxes: seq<BoxContents>): Code {
    Holding(Pc(pc), Then(BoxesCode(boxes), Times(BoxSweep(boxes), 2)))
  }

  function PartyNativeCode(party: nat, members: seq<nat>): Code {
    Holding(Party(party), PokemonSweep(members))
  }

  function SaveCode(c: SaveContents): Code {
    Then(BagNativeCode(c.bag, c.pockets),
         Then(Getter(Items(c.itemPc)),
              Then(PartyNativeCode(c.party, c.members),
                   Then(PcNativeCode(c.pc, c.boxes), Getter(Pokedex(c.pokedex))))))
  }

  function GameCubeSaveCode(c: SaveContents): Code {
    Then(PartyNativeCode(c.party, c.members),
         Then(Getter(Items(c.itemPc)),
              Then(PcNativeCode(c.pc, c.boxes), BagNativeCode(c.bag, c.pockets))))
  }

  function CallCode(t: nat, c: Call): Code {
    match c
    case SetHasSeen(d, value, caught) => SetHasSeenCode(d, value, caught)
    case SetHasCaught(d, value, seen) => SetHasCaughtCode(d, value, seen)
    case ReadPokedex(d) => Getter(Pokedex(d))
    case EditItems(l) => Getter(Items(l))
    case EditBag(b, pocket, pockets) => EditBagCode(b, pocket, pockets)
    case EditPokemon(p, n) => Holding(Pokemon(p), OwnCalls(p, n))
    case PlaceInParty(party, p) =>
      Then(Getter(Party(party)),
           Then(Getter(Pokemon(p.pokemon)), Holding(Party(party), PlaceCode(t, p))))
    case PlaceInBox(box, present, p) =>
      Then(if present.Some? then Getter(Pokemon(present.value)) else Getter(Box(box)),
           Then(Getter(Pokemon(p.pokemon)), Holding(Box(box), PlaceCode(t, p))))
    case PlaceInDaycare(d, p, other, first) => DaycareCode(t, d, p, other, first)
    case DaycareNative(d, residents) => Holding(Daycare(d), PokemonSweep(residents))
    case PartyNative(party, members) => PartyNativeCode(party, members)
    case BoxNative(box, members) => BoxNativeCode(BoxContents(box, members))
    case PcNative(pc, boxes) => PcNativeCode(pc, boxes)
    case SaveAs(save, c) => Holding(Save(save), SaveCode(c))
    case GameCubeSaveAs(save, c) => Holding(Save(save), GameCubeSaveCode(c))
  }

  // ---------------------------------------------------------------- discipline, call by call

  predicate Above(held: seq<Lock>, level: nat) {
    forall h | h in held && !h.OwnPokemon? :: Level(h) < level
  }

  lemma {:induction false} ThenIsDisciplined(t: nat, held: seq<Lock>, a: Code, b: Code)
    ensures Disciplined(t, held, Then(a, b)) <==> Disciplined(t, held, a) && Disciplined(t, held, b)
    decreases a
  {
    match a
    case Done =>
    case Guard(l, body, next) => ThenIsDisciplined(t, held, next, b);
  }

  lemma GetterIsDisciplined(t: nat, held: seq<Lock>, l: Lock)
    ensures Disciplined(t, held, Getter(l)) <==> MayTake(t, held, l)
  {
  }

  lemma {:induction false} SweepIsDisciplined(t: nat, held: seq<Lock>, kind: nat -> Lock, ids: seq<nat>)
    requires forall id: nat :: MayTake(t, held, kind(id))
    ensures Disciplined(t, held, Sweep(kind, ids))
  {
    if ids == [] {
    } else {
      SweepIsDisciplined(t, held, kind, ids[1..]);
      ThenIsDisciplined(t, held, Getter(kind(ids[0])), Sweep(kind, ids[1..]));
    }
  }

  lemma {:induction false} TimesIsDisciplined(t: nat, held: seq<Lock>, code: Code, n: nat)
    ensures Disciplined(t, held, Times(code, n)) <==> n == 0 || Disciplined(t, held, code)
  {
    if n == 0 {
    } else {
      TimesIsDisciplined(t, held, code, n - 1);
      ThenIsDisciplined(t, held, code, Times(code, n - 1));
    }
  }

  lemma SettersAreDisciplined(t: nat, held: seq<Lock>, d: nat, value: bool, other: bool)
    requires Above(held, 4)
    ensures Disciplined(t, held, SetHasSeenCode(d, value, other))
    ensures Disciplined(t, held, SetHasCaughtCode(d, value, other))
  {
    var inside := held + [Pokedex(d)];
    GetterIsDisciplined(t, inside, Pokedex(d));
    ThenIsDisciplined(t, inside, Getter(Pokedex(d)), if other then Getter(Pokedex(d)) else Done);
    ThenIsDisciplined(t, inside, Getter(Pokedex(d)), if other then Done else SetHasSeenCode(d, true, false));
  }

  lemma ToGameIsDisciplined(t: nat, held: seq<Lock>, pokemon: nat)
    requires Above(held, 3)
    ensures Disciplined(t, held, ToGameCode(t, pokemon))
  {
    var inside := held + [Pokemon(pokemon)];
    var self, made := Getter(Pokemon(pokemon)), Getter(OwnPokemon(t, 0));
    GetterIsDisciplined(t, inside, Pokemon(pokemon));
    GetterIsDisciplined(t, inside, OwnPokemon(t, 0));
    ThenIsDisciplined(t, inside, self, made);
    TimesIsDisciplined(t, inside, Then(self, made), 4);
  }

  lemma RecordIsDisciplined(t: nat, held: seq<Lock>, p: Placing)
    requires Above(held, 4) && MayTake(t, held, Pokemon(p.pokemon))
    ensures Disciplined(t, held, RecordCode(p))
  {
    if p.pokedex.Some? {
      var self := Getter(Pokemon(p.pokemon));
      var seen, caught := SetHasSeenCode(p.pokedex.value, true, false),
                          SetHasCaughtCode(p.pokedex.value, true, p.seen);
      SettersAreDisciplined(t, held, p.pokedex.value, true, false);
      SettersAreDisciplined(t, held, p.pokedex.value, true, p.seen);
      ThenIsDisciplined(t, held, seen, caught);
      var record := if !p.counted then Done else Then(seen, caught);
      ThenIsDisciplined(t, held, self, record);
      ThenIsDisciplined(t, held, self, Then(self, record));
    }
  }

  lemma NamingIsDisciplined(t: nat, held: seq<Lock>, p: Placing)
    requires MayTake(t, held, ActualLock(t, p))
    ensures Disciplined(t, held, NamingCode(t, p))
  {
    TimesIsDisciplined(t, held, Getter(ActualLock(t, p)), p.names);
    TimesIsDisciplined(t, held, Getter(MemberLock(t)), 2);
    ThenIsDisciplined(t, held, Times(Getter(ActualLock(t, p)), p.names), Times(Getter(MemberLock(t)), 2));
  }

  lemma PlaceIsDisciplined(t: nat, held: seq<Lock>, p: Placing)
    requires Above(held, 3)
    ensures Disciplined(t, held, PlaceCode(t, p))
  {
    var self := Getter(Pokemon(p.pokemon));
    var actual := ActualLock(t, p);
    var inside := held + [actual];
    var after := if p.names == 0 then self else Times(Getter(actual), 4);
    RecordIsDisciplined(t, inside, p);
    NamingIsDisciplined(t, inside, p);
    TimesIsDisciplined(t, inside, Getter(actual), 4);
    ThenIsDisciplined(t, inside, after, RecordCode(p));
    ThenIsDisciplined(t, inside, NamingCode(t, p), Then(after, RecordCode(p)));
    ThenIsDisciplined(t, inside, Getter(actual), Then(NamingCode(t, p), Then(after, RecordCode(p))));
    var locked := Holding(actual, Then(Getter(actual), Then(NamingCode(t, p), Then(after, RecordCode(p)))));
    var convert := if p.foreign then ToGameCode(t, p.pokemon) else Done;
    ToGameIsDisciplined(t, held, p.pokemon);
    ThenIsDisciplined(t, held, convert, locked);
    ThenIsDisciplined(t, held, self, Then(convert, locked));
  }

  lemma ResidentsAreDisciplinedIff(t: nat, held: seq<Lock>, other: Option<nat>, first: bool)
    ensures Disciplined(t, held, ResidentsCode(t, other, first))
            <==> other.None? || MayTake(t, held, Pokemon(other.value))
  {
    var mine := Getter(MemberLock(t));
    GetterIsDisciplined(t, held, MemberLock(t));
    TimesIsDisciplined(t, held, mine, 3);
    if other.Some? {
      var its := Getter(Pokemon(other.value));
      GetterIsDisciplined(t, held, Pokemon(other.value));
      ThenIsDisciplined(t, held, mine, its);
      ThenIsDisciplined(t, held, its, mine);
    }
  }

  /** A daycare placement locks the other resident under the Pokémon it places, unless that one
      is converted first or is the other resident itself. */
  predicate Orderly(c: Call) {
    c.PlaceInDaycare? && c.placing.names > 0 && c.other.Some? ==>
      c.placing.foreign || c.other.value == c.placing.pokemon
  }

  lemma ResidentMayBeTakenIff(t: nat, daycare: nat, actual: Lock, other: nat)
    requires actual.Pokemon? || actual.OwnPokemon?
    ensures MayTake(t, [Daycare(daycare)] + [actual], Pokemon(other))
            <==> actual.OwnPokemon? || actual == Pokemon(other)
  {
    var inside := [Daycare(daycare)] + [actual];
    assert inside[0] == Daycare(daycare) && inside[1] == actual;
    assert actual in inside;
    assert forall h | h in inside :: h == Daycare(daycare) || h == actual;
  }

  lemma DaycareIsDisciplinedIff(t: nat, daycare: nat, p: Placing, other: Option<nat>, first: bool)
    ensures Disciplined(t, [], DaycareCode(t, daycare, p, other, first))
            <==> Orderly(PlaceInDaycare(daycare, p, other, first))
  {
    var held := [Daycare(daycare)];
    var actual := ActualLock(t, p);
    var inside := held + [actual];
    var residents := if p.names == 0 then Done else ResidentsCode(t, other, first);
    ResidentsAreDisciplinedIff(t, inside, other, first);
    if other.Some? {
      ResidentMayBeTakenIff(t, daycare, actual, other.value);
    }
    NamingIsDisciplined(t, inside, p);
    ThenIsDisciplined(t, inside, NamingCode(t, p), residents);
    ThenIsDisciplined(t, inside, Getter(actual), Then(NamingCode(t, p), residents));
    var locked := Holding(actual, Then(Getter(actual), Then(NamingCode(t, p), residents)));
    var convert := if p.foreign then ToGameCode(t, p.pokemon) else Done;
    ToGameIsDisciplined(t, held, p.pokemon);
    ThenIsDisciplined(t, held, convert, locked);
    GetterIsDisciplined(t, held, Pokemon(p.pokemon));
    ThenIsDisciplined(t, held, Getter(Pokemon(p.pokemon)), Then(convert, locked));
    assert [] + [Daycare(daycare)] == held;
  }

  lemma HeldIsDisciplined(t: nat, held: seq<Lock>, l: Lock, body: Code)
    requires MayTake(t, held, l) && Disciplined(t, held + [l], body)
    ensures Disciplined(t, held, Holding(l, body))
  {
    assert Disciplined(t, held, Done);
  }

  lemma BoxIsDisciplined(t: nat, held: seq<Lock>, b: BoxContents)
    requires Above(held, 2)
    ensures Disciplined(t, held, BoxNativeCode(b))
  {
    SweepIsDisciplined(t, held + [Box(b.box)], PokemonLock, b.members);
    HeldIsDisciplined(t, held, Box(b.box), PokemonSweep(b.members));
  }

  lemma {:induction false} BoxesAreDisciplined(t: nat, held: seq<Lock>, boxes: seq<BoxContents>)
    requires Above(held, 2)
    ensures Disciplined(t, held, BoxesCode(boxes))
  {
    if boxes == [] {
    } else {
      BoxIsDisciplined(t, held, boxes[0]);
      BoxesAreDisciplined(t, held, boxes[1..]);
      ThenIsDisciplined(t, held, BoxNativeCode(boxes[0]), BoxesCode(boxes[1..]));
    }
  }

  lemma PcIsDisciplined(t: nat, held: seq<Lock>, pc: nat, boxes: seq<BoxContents>)
    requires Above(held, 1)
    ensures Disciplined(t, held, PcNativeCode(pc, boxes))
  {
    var inside := held + [Pc(pc)];
    BoxesAreDisciplined(t, inside, boxes);
    SweepIsDisciplined(t, inside, BoxLock, seq(|boxes|, i requires 0 <= i < |boxes| => boxes[i].box));
    TimesIsDisciplined(t, inside, BoxSweep(boxes), 2);
    ThenIsDisciplined(t, inside, BoxesCode(boxes), Times(BoxSweep(boxes), 2));
    HeldIsDisciplined(t, held, Pc(pc), Then(BoxesCode(boxes), Times(BoxSweep(boxes), 2)));
  }

  lemma PartyIsDisciplined(t: nat, held: seq<Lock>, party: nat, members: seq<nat>)
    requires Above(held, 2)
    ensures Disciplined(t, held, PartyNativeCode(party, members))
  {
    SweepIsDisciplined(t, held + [Party(party)], PokemonLock, members);
    HeldIsDisciplined(t, held, Party(party), PokemonSweep(members));
  }

  lemma BagIsDisciplined(t: nat, held: seq<Lock>, bag: nat, pockets: seq<nat>)
    requires Above(held, 1)
    ensures Disciplined(t, held, BagNativeCode(bag, pockets))
  {
    SweepIsDisciplined(t, held + [Bag(bag)], PocketLock, pockets);
    HeldIsDisciplined(t, held, Bag(bag), Sweep(PocketLock, pockets));
  }

  lemma SaveIsDisciplined(t: nat, held: seq<Lock>, c: SaveContents)
    requires Above(held, 1)
    ensures Disciplined(t, held, SaveCode(c)) && Disciplined(t, held, GameCubeSaveCode(c))
  {
    var bag, items := BagNativeCode(c.bag, c.pockets), Getter(Items(c.itemPc));
    var party, pc := PartyNativeCode(c.party, c.members), PcNativeCode(c.pc, c.boxes);
    var pokedex := Getter(Pokedex(c.pokedex));
    BagIsDisciplined(t, held, c.bag, c.pockets);
    PartyIsDisciplined(t, held, c.party, c.members);
    PcIsDisciplined(t, held, c.pc, c.boxes);
    GetterIsDisciplined(t, held, Items(c.itemPc));
    GetterIsDisciplined(t, held, Pokedex(c.pokedex));
    ThenIsDisciplined(t, held, pc, pokedex);
    ThenIsDisciplined(t, held, party, Then(pc, pokedex));
    ThenIsDisciplined(t, held, items, Then(party, Then(pc, pokedex)));
    ThenIsDisciplined(t, held, bag, Then(items, Then(party, Then(pc, pokedex))));
    ThenIsDisciplined(t, held, pc, bag);
    ThenIsDisciplined(t, held, items, Then(pc, bag));
    ThenIsDisciplined(t, held, party, Then(items, Then(pc, bag)));
  }

  lemma HoldingIsDisciplined(t: nat, l: Lock, body: Code)
    requires Disciplined(t, [l], body) && !Foreign(t, l)
    ensures Disciplined(t, [], Holding(l, body))
  {
    assert [] + [l] == [l];
    assert MayTake(t, [], l) && Disciplined(t, [], Done);
  }

  lemma BagEditIsDisciplined(t: nat, bag: nat, pocket: nat, pockets: seq<nat>)
    ensures Disciplined(t, [], EditBagCode(bag, pocket, pockets))
  {
    GetterIsDisciplined(t, [Bag(bag)], Items(pocket));
    SweepIsDisciplined(t, [Bag(bag)], PocketLock, pockets);
    ThenIsDisciplined(t, [Bag(bag)], Getter(Items(pocket)), Sweep(PocketLock, pockets));
    HoldingIsDisciplined(t, Bag(bag), Then(Getter(Items(pocket)), Sweep(PocketLock, pockets)));
  }

  lemma PokemonEditIsDisciplined(t: nat, pokemon: nat, n: nat)
    ensures Disciplined(t, [], Holding(Pokemon(pokemon), OwnCalls(pokemon, n)))
  {
    GetterIsDisciplined(t, [Pokemon(pokemon), Pokemon(pokemon)], Pokemon(pokemon));
    TimesIsDisciplined(t, [Pokemon(pokemon)], Holding(Pokemon(pokemon), Getter(Pokemon(pokemon))), n);
    HoldingIsDisciplined(t, Pokemon(pokemon), OwnCalls(pokemon, n));
  }

  /** Every call keeps the order, but for a daycare placement that is not orderly. */
  lemma CallIsDisciplinedIff(t: nat, c: Call)
    ensures Disciplined(t, [], CallCode(t, c)) <==> Orderly(c)
  {
    match c
    case SetHasSeen(d, value, caught) => SettersAreDisciplined(t, [], d, value, caught);
    case SetHasCaught(d, value, seen) => SettersAreDisciplined(t, [], d, value, seen);
    case ReadPokedex(_) =>
    case EditItems(_) =>
    case EditBag(b, pocket, pockets) =>
      BagEditIsDisciplined(t, b, pocket, pockets);
    case EditPokemon(p, n) =>
      PokemonEditIsDisciplined(t, p, n);
    case PlaceInParty(party, p) => PlacementIsDisciplined(t, Getter(Party(party)), Party(party), p);
    case PlaceInBox(box, present, p) =>
      var before := if present.Some? then Getter(Pokemon(present.value)) else Getter(Box(box));
      PlacementIsDisciplined(t, before, Box(box), p);
    case PlaceInDaycare(d, p, other, first) => DaycareIsDisciplinedIff(t, d, p, other, first);
    case DaycareNative(d, residents) =>
      SweepIsDisciplined(t, [] + [Daycare(d)], PokemonLock, residents);
      HeldIsDisciplined(t, [], Daycare(d), PokemonSweep(residents));
    case PartyNative(party, members) => PartyIsDisciplined(t, [], party, members);
    case BoxNative(box, members) => BoxIsDisciplined(t, [], BoxContents(box, members));
    case PcNative(pc, boxes) => PcIsDisciplined(t, [], pc, boxes);
    case SaveAs(save, contents) =>
      SaveIsDisciplined(t, [Save(save)], contents);
      HoldingIsDisciplined(t, Save(save), SaveCode(contents));
    case GameCubeSaveAs(save, contents) =>
      SaveIsDisciplined(t, [Save(save)], contents);
      HoldingIsDisciplined(t, Save(save), GameCubeSaveCode(contents));
  }

  lemma PlacementIsDisciplined(t: nat, before: Code, container: Lock, p: Placing)
    requires Disciplined(t, [], before) && !container.OwnPokemon? && Level(container) == 2
    ensures Disciplined(t, [], Then(before, Then(Getter(Pokemon(p.pokemon)), Holding(container, PlaceCode(t, p)))))
  {
    PlaceIsDisciplined(t, [container], p);
    var held := Holding(container, PlaceCode(t, p));
    HoldingIsDisciplined(t, container, PlaceCode(t, p));
    ThenIsDisciplined(t, [], Getter(Pokemon(p.pokemon)), held);
    ThenIsDisciplined(t, [], before, Then(Getter(Pokemon(p.pokemon)), held));
  }

  // ---------------------------------------------------------------- calls as they went

  /** `went` is `code` with guards left out: because an exception ended the call, which releases the
      guards that are open and runs nothing else; because a branch was not taken; or because an
      accessor takes no lock. */
  predicate PartOf(went: Code, code: Code)
    decreases code
  {
    || went == Done
    || (code.Guard? && PartOf(went, code.next))
    || (went.Guard? && code.Guard? && went.lock == code.lock
        && PartOf(went.body, code.body) && PartOf(went.next, code.next))
  }

  lemma {:induction false} PartIsDisciplined(t: nat, held: seq<Lock>, went: Code, code: Code)
    requires PartOf(went, code) && Disciplined(t, held, code)
    ensures Disciplined(t, held, went)
    decreases code
  {
    if went == Done {
    } else if PartOf(went, code.next) {
      PartIsDisciplined(t, held, went, code.next);
    } else {
      PartIsDisciplined(t, held + [code.lock], went.body, code.body);
      PartIsDisciplined(t, held, went.next, code.next);
    }
  }

  // ---------------------------------------------------------------- the theorem

  /** A call as it went: in full, or in part. */
  datatype Attempt = Attempt(call: Call, went: Code)

  predicate Possible(t: nat, attempts: seq<Attempt>) {
    forall i | 0 <= i < |attempts| ::
      attempts[i].went == CallCode(t, attempts[i].call) || PartOf(attempts[i].went, CallCode(t, attempts[i].call))
  }

  predicate AllOrderly(attempts: seq<Attempt>) {
    forall i | 0 <= i < |attempts| :: Orderly(attempts[i].call)
  }

  function Program(attempts: seq<Attempt>): Code {
    if attempts == [] then Done else Then(attempts[0].went, Program(attempts[1..]))
  }

  lemma {:induction false} ProgramIsDisciplined(t: nat, attempts: seq<Attempt>)
    requires Possible(t, attempts) && AllOrderly(attempts)
    ensures Disciplined(t, [], Program(attempts))
  {
    if attempts == [] {
    } else {
      CallIsDisciplinedIff(t, attempts[0].call);
      if attempts[0].went != CallCode(t, attempts[0].call) {
        PartIsDisciplined(t, [], attempts[0].went, CallCode(t, attempts[0].call));
      }
      ProgramIsDisciplined(t, attempts[1..]);
      ThenIsDisciplined(t, [], attempts[0].went, Program(attempts[1..]));
    }
  }

  /** Any number of threads, each making any orderly calls on shared objects, in full or in part: in every
      state that any schedule reaches, either every call is over and every mutex is free, or some
      thread can move; and no schedule runs for ever. */
  lemma LibraryNeverDeadlocks(threads: seq<seq<Attempt>>, schedule: seq<nat>, s: State)
    requires forall t: nat | t < |threads| :: Possible(t, threads[t]) && AllOrderly(threads[t])
    requires Reaches(Start(seq(|threads|, t requires 0 <= t < |threads| => Program(threads[t]))), schedule, s)
    ensures if Finished(s) then s.mutexes == map[] else exists t: nat :: Enabled(s, t)
    ensures |schedule| <= Work(Start(seq(|threads|, t requires 0 <= t < |threads| => Program(threads[t]))).rest)
  {
    var programs := seq(|threads|, t requires 0 <= t < |threads| => Program(threads[t]));
    forall t: nat | t < |programs| ensures Disciplined(t, [], programs[t]) {
      ProgramIsDisciplined(t, threads[t]);
    }
    DisciplineIsDeadlockFree(programs, schedule, s);
  }
}
