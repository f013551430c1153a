/**
 Which mutexes each call takes, and which it takes while it holds which: all of them, and no
 others.
 */
module CallGuards {
  import opened Common
  import opened Locking
  import opened LibraryCalls

  predicate Takes(code: Code, l: Lock) {
    code.Guard? && (code.lock == l || Takes(code.body, l) || Takes(code.next, l))
  }

  /** `l` is taken inside a guard of `h`. */
  predicate Nests(code: Code, h: Lock, l: Lock) {
    code.Guard? && ((code.lock == h && Takes(code.body, l)) || Nests(code.body, h, l) || Nests(code.next, h, l))
  }

  // ---------------------------------------------------------------- pieces of code

  lemma {:induction false} ThenGuards(a: Code, b: Code, h: Lock, l: Lock)
    ensures Takes(Then(a, b), l) <==> Takes(a, l) || Takes(b, l)
    ensures Nests(Then(a, b), h, l) <==> Nests(a, h, l) || Nests(b, h, l)
    decreases a
  {
    match a
    case Done =>
    case Guard(_, _, next) => ThenGuards(next, b, h, l);
  }

  lemma HoldingGuards(g: Lock, body: Code, h: Lock, l: Lock)
    ensures Takes(Holding(g, body), l) <==> l == g || Takes(body, l)
    ensures Nests(Holding(g, body), h, l) <==> (h == g && Takes(body, l)) || Nests(body, h, l)
  {
    assert !Takes(Done, l) && !Nests(Done, h, l);
  }

  lemma GetterGuards(g: Lock, h: Lock, l: Lock)
    ensures Takes(Getter(g), l) <==> l == g
    ensures !Nests(Getter(g), h, l)
  {
    HoldingGuards(g, Done, h, l);
  }

  lemma {:induction false} TimesGuards(code: Code, n: nat, h: Lock, l: Lock)
    ensures Takes(Times(code, n), l) <==> n > 0 && Takes(code, l)
    ensures Nests(Times(code, n), h, l) <==> n > 0 && Nests(code, h, l)
  {
    if n == 0 {
    } else {
      TimesGuards(code, n - 1, h, l);
      ThenGuards(code, Times(code, n - 1), h, l);
    }
  }

  lemma {:induction false} SweepGuards(kind: nat -> Lock, ids: seq<nat>, h: Lock, l: Lock)
    ensures Takes(Sweep(kind, ids), l) <==> exists id | id in ids :: kind(id) == l
    ensures !Nests(Sweep(kind, ids), h, l)
  {
    if ids == [] {
    } else {
      SweepGuards(kind, ids[1..], h, l);
      GetterGuards(kind(ids[0]), h, l);
      ThenGuards(Getter(kind(ids[0])), Sweep(kind, ids[1..]), h, l);
      assert forall id :: id in ids <==> id == ids[0] || id in ids[1..];
    }
  }

  lemma PokemonSweepGuards(members: seq<nat>, h: Lock, l: Lock)
    ensures Takes(PokemonSweep(members), l) <==> l.Pokemon? && l.id in members
    ensures !Nests(PokemonSweep(members), h, l)
  {
    SweepGuards(PokemonLock, members, h, l);
  }

  lemma PocketSweepGuards(pockets: seq<nat>, h: Lock, l: Lock)
    ensures Takes(Sweep(PocketLock, pockets), l) <==> l.Items? && l.id in pockets
    ensures !Nests(Sweep(PocketLock, pockets), h, l)
  {
    SweepGuards(PocketLock, pockets, h, l);
  }

  lemma SetterGuards(d: nat, value: bool, other: bool, h: Lock, l: Lock)
    ensures Takes(SetHasSeenCode(d, value, other), l) <==> l == Pokedex(d)
    ensures Takes(SetHasCaughtCode(d, value, other), l) <==> l == Pokedex(d)
    ensures Nests(SetHasSeenCode(d, value, other), h, l) ==> h == l
    ensures Nests(SetHasCaughtCode(d, value, other), h, l) ==> h == l
  {
    var getter := Getter(Pokedex(d));
    GetterGuards(Pokedex(d), h, l);
    ThenGuards(getter, if other then getter else Done, h, l);
    HoldingGuards(Pokedex(d), if value then Done else Then(getter, if other then getter else Done), h, l);
    SeenGuards(d, h, l);
    var inner := if other then Done else SetHasSeenCode(d, true, false);
    ThenGuards(getter, inner, h, l);
    HoldingGuards(Pokedex(d), if !value then Done else Then(getter, inner), h, l);
  }

  lemma SeenGuards(d: nat, h: Lock, l: Lock)
    ensures Takes(SetHasSeenCode(d, true, false), l) <==> l == Pokedex(d)
    ensures !Nests(SetHasSeenCode(d, true, false), h, l)
  {
    HoldingGuards(Pokedex(d), Done, h, l);
  }

  lemma ToGameGuards(t: nat, pokemon: nat, h: Lock, l: Lock)
    ensures Takes(ToGameCode(t, pokemon), l) <==> l == Pokemon(pokemon) || l == OwnPokemon(t, 0)
    ensures h != l ==> (Nests(ToGameCode(t, pokemon), h, l) <==> h == Pokemon(pokemon) && l == OwnPokemon(t, 0))
  {
    var self, made := Getter(Pokemon(pokemon)), Getter(OwnPokemon(t, 0));
    GetterGuards(Pokemon(pokemon), h, l);
    GetterGuards(OwnPokemon(t, 0), h, l);
    ThenGuards(self, made, h, l);
    TimesGuards(Then(self, made), 4, h, l);
    HoldingGuards(Pokemon(pokemon), Times(Then(self, made), 4), h, l);
  }

  /** The mutexes that recording a placed Pokémon takes. */
  predicate Recording(p: Placing, l: Lock) {
    p.pokedex.Some? && (l == Pokemon(p.pokemon) || (p.counted && l == Pokedex(p.pokedex.value)))
  }

  lemma RecordGuards(p: Placing, h: Lock, l: Lock)
    ensures Takes(RecordCode(p), l) <==> Recording(p, l)
    ensures Nests(RecordCode(p), h, l) ==> h == l
  {
    if p.pokedex.Some? {
      var self := Getter(Pokemon(p.pokemon));
      var seen := SetHasSeenCode(p.pokedex.value, true, false);
      var caught := SetHasCaughtCode(p.pokedex.value, true, p.seen);
      var record := if !p.counted then Done else Then(seen, caught);
      GetterGuards(Pokemon(p.pokemon), h, l);
      SetterGuards(p.pokedex.value, true, false, h, l);
      SetterGuards(p.pokedex.value, true, p.seen, h, l);
      ThenGuards(seen, caught, h, l);
      ThenGuards(self, record, h, l);
      ThenGuards(self, Then(self, record), h, l);
    }
  }

  lemma NamingGuards(t: nat, p: Placing, h: Lock, l: Lock)
    ensures Takes(NamingCode(t, p), l) <==> p.names > 0 && (l == ActualLock(t, p) || l == MemberLock(t))
    ensures !Nests(NamingCode(t, p), h, l)
  {
    GetterGuards(ActualLock(t, p), h, l);
    GetterGuards(MemberLock(t), h, l);
    TimesGuards(Getter(ActualLock(t, p)), p.names, h, l);
    TimesGuards(Getter(MemberLock(t)), 2, h, l);
    ThenGuards(Times(Getter(ActualLock(t, p)), p.names), Times(Getter(MemberLock(t)), 2), h, l);
  }

  // ---------------------------------------------------------------- placements

  /** The mutexes taken while the copied Pokémon is held, beside its own. */
  predicate UnderActual(t: nat, p: Placing, l: Lock) {
    || (p.names > 0 && l == MemberLock(t))
    || (p.names == 0 && l == Pokemon(p.pokemon))
    || Recording(p, l)
  }

  predicate Placed(t: nat, p: Placing, l: Lock) {
    l == Pokemon(p.pokemon) || (p.foreign && l == OwnPokemon(t, 0)) || UnderActual(t, p, l)
  }

  predicate PlacedUnder(t: nat, p: Placing, h: Lock, l: Lock) {
    || (p.foreign && h == Pokemon(p.pokemon) && l == OwnPokemon(t, 0))
    || (h == ActualLock(t, p) && UnderActual(t, p, l))
  }

  lemma PlaceBodyGuards(t: nat, p: Placing, h: Lock, l: Lock)
    ensures var actual := Getter(ActualLock(t, p));
            var after := if p.names == 0 then Getter(Pokemon(p.pokemon)) else Times(actual, 4);
            var body := Then(actual, Then(NamingCode(t, p), Then(after, RecordCode(p))));
            && (Takes(body, l) <==> l == ActualLock(t, p) || UnderActual(t, p, l))
            && (h != l ==> !Nests(body, h, l))
  {
    var actual := Getter(ActualLock(t, p));
    var after := if p.names == 0 then Getter(Pokemon(p.pokemon)) else Times(actual, 4);
    GetterGuards(ActualLock(t, p), h, l);
    GetterGuards(Pokemon(p.pokemon), h, l);
    TimesGuards(actual, 4, h, l);
    NamingGuards(t, p, h, l);
    RecordGuards(p, h, l);
    ThenGuards(after, RecordCode(p), h, l);
    ThenGuards(NamingCode(t, p), Then(after, RecordCode(p)), h, l);
    ThenGuards(actual, Then(NamingCode(t, p), Then(after, RecordCode(p))), h, l);
  }

  lemma PlaceGuards(t: nat, p: Placing, h: Lock, l: Lock)
    ensures Takes(PlaceCode(t, p), l) <==> Placed(t, p, l)
    ensures h != l ==> (Nests(PlaceCode(t, p), h, l) <==> PlacedUnder(t, p, h, l))
  {
    var self, actual := Getter(Pokemon(p.pokemon)), Getter(ActualLock(t, p));
    var after := if p.names == 0 then self else Times(actual, 4);
    var body := Then(actual, Then(NamingCode(t, p), Then(after, RecordCode(p))));
    var convert := if p.foreign then ToGameCode(t, p.pokemon) else Done;
    var locked := Holding(ActualLock(t, p), body);
    PlaceBodyGuards(t, p, h, l);
    HoldingGuards(ActualLock(t, p), body, h, l);
    ToGameGuards(t, p.pokemon, h, l);
    GetterGuards(Pokemon(p.pokemon), h, l);
    ThenGuards(convert, locked, h, l);
    ThenGuards(self, Then(convert, locked), h, l);
  }

  lemma PlacementGuards(t: nat, before: Code, container: Lock, p: Placing, h: Lock, l: Lock)
    ensures var code := Then(before, Then(Getter(Pokemon(p.pokemon)), Holding(container, PlaceCode(t, p))));
            && (Takes(code, l) <==> Takes(before, l) || l == container || Placed(t, p, l))
            && (h != l ==> (Nests(code, h, l) <==>
                              Nests(before, h, l) || (h == container && Placed(t, p, l)) || PlacedUnder(t, p, h, l)))
  {
    var self, held := Getter(Pokemon(p.pokemon)), Holding(container, PlaceCode(t, p));
    PlaceGuards(t, p, h, l);
    HoldingGuards(container, PlaceCode(t, p), h, l);
    GetterGuards(Pokemon(p.pokemon), h, l);
    ThenGuards(self, held, h, l);
    ThenGuards(before, Then(self, held), h, l);
  }

  /** The mutexes that a daycare takes while it holds the copied Pokémon, beside its own. */
  predicate Resident(t: nat, p: Placing, other: Option<nat>, l: Lock) {
    p.names > 0 && (l == MemberLock(t) || (other.Some? && l == Pokemon(other.value)))
  }

  lemma ResidentsGuards(t: nat, other: Option<nat>, first: bool, h: Lock, l: Lock)
    ensures Takes(ResidentsCode(t, other, first), l) <==>
            l == MemberLock(t) || (other.Some? && l == Pokemon(other.value))
    ensures !Nests(ResidentsCode(t, other, first), h, l)
  {
    var mine := Getter(MemberLock(t));
    GetterGuards(MemberLock(t), h, l);
    TimesGuards(mine, 3, h, l);
    if other.Some? {
      GetterGuards(Pokemon(other.value), h, l);
      ThenGuards(mine, Getter(Pokemon(other.value)), h, l);
      ThenGuards(Getter(Pokemon(other.value)), mine, h, l);
    }
  }

  lemma DaycareBodyGuards(t: nat, p: Placing, other: Option<nat>, first: bool, h: Lock, l: Lock)
    ensures var residents := if p.names == 0 then Done else ResidentsCode(t, other, first);
            var body := Then(Getter(ActualLock(t, p)), Then(NamingCode(t, p), residents));
            && (Takes(body, l) <==> l == ActualLock(t, p) || Resident(t, p, other, l))
            && !Nests(body, h, l)
  {
    var residents := if p.names == 0 then Done else ResidentsCode(t, other, first);
    GetterGuards(ActualLock(t, p), h, l);
    NamingGuards(t, p, h, l);
    ResidentsGuards(t, other, first, h, l);
    ThenGuards(NamingCode(t, p), residents, h, l);
    ThenGuards(Getter(ActualLock(t, p)), Then(NamingCode(t, p), residents), h, l);
  }

  predicate Boarded(t: nat, p: Placing, other: Option<nat>, l: Lock) {
    l == Pokemon(p.pokemon) || (p.foreign && l == OwnPokemon(t, 0)) || Resident(t, p, other, l)
  }

  lemma DaycareGuards(t: nat, d: nat, p: Placing, other: Option<nat>, first: bool, h: Lock, l: Lock)
    ensures Takes(DaycareCode(t, d, p, other, first), l) <==> l == Daycare(d) || Boarded(t, p, other, l)
    ensures h != l ==>
              (Nests(DaycareCode(t, d, p, other, first), h, l) <==>
               || (h == Daycare(d) && Boarded(t, p, other, l))
               || (p.foreign && h == Pokemon(p.pokemon) && l == OwnPokemon(t, 0))
               || (h == ActualLock(t, p) && Resident(t, p, other, l)))
  {
    var residents := if p.names == 0 then Done else ResidentsCode(t, other, first);
    var body := Then(Getter(ActualLock(t, p)), Then(NamingCode(t, p), residents));
    var convert := if p.foreign then ToGameCode(t, p.pokemon) else Done;
    var locked := Holding(ActualLock(t, p), body);
    var self := Getter(Pokemon(p.pokemon));
    DaycareBodyGuards(t, p, other, first, h, l);
    HoldingGuards(ActualLock(t, p), body, h, l);
    ToGameGuards(t, p.pokemon, h, l);
    GetterGuards(Pokemon(p.pokemon), h, l);
    ThenGuards(convert, locked, h, l);
    ThenGuards(self, Then(convert, locked), h, l);
    HoldingGuards(Daycare(d), Then(self, Then(convert, locked)), h, l);
  }

  // ---------------------------------------------------------------- native data

  predicate InBox(b: BoxContents, l: Lock) {
    l == Box(b.box) || (l.Pokemon? && l.id in b.members)
  }

  predicate BoxHolds(b: BoxContents, h: Lock, l: Lock) {
    h == Box(b.box) && l.Pokemon? && l.id in b.members
  }

  lemma BoxGuards(b: BoxContents, h: Lock, l: Lock)
    ensures Takes(BoxNativeCode(b), l) <==> InBox(b, l)
    ensures Nests(BoxNativeCode(b), h, l) <==> BoxHolds(b, h, l)
  {
    PokemonSweepGuards(b.members, h, l);
    HoldingGuards(Box(b.box), PokemonSweep(b.members), h, l);
  }

  lemma {:induction false} BoxesGuards(boxes: seq<BoxContents>, h: Lock, l: Lock)
    ensures Takes(BoxesCode(boxes), l) <==> exists b | b in boxes :: InBox(b, l)
    ensures Nests(BoxesCode(boxes), h, l) <==> exists b | b in boxes :: BoxHolds(b, h, l)
  {
    if boxes == [] {
    } else {
      BoxesGuards(boxes[1..], h, l);
      BoxGuards(boxes[0], h, l);
      ThenGuards(BoxNativeCode(boxes[0]), BoxesCode(boxes[1..]), h, l);
      assert forall b :: b in boxes <==> b == boxes[0] || b in boxes[1..];
    }
  }

  lemma BoxSweepGuards(boxes: seq<BoxContents>, h: Lock, l: Lock)
    ensures Takes(Times(BoxSweep(boxes), 2), l) <==> exists b | b in boxes :: l == Box(b.box)
    ensures !Nests(Times(BoxSweep(boxes), 2), h, l)
  {
    var ids := seq(|boxes|, i requires 0 <= i < |boxes| => boxes[i].box);
    SweepGuards(BoxLock, ids, h, l);
    TimesGuards(BoxSweep(boxes), 2, h, l);
    forall b | b in boxes ensures b.box in ids {
      var i :| 0 <= i < |boxes| && boxes[i] == b;
      assert ids[i] == b.box;
    }
    forall id | id in ids ensures exists b | b in boxes :: b.box == id {
      var i :| 0 <= i < |ids| && ids[i] == id;
      assert boxes[i] in boxes;
    }
  }

  predicate InPc(pc: nat, boxes: seq<BoxContents>, l: Lock) {
    l == Pc(pc) || exists b | b in boxes :: InBox(b, l)
  }

  predicate PcHolds(pc: nat, boxes: seq<BoxContents>, h: Lock, l: Lock) {
    exists b | b in boxes :: (h == Pc(pc) && InBox(b, l)) || BoxHolds(b, h, l)
  }

  lemma PcGuards(pc: nat, boxes: seq<BoxContents>, h: Lock, l: Lock)
    ensures Takes(PcNativeCode(pc, boxes), l) <==> InPc(pc, boxes, l)
    ensures Nests(PcNativeCode(pc, boxes), h, l) <==> PcHolds(pc, boxes, h, l)
  {
    var names := Times(BoxSweep(boxes), 2);
    BoxesGuards(boxes, h, l);
    BoxSweepGuards(boxes, h, l);
    ThenGuards(BoxesCode(boxes), names, h, l);
    HoldingGuards(Pc(pc), Then(BoxesCode(boxes), names), h, l);
    assert Takes(names, l) ==> exists b | b in boxes :: InBox(b, l);
  }

  predicate InParty(party: nat, members: seq<nat>, l: Lock) {
    l == Party(party) || (l.Pokemon? && l.id in members)
  }

  predicate PartyHolds(party: nat, members: seq<nat>, h: Lock, l: Lock) {
    h == Party(party) && l.Pokemon? && l.id in members
  }

  lemma PartyGuards(party: nat, members: seq<nat>, h: Lock, l: Lock)
    ensures Takes(PartyNativeCode(party, members), l) <==> InParty(party, members, l)
    ensures Nests(PartyNativeCode(party, members), h, l) <==> PartyHolds(party, members, h, l)
  {
    PokemonSweepGuards(members, h, l);
    HoldingGuards(Party(party), PokemonSweep(members), h, l);
  }

  predicate InBag(bag: nat, pockets: seq<nat>, l: Lock) {
    l == Bag(bag) || (l.Items? && l.id in pockets)
  }

  predicate BagHolds(bag: nat, pockets: seq<nat>, h: Lock, l: Lock) {
    h == Bag(bag) && l.Items? && l.id in pockets
  }

  lemma BagGuards(bag: nat, pockets: seq<nat>, h: Lock, l: Lock)
    ensures Takes(BagNativeCode(bag, pockets), l) <==> InBag(bag, pockets, l)
    ensures Nests(BagNativeCode(bag, pockets), h, l) <==> BagHolds(bag, pockets, h, l)
  {
    PocketSweepGuards(pockets, h, l);
    HoldingGuards(Bag(bag), Sweep(PocketLock, pockets), h, l);
  }

  // ---------------------------------------------------------------- saves

  predicate InSave(c: SaveContents, pokedex: bool, l: Lock) {
    || InBag(c.bag, c.pockets, l)
    || l == Items(c.itemPc)
    || InParty(c.party, c.members, l)
    || InPc(c.pc, c.boxes, l)
    || (pokedex && l == Pokedex(c.pokedex))
  }

  predicate SaveHolds(c: SaveContents, h: Lock, l: Lock) {
    || BagHolds(c.bag, c.pockets, h, l)
    || PartyHolds(c.party, c.members, h, l)
    || PcHolds(c.pc, c.boxes, h, l)
  }

  lemma SaveGuards(c: SaveContents, h: Lock, l: Lock)
    ensures Takes(SaveCode(c), l) <==> InSave(c, true, l)
    ensures Takes(GameCubeSaveCode(c), l) <==> InSave(c, false, l)
    ensures Nests(SaveCode(c), h, l) <==> SaveHolds(c, h, l)
    ensures Nests(GameCubeSaveCode(c), h, l) <==> SaveHolds(c, h, l)
  {
    var bag, items := BagNativeCode(c.bag, c.pockets), Getter(Items(c.itemPc));
    var party, pc := PartyNativeCode(c.party, c.members), PcNativeCode(c.pc, c.boxes);
    var pokedex := Getter(Pokedex(c.pokedex));
    BagGuards(c.bag, c.pockets, h, l);
    PartyGuards(c.party, c.members, h, l);
    PcGuards(c.pc, c.boxes, h, l);
    GetterGuards(Items(c.itemPc), h, l);
    GetterGuards(Pokedex(c.pokedex), h, l);
    ThenGuards(pc, pokedex, h, l);
    ThenGuards(party, Then(pc, pokedex), h, l);
    ThenGuards(items, Then(party, Then(pc, pokedex)), h, l);
    ThenGuards(bag, Then(items, Then(party, Then(pc, pokedex))), h, l);
    ThenGuards(pc, bag, h, l);
    ThenGuards(items, Then(pc, bag), h, l);
    ThenGuards(party, Then(items, Then(pc, bag)), h, l);
  }

  // ---------------------------------------------------------------- calls

  /** The mutexes of the objects that a call works on. */
  predicate WorksOn(t: nat, c: Call, l: Lock) {
    match c
    case SetHasSeen(d, _, _) => l == Pokedex(d)
    case SetHasCaught(d, _, _) => l == Pokedex(d)
    case ReadPokedex(d) => l == Pokedex(d)
    case EditItems(list) => l == Items(list)
    case EditBag(bag, pocket, pockets) => InBag(bag, [pocket] + pockets, l)
    case EditPokemon(p, _) => l == Pokemon(p)
    case PlaceInParty(party, p) => l == Party(party) || Placed(t, p, l)
    case PlaceInBox(box, present, p) =>
      l == Box(box) || (present.Some? && l == Pokemon(present.value)) || Placed(t, p, l)
    case PlaceInDaycare(d, p, other, _) => l == Daycare(d) || Boarded(t, p, other, l)
    case DaycareNative(d, residents) => l == Daycare(d) || (l.Pokemon? && l.id in residents)
    case PartyNative(party, members) => InParty(party, members, l)
    case BoxNative(box, members) => InBox(BoxContents(box, members), l)
    case PcNative(pc, boxes) => InPc(pc, boxes, l)
    case SaveAs(save, contents) => l == Save(save) || InSave(contents, true, l)
    case GameCubeSaveAs(save, contents) => l == Save(save) || InSave(contents, false, l)
  }

  /** The mutexes that a call takes while it holds `h`, another one. */
  predicate WorksUnder(t: nat, c: Call, h: Lock, l: Lock) {
    match c
    case EditBag(bag, pocket, pockets) => BagHolds(bag, [pocket] + pockets, h, l)
    case PlaceInParty(party, p) => (h == Party(party) && Placed(t, p, l)) || PlacedUnder(t, p, h, l)
    case PlaceInBox(box, _, p) => (h == Box(box) && Placed(t, p, l)) || PlacedUnder(t, p, h, l)
    case PlaceInDaycare(d, p, other, _) =>
      || (h == Daycare(d) && Boarded(t, p, other, l))
      || (p.foreign && h == Pokemon(p.pokemon) && l == OwnPokemon(t, 0))
      || (h == ActualLock(t, p) && Resident(t, p, other, l))
    case DaycareNative(d, residents) => h == Daycare(d) && l.Pokemon? && l.id in residents
    case PartyNative(party, members) => PartyHolds(party, members, h, l)
    case BoxNative(box, members) => BoxHolds(BoxContents(box, members), h, l)
    case PcNative(pc, boxes) => PcHolds(pc, boxes, h, l)
    case SaveAs(save, contents) => (h == Save(save) && InSave(contents, true, l)) || SaveHolds(contents, h, l)
    case GameCubeSaveAs(save, contents) => (h == Save(save) && InSave(contents, false, l)) || SaveHolds(contents, h, l)
    case _ => false
  }

  lemma EditBagGuards(bag: nat, pocket: nat, pockets: seq<nat>, h: Lock, l: Lock)
    ensures Takes(EditBagCode(bag, pocket, pockets), l) <==> InBag(bag, [pocket] + pockets, l)
    ensures Nests(EditBagCode(bag, pocket, pockets), h, l) <==> BagHolds(bag, [pocket] + pockets, h, l)
  {
    var edit, sweep := Getter(Items(pocket)), Sweep(PocketLock, pockets);
    GetterGuards(Items(pocket), h, l);
    PocketSweepGuards(pockets, h, l);
    ThenGuards(edit, sweep, h, l);
    HoldingGuards(Bag(bag), Then(edit, sweep), h, l);
  }

  lemma EditPokemonGuards(p: nat, n: nat, h: Lock, l: Lock)
    ensures Takes(Holding(Pokemon(p), OwnCalls(p, n)), l) <==> l == Pokemon(p)
    ensures Nests(Holding(Pokemon(p), OwnCalls(p, n)), h, l) ==> h == l
  {
    var own := Holding(Pokemon(p), Getter(Pokemon(p)));
    GetterGuards(Pokemon(p), h, l);
    HoldingGuards(Pokemon(p), Getter(Pokemon(p)), h, l);
    TimesGuards(own, n, h, l);
    HoldingGuards(Pokemon(p), OwnCalls(p, n), h, l);
  }

  lemma PartyPlacingGuards(t: nat, party: nat, p: Placing, h: Lock, l: Lock)
    ensures var c := PlaceInParty(party, p);
            && (Takes(CallCode(t, c), l) <==> WorksOn(t, c, l))
            && (h != l ==> (Nests(CallCode(t, c), h, l) <==> WorksUnder(t, c, h, l)))
  {
    GetterGuards(Party(party), h, l);
    PlacementGuards(t, Getter(Party(party)), Party(party), p, h, l);
  }

  lemma BoxPlacingGuards(t: nat, box: nat, present: Option<nat>, p: Placing, h: Lock, l: Lock)
    ensures var c := PlaceInBox(box, present, p);
            && (Takes(CallCode(t, c), l) <==> WorksOn(t, c, l))
            && (h != l ==> (Nests(CallCode(t, c), h, l) <==> WorksUnder(t, c, h, l)))
  {
    var first := if present.Some? then Pokemon(present.value) else Box(box);
    GetterGuards(first, h, l);
    PlacementGuards(t, Getter(first), Box(box), p, h, l);
  }

  lemma DaycarePlacingGuards(t: nat, d: nat, p: Placing, other: Option<nat>, first: bool, h: Lock, l: Lock)
    ensures var c := PlaceInDaycare(d, p, other, first);
            && (Takes(CallCode(t, c), l) <==> WorksOn(t, c, l))
            && (h != l ==> (Nests(CallCode(t, c), h, l) <==> WorksUnder(t, c, h, l)))
  {
    DaycareGuards(t, d, p, other, first, h, l);
  }

  lemma SavingGuardsAre(t: nat, c: Call, h: Lock, l: Lock)
    requires c.SaveAs? || c.GameCubeSaveAs?
    ensures Takes(CallCode(t, c), l) <==> WorksOn(t, c, l)
    ensures Nests(CallCode(t, c), h, l) <==> WorksUnder(t, c, h, l)
  {
    match c
    case SaveAs(save, contents) =>
      SaveGuards(contents, h, l);
      HoldingGuards(Save(save), SaveCode(contents), h, l);
    case GameCubeSaveAs(save, contents) =>
      SaveGuards(contents, h, l);
      HoldingGuards(Save(save), GameCubeSaveCode(contents), h, l);
  }

  lemma NativeGuardsAre(t: nat, c: Call, h: Lock, l: Lock)
    requires c.DaycareNative? || c.PartyNative? || c.BoxNative? || c.PcNative?
    ensures Takes(CallCode(t, c), l) <==> WorksOn(t, c, l)
    ensures Nests(CallCode(t, c), h, l) <==> WorksUnder(t, c, h, l)
  {
    match c
    case DaycareNative(d, residents) =>
      PokemonSweepGuards(residents, h, l);
      HoldingGuards(Daycare(d), PokemonSweep(residents), h, l);
    case PartyNative(party, members) => PartyGuards(party, members, h, l);
    case BoxNative(box, members) => BoxGuards(BoxContents(box, members), h, l);
    case PcNative(pc, boxes) => PcGuards(pc, boxes, h, l);
  }

  lemma PokedexGuardsAre(t: nat, c: Call, h: Lock, l: Lock)
    requires c.SetHasSeen? || c.SetHasCaught? || c.ReadPokedex?
    ensures Takes(CallCode(t, c), l) <==> WorksOn(t, c, l)
    ensures h != l ==> (Nests(CallCode(t, c), h, l) <==> WorksUnder(t, c, h, l))
  {
    match c
    case SetHasSeen(d, value, caught) => SetterGuards(d, value, caught, h, l);
    case SetHasCaught(d, value, seen) => SetterGuards(d, value, seen, h, l);
    case ReadPokedex(d) => GetterGuards(Pokedex(d), h, l);
  }

  lemma EditingGuardsAre(t: nat, c: Call, h: Lock, l: Lock)
    requires c.EditItems? || c.EditBag? || c.EditPokemon?
    ensures Takes(CallCode(t, c), l) <==> WorksOn(t, c, l)
    ensures h != l ==> (Nests(CallCode(t, c), h, l) <==> WorksUnder(t, c, h, l))
  {
    match c
    case EditItems(list) => GetterGuards(Items(list), h, l);
    case EditBag(bag, pocket, pockets) => EditBagGuards(bag, pocket, pockets, h, l);
    case EditPokemon(p, n) => EditPokemonGuards(p, n, h, l);
  }

  /** A call takes exactly the mutexes of the objects it works on, and each of them under exactly the
      mutexes of the objects above it. */
  lemma CallGuardsAre(t: nat, c: Call, h: Lock, l: Lock)
    ensures Takes(CallCode(t, c), l) <==> WorksOn(t, c, l)
    ensures h != l ==> (Nests(CallCode(t, c), h, l) <==> WorksUnder(t, c, h, l))
  {
    if c.PlaceInParty? {
      PartyPlacingGuards(t, c.party, c.placing, h, l);
    } else if c.PlaceInBox? {
      BoxPlacingGuards(t, c.box, c.present, c.placing, h, l);
    } else if c.PlaceInDaycare? {
      DaycarePlacingGuards(t, c.daycare, c.placing, c.other, c.first, h, l);
    } else if c.SaveAs? || c.GameCubeSaveAs? {
      SavingGuardsAre(t, c, h, l);
    } else if c.DaycareNative? || c.PartyNative? || c.BoxNative? || c.PcNative? {
      NativeGuardsAre(t, c, h, l);
    } else if c.SetHasSeen? || c.SetHasCaught? || c.ReadPokedex? {
      PokedexGuardsAre(t, c, h, l);
    } else {
      EditingGuardsAre(t, c, h, l);
    }
  }

  /** So whatever a PC holds is locked, level by level, when its native data is asked for. */
  lemma PcLocksEverything(t: nat, pc: nat, boxes: seq<BoxContents>, b: BoxContents, member: nat)
    requires b in boxes && member in b.members
    ensures var code := CallCode(t, PcNative(pc, boxes));
            && Takes(code, Pc(pc)) && Nests(code, Pc(pc), Box(b.box)) && Nests(code, Box(b.box), Pokemon(member))
  {
    CallGuardsAre(t, PcNative(pc, boxes), Pc(pc), Pc(pc));
    CallGuardsAre(t, PcNative(pc, boxes), Pc(pc), Box(b.box));
    CallGuardsAre(t, PcNative(pc, boxes), Box(b.box), Pokemon(member));
  }

  /** A save holds its own mutex over all of its parts. */
  lemma SaveLocksEverything(t: nat, save: nat, c: SaveContents, b: BoxContents)
    requires b in c.boxes
    ensures var code := CallCode(t, SaveAs(save, c));
            && Nests(code, Save(save), Bag(c.bag)) && Nests(code, Save(save), Items(c.itemPc))
            && Nests(code, Save(save), Party(c.party)) && Nests(code, Save(save), Pc(c.pc))
            && Nests(code, Save(save), Pokedex(c.pokedex)) && Nests(code, Pc(c.pc), Box(b.box))
            && (forall pocket | pocket in c.pockets :: Nests(code, Bag(c.bag), Items(pocket)))
            && (forall member | member in c.members :: Nests(code, Party(c.party), Pokemon(member)))
            && (forall member | member in b.members :: Nests(code, Box(b.box), Pokemon(member)))
  {
    var call := SaveAs(save, c);
    forall h, l | WorksUnder(t, call, h, l) ensures Nests(CallCode(t, call), h, l) {
      SavingGuardsAre(t, call, h, l);
    }
    assert InBox(b, Box(b.box));
    assert PcHolds(c.pc, c.boxes, Pc(c.pc), Box(b.box));
    forall member | member in b.members ensures PcHolds(c.pc, c.boxes, Box(b.box), Pokemon(member)) {
      assert BoxHolds(b, Box(b.box), Pokemon(member));
    }
  }

  /** A placement holds its container, and under it the Pokémon that is copied, over the Pokédex. */
  lemma BoxLocksDownwards(t: nat, box: nat, present: Option<nat>, p: Placing, dex: nat)
    requires p.pokedex == Some(dex) && p.counted
    ensures var code := CallCode(t, PlaceInBox(box, present, p));
            && Nests(code, Box(box), Pokemon(p.pokemon)) && Nests(code, Box(box), ActualLock(t, p))
            && Nests(code, Box(box), Pokedex(dex)) && Nests(code, ActualLock(t, p), Pokedex(dex))
  {
    BoxPlacingGuards(t, box, present, p, Box(box), Pokemon(p.pokemon));
    BoxPlacingGuards(t, box, present, p, Box(box), ActualLock(t, p));
    BoxPlacingGuards(t, box, present, p, Box(box), Pokedex(dex));
    BoxPlacingGuards(t, box, present, p, ActualLock(t, p), Pokedex(dex));
  }

  lemma PartyLocksDownwards(t: nat, party: nat, p: Placing, dex: nat)
    requires p.pokedex == Some(dex) && p.counted
    ensures var code := CallCode(t, PlaceInParty(party, p));
            && Nests(code, Party(party), Pokemon(p.pokemon)) && Nests(code, Party(party), ActualLock(t, p))
            && Nests(code, Party(party), Pokedex(dex)) && Nests(code, ActualLock(t, p), Pokedex(dex))
  {
    PartyPlacingGuards(t, party, p, Party(party), Pokemon(p.pokemon));
    PartyPlacingGuards(t, party, p, Party(party), ActualLock(t, p));
    PartyPlacingGuards(t, party, p, Party(party), Pokedex(dex));
    PartyPlacingGuards(t, party, p, ActualLock(t, p), Pokedex(dex));
  }

  /** In Generation II the other resident is locked while both the daycare and the Pokémon that is
      handed over are held. Both can be known to other threads, as in no other call. */
  lemma DaycareLocksOtherResident(t: nat, d: nat, p: Placing, other: nat, first: bool)
    requires p.names > 0 && !p.foreign && other != p.pokemon
    ensures var code := CallCode(t, PlaceInDaycare(d, p, Some(other), first));
            && Nests(code, Daycare(d), Pokemon(p.pokemon)) && Nests(code, Daycare(d), Pokemon(other))
            && Nests(code, Pokemon(p.pokemon), Pokemon(other))
  {
    DaycarePlacingGuards(t, d, p, Some(other), first, Daycare(d), Pokemon(p.pokemon));
    DaycarePlacingGuards(t, d, p, Some(other), first, Daycare(d), Pokemon(other));
    DaycarePlacingGuards(t, d, p, Some(other), first, Pokemon(p.pokemon), Pokemon(other));
  }

  /** Parties, boxes and daycares hold their own mutex over each of their members. */
  lemma NativeLocksMembers(t: nat, id: nat, members: seq<nat>, member: nat)
    requires member in members
    ensures Nests(CallCode(t, PartyNative(id, members)), Party(id), Pokemon(member))
    ensures Nests(CallCode(t, BoxNative(id, members)), Box(id), Pokemon(member))
    ensures Nests(CallCode(t, DaycareNative(id, members)), Daycare(id), Pokemon(member))
  {
    NativeGuardsAre(t, PartyNative(id, members), Party(id), Pokemon(member));
    NativeGuardsAre(t, BoxNative(id, members), Box(id), Pokemon(member));
    NativeGuardsAre(t, DaycareNative(id, members), Daycare(id), Pokemon(member));
  }

  // ---------------------------------------------------------------- what runs

  /** A call may go as it is written, or stop at any guard that it would take next. */
  lemma {:induction false} WholeIsPart(code: Code)
    ensures PartOf(code, code)
    decreases code
  {
    match code
    case Done =>
    case Guard(_, body, next) =>
      WholeIsPart(body);
      WholeIsPart(next);
  }

  /** What a thread runs is what its code takes: every guard shows up in the trace as an
      acquisition, and nothing else does. */
  lemma {:induction false} TraceTakes(code: Code, l: Lock)
    ensures Acquire(l) in Trace(code) <==> Takes(code, l)
    decreases code
  {
    match code
    case Done =>
    case Guard(g, body, next) =>
      TraceTakes(body, l);
      TraceTakes(next, l);
      var before, after := [Acquire(g)] + Trace(body), [Release(g)] + Trace(next);
      assert Trace(code) == before + after;
      assert Acquire(l) in Trace(code) <==> Acquire(l) in before || Acquire(l) in after;
      assert Acquire(l) in before <==> l == g || Acquire(l) in Trace(body);
      assert Acquire(l) in after <==> Acquire(l) in Trace(next);
  }
}
