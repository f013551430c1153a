/** The bag object of a Game Boy Advance game over its five pocket objects. */
module ItemBags {
  import opened Common
  import opened ItemRules
  import opened ItemLaws
  import opened ItemLists
  import opened BagRules

  /** The names that the five pockets of a game have. */
  datatype Names = Names(items: string, balls: string, tmsHms: string, berries: string, keyItems: string)

  /** FireRed and LeafGreen have names of their own for two of the pockets. */
  function NamesIn(frlg: bool): Names {
    Names("Items", "Pok\U{e9} Balls", if frlg then "TM Case" else "TMs & HMs",
          if frlg then "Berry Pouch" else "Berries", "Key Items")
  }

  datatype NativeBag = NativeBag(
    items: seq<NativeItem>, balls: seq<NativeItem>, tmsHms: seq<NativeItem>,
    berries: seq<NativeItem>, keyItems: seq<NativeItem>)

  class ItemBag {
    const names: Names
    const filing: Filing
    const pockets: map<string, ItemList>
    var native: NativeBag

    /** Every pocket that the game names is there. */
    predicate Named() {
      && names.items in pockets && names.balls in pockets && names.tmsHms in pockets
      && names.berries in pockets && names.keyItems in pockets
    }

    ghost predicate Valid()
      reads pockets.Values
    {
      && Named()
      && pockets.Keys == filing.setups.Keys
      && (forall name | name in pockets :: pockets[name].Valid() && pockets[name].setup == filing.setups[name])
      && (forall a, b | a in pockets && b in pockets && a != b :: pockets[a] != pockets[b])
    }

    ghost function States(): (bag: Bag)
      reads pockets.Values
    {
      map name | name in pockets :: pockets[name].State()
    }

    ghost function MirroredPockets(): set<string>
      reads pockets.Values
    {
      set name | name in pockets && pockets[name].Mirrored()
    }

    /** The bag's native structure is up to date with the native array of every pocket. */
    ghost predicate Flushed()
      requires Named()
      reads this, pockets.Values
    {
      native == NativeBag(pockets[names.items].pksavList, pockets[names.balls].pksavList,
                          pockets[names.tmsHms].pksavList, pockets[names.berries].pksavList,
                          pockets[names.keyItems].pksavList)
    }

    constructor (frlg: bool, filing: Filing, pockets: map<string, ItemList>, native: NativeBag)
      requires var n := NamesIn(frlg);
               pockets.Keys == filing.setups.Keys == {n.items, n.balls, n.tmsHms, n.berries, n.keyItems}
      requires forall name | name in pockets :: pockets[name].Valid() && pockets[name].setup == filing.setups[name]
      requires forall a, b | a in pockets && b in pockets && a != b :: pockets[a] != pockets[b]
      ensures Valid() && names == NamesIn(frlg)
      ensures this.filing == filing && this.pockets == pockets && this.native == native
    {
      names := NamesIn(frlg);
      this.filing, this.pockets, this.native := filing, pockets, native;
    }

    /** Which pocket each place of a refreshed native structure copies, game by game. */
    lemma PlacesAre(frlg: bool)
      requires Named() && names == NamesIn(frlg) && Flushed()
      ensures "Items" in pockets && "Pok\U{e9} Balls" in pockets && "Key Items" in pockets
      ensures native.items == pockets["Items"].pksavList && native.balls == pockets["Pok\U{e9} Balls"].pksavList
              && native.keyItems == pockets["Key Items"].pksavList
      ensures frlg ==> "TM Case" in pockets && "Berry Pouch" in pockets
                       && native.tmsHms == pockets["TM Case"].pksavList
                       && native.berries == pockets["Berry Pouch"].pksavList
      ensures !frlg ==> "TMs & HMs" in pockets && "Berries" in pockets
                        && native.tmsHms == pockets["TMs & HMs"].pksavList
                        && native.berries == pockets["Berries"].pksavList
    {
    }

    /** Each pocket goes to its own place, under the name that the game has for it. */
    method ToNative()
      requires Named()
      modifies this`native
      ensures Flushed()
    {
      native := native.(items := pockets[names.items].pksavList);
      native := native.(balls := pockets[names.balls].pksavList);
      native := native.(tmsHms := pockets[names.tmsHms].pksavList);
      native := native.(berries := pockets[names.berries].pksavList);
      native := native.(keyItems := pockets[names.keyItems].pksavList);
    }

    twostate lemma PocketsStayValid(name: string)
      requires old(Valid()) && name in pockets && pockets[name].Valid()
      requires forall other | other in pockets && other != name :: unchanged(pockets[other])
      ensures Valid()
    {
    }

    /** What a change to one pocket means for the bag. */
    twostate lemma OneStateChanges(name: string)
      requires name in pockets
      requires forall other | other in pockets && other != name :: unchanged(pockets[other])
      ensures States() == old(States())[name := pockets[name].State()]
    {
      forall other | other in pockets && other != name
        ensures pockets[other].State() == old(pockets[other].State())
      {
      }
    }

    twostate lemma MirrorsStay(name: string)
      requires name in pockets && (old(pockets[name].Mirrored()) ==> pockets[name].Mirrored())
      requires forall other | other in pockets && other != name :: unchanged(pockets[other])
      ensures old(MirroredPockets()) <= MirroredPockets()
    {
      forall other | other in old(MirroredPockets()) ensures pockets[other].Mirrored() {
        assert other != name ==> unchanged(pockets[other]);
      }
    }

    static method CallOn(pocket: ItemList, change: Change) returns (outcome: Outcome)
      requires pocket.Valid()
      modifies pocket
      ensures pocket.Valid()
      ensures Result(pocket.State(), outcome) == Apply(pocket.setup, old(pocket.State()), OpOf(change))
      ensures old(pocket.Mirrored()) ==> pocket.Mirrored()
    {
      match change {
        case Put(item, amount) => outcome := pocket.Add(item, amount);
        case Take(item, amount) => outcome := pocket.Remove(item, amount);
      }
    }

    /** The call on the pocket, and the refresh after it. A refused call leaves the native structure
        as it was, stale or not. */
    method InPocket(name: string, change: Change) returns (outcome: Outcome)
      requires Valid() && name in pockets
      modifies this`native, pockets.Values
      ensures Valid()
      ensures States() == old(States())[name := pockets[name].State()]
      ensures Result(pockets[name].State(), outcome)
              == Apply(filing.setups[name], old(pockets[name].State()), OpOf(change))
      ensures old(MirroredPockets()) <= MirroredPockets()
      ensures if outcome == Success then Flushed() else native == old(native)
    {
      outcome := CallOn(pockets[name], change);
      PocketsStayValid(name);
      OneStateChanges(name);
      MirrorsStay(name);
      if outcome != Success {
        return;
      }
      ToNative();
    }

    method Add(item: Item, amount: int) returns (outcome: Outcome)
      requires Valid() && BagShaped(filing, States())
      modifies this`native, pockets.Values
      ensures Valid()
      ensures BagResult(States(), outcome) == BagApply(filing, old(States()), Put(item, amount))
      ensures old(MirroredPockets()) <= MirroredPockets()
      ensures if outcome == Success then Flushed() else native == old(native)
    {
      match filing.pocketOf(item) {
        case None => return InvalidArgument;
        case Some(name) =>
          if name !in pockets {
            return OutOfRange;
          }
          outcome := InPocket(name, Put(item, amount));
          PocketCallIsBagCall(filing, old(States()), Put(item, amount), name, Result(pockets[name].State(), outcome));
      }
    }

    method Remove(item: Item, amount: int) returns (outcome: Outcome)
      requires Valid() && BagShaped(filing, States())
      modifies this`native, pockets.Values
      ensures Valid()
      ensures BagResult(States(), outcome) == BagApply(filing, old(States()), Take(item, amount))
      ensures old(MirroredPockets()) <= MirroredPockets()
      ensures if outcome == Success then Flushed() else native == old(native)
    {
      match filing.pocketOf(item) {
        case None => return InvalidArgument;
        case Some(name) =>
          if name !in pockets {
            return OutOfRange;
          }
          outcome := InPocket(name, Take(item, amount));
          PocketCallIsBagCall(filing, old(States()), Take(item, amount), name, Result(pockets[name].State(), outcome));
      }
    }

    /** Pockets can also be edited directly; asking for the native structure refreshes it. */
    method GetNative() returns (n: NativeBag)
      requires Valid()
      modifies this`native
      ensures Flushed() && n == native
    {
      ToNative();
      n := native;
    }
  }
}
