/**
 The item bag: pockets by name, and a native structure that holds a copy of every pocket.
 The bag files each item itself; the pocket checks the filing again.
 */
module BagRules {
  import opened Common
  import opened ItemRules
  import opened ItemLaws
  import opened ItemOrder

  /** The pockets of a bag, and the pocket under which the database files an item. */
  datatype Filing = Filing(setups: map<string, Setup>, pocketOf: Item -> Option<string>)

  type Bag = map<string, ListState>

  datatype Change = Put(item: Item, amount: int) | Take(item: Item, amount: int)

  datatype BagResult = BagResult(bag: Bag, outcome: Outcome)

  function OpOf(change: Change): Op {
    match change
    case Put(item, amount) => AddOp(item, amount)
    case Take(item, amount) => RemoveOp(item, amount)
  }

  predicate BagShaped(f: Filing, bag: Bag) {
    bag.Keys == f.setups.Keys && forall name | name in bag :: Shaped(f.setups[name], bag[name])
  }

  function BagApply(f: Filing, bag: Bag, change: Change): BagResult
    requires BagShaped(f, bag)
  {
    match f.pocketOf(change.item)
    case None => BagResult(bag, InvalidArgument)
    case Some(name) =>
      if name !in bag then BagResult(bag, OutOfRange)
      else
        var r := Apply(f.setups[name], bag[name], OpOf(change));
        BagResult(bag[name := r.state], r.outcome)
  }

  /** A call is one pocket's call. */
  lemma PocketCallIsBagCall(f: Filing, bag: Bag, change: Change, name: string, r: Result)
    requires BagShaped(f, bag) && f.pocketOf(change.item) == Some(name) && name in bag
    requires r == Apply(f.setups[name], bag[name], OpOf(change))
    ensures BagApply(f, bag, change) == BagResult(bag[name := r.state], r.outcome)
  {
  }

  // ---------------------------------------------------------------- one call

  /** Every pocket is sound and holds only items filed under it. */
  ghost predicate BagSound(f: Filing, bag: Bag) {
    && BagShaped(f, bag)
    && (forall name | name in bag :: Sound(f.setups[name], bag[name]))
    && (forall name | name in bag :: AllFiled(f, name, bag[name]))
  }

  /** A call is safe unless it puts "no item" into a pocket that takes it. */
  predicate BagSafe(f: Filing, bag: Bag, change: Change)
    requires BagShaped(f, bag)
  {
    var pocket := f.pocketOf(change.item);
    pocket.Some? && pocket.value in bag ==> Safe(f.setups[pocket.value], bag[pocket.value], OpOf(change))
  }

  predicate AllFiled(f: Filing, name: string, s: ListState)
    requires 0 <= s.num <= |s.slots|
  {
    forall i | 0 <= i < s.num :: f.pocketOf(s.slots[i].item) == Some(name)
  }

  lemma PocketStaysFiled(f: Filing, name: string, s: ListState, change: Change)
    requires name in f.setups && Sound(f.setups[name], s) && AllFiled(f, name, s)
    requires f.pocketOf(change.item) == Some(name)
    ensures var after := Apply(f.setups[name], s, OpOf(change)).state;
            Shaped(f.setups[name], after) && AllFiled(f, name, after)
  {
  }

  /** Only the pocket of the item can change. */
  lemma OnePocketChanges(f: Filing, bag: Bag, name: string, s: ListState)
    requires BagSound(f, bag) && name in bag
    requires Shaped(f.setups[name], s) && AllFiled(f, name, s)
    ensures BagShaped(f, bag[name := s])
    ensures BagSound(f, bag[name := s]) <==> Sound(f.setups[name], s)
  {
    if BagSound(f, bag[name := s]) {
      assert bag[name := s][name] == s;
    }
  }

  lemma RefusedCallChangesNothing(f: Filing, bag: Bag, change: Change)
    requires BagSound(f, bag) && BagApply(f, bag, change).outcome != Success
    ensures BagApply(f, bag, change).bag == bag
  {
    var pocket := f.pocketOf(change.item);
    if pocket.Some? && pocket.value in bag {
      StepKeepsSoundIff(f.setups[pocket.value], bag[pocket.value], OpOf(change));
    }
  }

  /** A call that is refused changes nothing; any other keeps the bag sound exactly when it is safe. */
  lemma CallKeepsBagSoundIff(f: Filing, bag: Bag, change: Change)
    requires BagSound(f, bag)
    ensures BagShaped(f, BagApply(f, bag, change).bag)
    ensures BagSound(f, BagApply(f, bag, change).bag) <==> BagSafe(f, bag, change)
    ensures BagApply(f, bag, change).outcome != Success ==> BagApply(f, bag, change).bag == bag
  {
    if BagApply(f, bag, change).outcome != Success {
      RefusedCallChangesNothing(f, bag, change);
    }
    var pocket := f.pocketOf(change.item);
    if pocket.Some? && pocket.value in bag {
      var name := pocket.value;
      StepKeepsSoundIff(f.setups[name], bag[name], OpOf(change));
      PocketStaysFiled(f, name, bag[name], change);
      OnePocketChanges(f, bag, name, Apply(f.setups[name], bag[name], OpOf(change)).state);
    }
  }

  /** How many of an item the bag holds, looking only where it is filed. */
  function InBag(f: Filing, bag: Bag, item: Item): int {
    var pocket := f.pocketOf(item);
    if pocket.Some? && pocket.value in bag then Total(bag[pocket.value].slots, item) else 0
  }

  /** No other pocket holds any. */
  lemma NowhereElse(f: Filing, bag: Bag, item: Item, name: string)
    requires BagSound(f, bag) && name in bag && f.pocketOf(item) != Some(name)
    ensures Total(bag[name].slots, item) == 0
  {
    TotalIsFound(f.setups[name], bag[name], item);
  }

  function Moved(f: Filing, bag: Bag, change: Change, item: Item): int
    requires BagShaped(f, bag)
  {
    if item != change.item || BagApply(f, bag, change).outcome != Success then 0
    else if change.Put? then change.amount else -change.amount
  }

  lemma PocketConserves(setup: Setup, s: ListState, change: Change, item: Item)
    requires Sound(setup, s)
    ensures var r := Apply(setup, s, OpOf(change));
            Total(r.state.slots, item) == Total(s.slots, item)
              + if item != change.item || r.outcome != Success then 0
                else if change.Put? then change.amount else -change.amount
  {
    StepKeepsSoundIff(setup, s, OpOf(change));
    if Apply(setup, s, OpOf(change)).outcome == Success {
      AcceptedCallConserves(setup, s, OpOf(change), item);
    }
  }

  lemma CallConserves(f: Filing, bag: Bag, change: Change, item: Item)
    requires BagSound(f, bag)
    ensures InBag(f, BagApply(f, bag, change).bag, item) == InBag(f, bag, item) + Moved(f, bag, change, item)
  {
    var pocket := f.pocketOf(change.item);
    if pocket.Some? && pocket.value in bag {
      PocketConserves(f.setups[pocket.value], bag[pocket.value], change, item);
    }
  }

  /** The bag gives exactly what it has. */
  lemma TakeSucceedsIff(f: Filing, bag: Bag, item: Item, amount: int)
    requires BagSound(f, bag)
    ensures BagApply(f, bag, Take(item, amount)).outcome == Success <==> 1 <= amount <= InBag(f, bag, item)
  {
    var pocket := f.pocketOf(item);
    if pocket.Some? && pocket.value in bag {
      RemoveSucceedsIff(f.setups[pocket.value], bag[pocket.value], item, amount);
    }
  }

  /** The bag takes what the pocket of the item takes: more of what it holds, or a new item if there is
      room and the list files it. */
  lemma PutSucceedsIff(f: Filing, bag: Bag, item: Item, amount: int)
    requires BagSound(f, bag)
    ensures BagApply(f, bag, Put(item, amount)).outcome == Success <==>
            && f.pocketOf(item).Some? && f.pocketOf(item).value in bag
            && 1 <= amount && InBag(f, bag, item) + amount <= 99
            && var name := f.pocketOf(item).value;
               InBag(f, bag, item) > 0 || (bag[name].num < f.setups[name].capacity && Fits(f.setups[name], item))
  {
    var pocket := f.pocketOf(item);
    if pocket.Some? && pocket.value in bag {
      AddSucceedsIff(f.setups[pocket.value], bag[pocket.value], item, amount);
    }
  }

  /** The errors of the bag itself come before those of the pocket: an item that is filed nowhere is
      an invalid argument, one filed under a pocket that this game lacks is out of range. */
  lemma FilingComesFirst(f: Filing, bag: Bag, change: Change)
    requires BagSound(f, bag)
    ensures f.pocketOf(change.item).None? ==> BagApply(f, bag, change) == BagResult(bag, InvalidArgument)
    ensures f.pocketOf(change.item).Some? && f.pocketOf(change.item).value !in bag ==>
              BagApply(f, bag, change) == BagResult(bag, OutOfRange)
    ensures f.pocketOf(change.item).Some? && f.pocketOf(change.item).value in bag && change.Take? ==>
              (BagApply(f, bag, change).outcome == RuntimeError <==>
               1 <= change.amount <= 99 && 0 < InBag(f, bag, change.item) < change.amount)
  {
    var pocket := f.pocketOf(change.item);
    if pocket.Some? && pocket.value in bag && change.Take? {
      RemoveOutcomeIs(f.setups[pocket.value], bag[pocket.value], change.item, change.amount);
    }
  }

  /** A call leaves every pocket but the item's own as it was. */
  lemma OthersStay(f: Filing, bag: Bag, change: Change, name: string)
    requires BagSound(f, bag) && name in bag && f.pocketOf(change.item) != Some(name)
    ensures name in BagApply(f, bag, change).bag && BagApply(f, bag, change).bag[name] == bag[name]
  {
  }

  // ---------------------------------------------------------------- runs

  predicate RunSafe(f: Filing, bag: Bag, changes: seq<Change>)
    requires BagShaped(f, bag)
    decreases |changes|
  {
    changes == [] ||
    (&& BagSafe(f, bag, changes[0])
     && var next := BagApply(f, bag, changes[0]).bag;
        BagShaped(f, next) && RunSafe(f, next, changes[1..]))
  }

  function BagRun(f: Filing, bag: Bag, changes: seq<Change>): Bag
    requires BagShaped(f, bag) && RunSafe(f, bag, changes)
    decreases |changes|
  {
    if changes == [] then bag else BagRun(f, BagApply(f, bag, changes[0]).bag, changes[1..])
  }

  /** What the accepted calls of a run put in, less what they took out. */
  function Net(f: Filing, bag: Bag, changes: seq<Change>, item: Item): int
    requires BagShaped(f, bag) && RunSafe(f, bag, changes)
    decreases |changes|
  {
    if changes == [] then 0
    else Moved(f, bag, changes[0], item) + Net(f, BagApply(f, bag, changes[0]).bag, changes[1..], item)
  }

  /** Over any safe run the bag stays sound, and of every item it ends up with what it had and what
      the accepted calls brought: all of it in the item's own pocket, none in the others. */
  lemma {:induction false} RunConserves(f: Filing, bag: Bag, changes: seq<Change>, item: Item)
    requires BagSound(f, bag) && RunSafe(f, bag, changes)
    ensures BagSound(f, BagRun(f, bag, changes))
    ensures InBag(f, BagRun(f, bag, changes), item) == InBag(f, bag, item) + Net(f, bag, changes, item)
    ensures forall name | name in BagRun(f, bag, changes) && f.pocketOf(item) != Some(name) ::
              Total(BagRun(f, bag, changes)[name].slots, item) == 0
    decreases |changes|
  {
    if changes == [] {
      forall name | name in bag && f.pocketOf(item) != Some(name) ensures Total(bag[name].slots, item) == 0 {
        NowhereElse(f, bag, item, name);
      }
    } else {
      CallKeepsBagSoundIff(f, bag, changes[0]);
      CallConserves(f, bag, changes[0], item);
      RunConserves(f, BagApply(f, bag, changes[0]).bag, changes[1..], item);
    }
  }

  /** If the database files "no item" nowhere, every run is safe. */
  lemma {:induction false} EveryRunIsSafe(f: Filing, bag: Bag, changes: seq<Change>)
    requires BagSound(f, bag) && f.pocketOf(NONE).None?
    ensures RunSafe(f, bag, changes)
    decreases |changes|
  {
    if changes == [] {
    } else {
      CallKeepsBagSoundIff(f, bag, changes[0]);
      EveryRunIsSafe(f, BagApply(f, bag, changes[0]).bag, changes[1..]);
    }
  }
}
