/**
 What a run of calls does to an item list: the invariant it keeps, exactly which calls
 break it, what it conserves, and which calls undo each other.
 */
module ItemLaws {
  import opened Common
  import opened ItemRules

  /** A sound list: distinct real items of the game in amounts 1..99, then empty slots. */
  ghost predicate Sound(setup: Setup, s: ListState) {
    && Shaped(setup, s)
    && (forall i | 0 <= i < s.num ::
          s.slots[i].item != NONE && setup.catalog.known(s.slots[i].item) && 1 <= s.slots[i].amount <= 99)
    && (forall i, j | 0 <= i < j < s.num :: s.slots[i].item != s.slots[j].item)
    && (forall i | s.num <= i < setup.capacity :: s.slots[i] == EMPTY)
  }

  datatype Op =
    | AddOp(item: Item, amount: int)
    | RemoveOp(item: Item, amount: int)
    | MoveOp(source: int, target: int)
    | SetOp(position: int, item: Item, amount: int)

  function Apply(setup: Setup, s: ListState, op: Op): Result
    requires Shaped(setup, s)
  {
    match op
    case AddOp(item, amount) => Add(setup, s, item, amount)
    case RemoveOp(item, amount) => Remove(setup, s, item, amount)
    case MoveOp(source, target) => Move(setup, s, source, target)
    case SetOp(position, item, amount) => SetItem(setup, s, position, item, amount)
  }

  /** The calls that are safe, in terms a caller can test beforehand. Two are not: appending "no
      item" where the list would take it, and an accepted `set_item` at the end boundary that
      writes "no item" or finds the list full. */
  predicate Safe(setup: Setup, s: ListState, op: Op)
    requires Shaped(setup, s)
  {
    match op
    case AddOp(item, amount) =>
      !(item == NONE && 1 <= amount <= 99 && s.num < setup.capacity && Fits(setup, NONE))
    case SetOp(position, item, amount) =>
      || SetItemCheck(setup, s, position, item, amount) != Success
      || position < Min(s.num, setup.capacity - 1)
      || (item != NONE && s.num < setup.capacity)
    case _ => true
  }

  lemma FindIsUnique(s: ListState, item: Item, i: nat)
    requires 0 <= s.num <= |s.slots|
    requires i < s.num && s.slots[i].item == item
    requires forall k | 0 <= k < s.num && k != i :: s.slots[k].item != item
    ensures Find(s, item) == i
  {
  }

  lemma AddKeepsSound(setup: Setup, s: ListState, item: Item, amount: int)
    requires Sound(setup, s)
    ensures Sound(setup, Add(setup, s, item, amount).state) <==> Safe(setup, s, AddOp(item, amount))
  {
    var s' := Add(setup, s, item, amount).state;
    if !Safe(setup, s, AddOp(item, amount)) {
      assert Find(s, NONE) == s.num;
      assert s'.slots[s.num].item == NONE;
    }
  }

  lemma RemoveKeepsSound(setup: Setup, s: ListState, item: Item, amount: int)
    requires Sound(setup, s)
    ensures Sound(setup, Remove(setup, s, item, amount).state)
  {
  }

  /** Where the slot that ends up at `i` was before a move. */
  function Source(from: int, to: int, i: int): int {
    if i == to then from
    else if from <= i < to then i + 1
    else if to < i <= from then i - 1
    else i
  }

  lemma MovedSlot(slots: seq<Slot>, source: nat, target: nat, i: nat)
    requires source < |slots| && target < |slots| && i < |slots|
    ensures Insert(Erase(slots, source), target, slots[source])[i] == slots[Source(source, target, i)]
  {
  }

  lemma RearrangedIsSound(setup: Setup, s: ListState, slots: seq<Slot>, source: nat, target: nat)
    requires Sound(setup, s) && source < s.num && target < s.num
    requires |slots| == |s.slots|
    requires forall i | 0 <= i < |slots| :: slots[i] == s.slots[Source(source, target, i)]
    ensures Sound(setup, s.(slots := slots))
  {
  }

  lemma MoveKeepsSound(setup: Setup, s: ListState, source: int, target: int)
    requires Sound(setup, s)
    ensures Sound(setup, Move(setup, s, source, target).state)
  {
    if Move(setup, s, source, target).outcome == Success {
      var slots := Insert(Erase(s.slots, source), target, s.slots[source]);
      forall i | 0 <= i < |slots| ensures slots[i] == s.slots[Source(source, target, i)] {
        MovedSlot(s.slots, source, target, i);
      }
      RearrangedIsSound(setup, s, slots, source, target);
    }
  }

  lemma SetItemKeepsSound(setup: Setup, s: ListState, position: int, item: Item, amount: int)
    requires Sound(setup, s)
    ensures Sound(setup, SetItem(setup, s, position, item, amount).state)
            <==> Safe(setup, s, SetOp(position, item, amount))
  {
    var s' := SetItem(setup, s, position, item, amount).state;
    if !Safe(setup, s, SetOp(position, item, amount)) && s.num < setup.capacity {
      assert s'.slots[s.num].item == NONE;
    }
  }

  lemma StepKeepsSoundIff(setup: Setup, s: ListState, op: Op)
    requires Sound(setup, s)
    ensures Sound(setup, Apply(setup, s, op).state) <==> Safe(setup, s, op)
    ensures Apply(setup, s, op).outcome != Success ==> Apply(setup, s, op).state == s
  {
    match op
    case AddOp(item, amount) => AddKeepsSound(setup, s, item, amount);
    case RemoveOp(item, amount) => RemoveKeepsSound(setup, s, item, amount);
    case MoveOp(source, target) => MoveKeepsSound(setup, s, source, target);
    case SetOp(position, item, amount) => SetItemKeepsSound(setup, s, position, item, amount);
  }

  // ---------------------------------------------------------------- runs

  function Fresh(setup: Setup): ListState {
    ListState(seq(setup.capacity, _ => EMPTY), 0)
  }

  ghost predicate AlwaysSound(setup: Setup, s: ListState, ops: seq<Op>)
    decreases |ops|
  {
    Sound(setup, s) && (ops == [] || AlwaysSound(setup, Apply(setup, s, ops[0]).state, ops[1..]))
  }

  predicate AlwaysSafe(setup: Setup, s: ListState, ops: seq<Op>)
    decreases |ops|
  {
    ops == [] || (Shaped(setup, s) && Safe(setup, s, ops[0])
                  && AlwaysSafe(setup, Apply(setup, s, ops[0]).state, ops[1..]))
  }

  lemma {:induction false} RunStaysSoundIff(setup: Setup, s: ListState, ops: seq<Op>)
    requires Sound(setup, s)
    ensures AlwaysSound(setup, s, ops) <==> AlwaysSafe(setup, s, ops)
    decreases |ops|
  {
    if ops == [] {
    } else {
      StepKeepsSoundIff(setup, s, ops[0]);
      var s' := Apply(setup, s, ops[0]).state;
      if Safe(setup, s, ops[0]) {
        RunStaysSoundIff(setup, s', ops[1..]);
      }
    }
  }

  /** A run on a new list keeps it sound at every step exactly when every call in it is safe. */
  lemma FreshRunStaysSoundIff(setup: Setup, ops: seq<Op>)
    ensures AlwaysSound(setup, Fresh(setup), ops) <==> AlwaysSafe(setup, Fresh(setup), ops)
  {
    RunStaysSoundIff(setup, Fresh(setup), ops);
  }

  /** The list after a run of safe calls. */
  function RunAll(setup: Setup, s: ListState, ops: seq<Op>): ListState
    requires AlwaysSafe(setup, s, ops)
    decreases |ops|
  {
    if ops == [] then s else RunAll(setup, Apply(setup, s, ops[0]).state, ops[1..])
  }

  /** A PC list with room accepts "no item". */
  lemma AddOfNoneBreaks(setup: Setup)
    requires setup.pc && setup.capacity > 0 && setup.catalog.known(NONE)
    ensures Sound(setup, Fresh(setup))
    ensures var r := Add(setup, Fresh(setup), NONE, 1);
            r.outcome == Success && r.state.slots[0] == Slot(NONE, 1) && r.state.num == 1 && !Sound(setup, r.state)
  {
    assert Add(setup, Fresh(setup), NONE, 1).state.slots[0].item == NONE;
  }

  /** Every list accepts "no item" at its end, and counts it. */
  lemma SetNoneAtEndBreaks(setup: Setup)
    requires setup.capacity > 0
    ensures Sound(setup, Fresh(setup))
    ensures var r := SetItem(setup, Fresh(setup), 0, NONE, 0);
            r.outcome == Success && r.state.slots == Fresh(setup).slots && r.state.num == 1 && !Sound(setup, r.state)
  {
    assert SetItem(setup, Fresh(setup), 0, NONE, 0).state.slots[0].item == NONE;
  }

  /** Replacing the last slot of a full list counts one item more than there are slots. */
  lemma SetLastOfFullBreaks(setup: Setup, item: Item)
    requires setup.capacity == 1 && item != NONE && Fits(setup, item)
    requires setup.name == "PC" || setup.catalog.pocket(item) == setup.name
    ensures var full := Add(setup, Fresh(setup), item, 1).state;
            var r := SetItem(setup, full, 0, item, 2);
            && Sound(setup, full) && full.num == 1
            && r.outcome == Success && r.state == ListState([Slot(item, 2)], 2) && !Sound(setup, r.state)
  {
  }

  // ---------------------------------------------------------------- conservation

  function Share(slot: Slot, item: Item): int {
    if slot.item == item then slot.amount else 0
  }

  /** How many of `item` all the slots hold together. */
  function Total(slots: seq<Slot>, item: Item): int {
    if slots == [] then 0 else Share(slots[0], item) + Total(slots[1..], item)
  }

  lemma {:induction false} TotalOfConcat(a: seq<Slot>, b: seq<Slot>, item: Item)
    ensures Total(a + b, item) == Total(a, item) + Total(b, item)
  {
    if a == [] {
      assert a + b == b;
    } else {
      TotalOfConcat(a[1..], b, item);
      assert (a + b)[1..] == a[1..] + b;
    }
  }

  lemma TotalOfInsert(slots: seq<Slot>, i: nat, slot: Slot, item: Item)
    requires i <= |slots|
    ensures Total(Insert(slots, i, slot), item) == Total(slots, item) + Share(slot, item)
  {
    TotalOfConcat(slots[..i] + [slot], slots[i..], item);
    TotalOfConcat(slots[..i], [slot], item);
    TotalOfConcat(slots[..i], slots[i..], item);
    assert slots == slots[..i] + slots[i..];
  }

  lemma TotalOfErase(slots: seq<Slot>, i: nat, item: Item)
    requires i < |slots|
    ensures Total(Erase(slots, i), item) == Total(slots, item) - Share(slots[i], item)
  {
    TotalOfInsert(Erase(slots, i), i, slots[i], item);
    assert Insert(Erase(slots, i), i, slots[i]) == slots;
  }

  lemma TotalOfUpdate(slots: seq<Slot>, i: nat, slot: Slot, item: Item)
    requires i < |slots|
    ensures Total(slots[i := slot], item) == Total(slots, item) - Share(slots[i], item) + Share(slot, item)
  {
    TotalOfErase(slots, i, item);
    TotalOfErase(slots[i := slot], i, item);
    assert Erase(slots[i := slot], i) == Erase(slots, i);
  }

  lemma {:induction false} TotalOfAbsent(slots: seq<Slot>, item: Item)
    requires forall i | 0 <= i < |slots| :: Share(slots[i], item) == 0
    ensures Total(slots, item) == 0
  {
    if slots == [] {
    } else {
      TotalOfAbsent(slots[1..], item);
    }
  }

  /** `set_item` leaves exactly `amount` of the item it writes and none of the item it replaces. */
  function TotalAfter(s: ListState, op: Op, x: Item): int
    requires op.SetOp? ==> 0 <= op.position < |s.slots|
  {
    match op
    case AddOp(item, amount) => Total(s.slots, x) + (if x == item then amount else 0)
    case RemoveOp(item, amount) => Total(s.slots, x) - (if x == item then amount else 0)
    case MoveOp(_, _) => Total(s.slots, x)
    case SetOp(position, item, amount) =>
      if x == item then amount
      else if x == s.slots[position].item then 0
      else Total(s.slots, x)
  }

  /** An accepted call moves the total of the item it names by the amount it names, and every
      other item's total is what it was (but for the item that `set_item` overwrites). */
  lemma AcceptedCallConserves(setup: Setup, s: ListState, op: Op, x: Item)
    requires Sound(setup, s) && Apply(setup, s, op).outcome == Success
    ensures Total(Apply(setup, s, op).state.slots, x) == TotalAfter(s, op, x)
  {
    match op
    case AddOp(item, amount) =>
      var i := Find(s, item);
      TotalOfUpdate(s.slots, i, Slot(item, (if i < s.num then s.slots[i].amount else 0) + amount), x);
    case RemoveOp(item, amount) =>
      RemoveConserves(setup, s, item, amount, x);
    case MoveOp(source, target) =>
      TotalOfErase(s.slots, source, x);
      TotalOfInsert(Erase(s.slots, source), target, s.slots[source], x);
    case SetOp(position, item, amount) =>
      SetItemConserves(setup, s, position, item, amount, x);
  }

  lemma RemoveConserves(setup: Setup, s: ListState, item: Item, amount: int, x: Item)
    requires Sound(setup, s) && Remove(setup, s, item, amount).outcome == Success
    ensures Total(Remove(setup, s, item, amount).state.slots, x)
            == TotalAfter(s, RemoveOp(item, amount), x)
  {
    var i := Find(s, item);
    TotalOfUpdate(s.slots, i, Slot(item, s.slots[i].amount - amount), x);
    TotalOfErase(s.slots, i, x);
    TotalOfConcat(Erase(s.slots, i), [EMPTY], x);
  }

  lemma SetItemConserves(setup: Setup, s: ListState, position: int, item: Item, amount: int, x: Item)
    requires Sound(setup, s) && SetItemCheck(setup, s, position, item, amount) == Success
    ensures Total(SetItem(setup, s, position, item, amount).state.slots, x)
            == TotalAfter(s, SetOp(position, item, amount), x)
  {
    TotalOfErase(s.slots, position, x);
    TotalOfUpdate(s.slots, position, Slot(item, amount), x);
    TotalOfConcat(Erase(s.slots, position), [EMPTY], x);
    if x == item || x == s.slots[position].item {
      forall i | 0 <= i < |Erase(s.slots, position)| ensures Share(Erase(s.slots, position)[i], x) == 0 {
        var k := if i < position then i else i + 1;
        assert Erase(s.slots, position)[i] == s.slots[k] && k != position;
      }
      TotalOfAbsent(Erase(s.slots, position), x);
    }
  }

  // ---------------------------------------------------------------- acceptance

  /** In a sound list the total of an item is the amount in the one slot that holds it. */
  lemma TotalIsFound(setup: Setup, s: ListState, item: Item)
    requires Sound(setup, s)
    ensures Total(s.slots, item) == if Find(s, item) < s.num then s.slots[Find(s, item)].amount else 0
  {
    var i := Find(s, item);
    if i < s.num {
      TotalOfErase(s.slots, i, item);
      forall k | 0 <= k < |Erase(s.slots, i)| ensures Share(Erase(s.slots, i)[k], item) == 0 {
        assert Erase(s.slots, i)[k] == s.slots[if k < i then k else k + 1];
      }
      TotalOfAbsent(Erase(s.slots, i), item);
    } else {
      TotalOfAbsent(s.slots, item);
    }
  }

  /** An item can be added exactly when the list has some already, or has room and takes it, and
      the total stays within 99. */
  lemma AddSucceedsIff(setup: Setup, s: ListState, item: Item, amount: int)
    requires Sound(setup, s)
    ensures Add(setup, s, item, amount).outcome == Success <==>
            && 1 <= amount && Total(s.slots, item) + amount <= 99
            && (Total(s.slots, item) > 0 || (s.num < setup.capacity && Fits(setup, item)))
  {
    TotalIsFound(setup, s, item);
  }

  /** An item can be removed exactly as far as the list has it. */
  lemma RemoveSucceedsIff(setup: Setup, s: ListState, item: Item, amount: int)
    requires Sound(setup, s)
    ensures Remove(setup, s, item, amount).outcome == Success <==> 1 <= amount <= Total(s.slots, item)
  {
    TotalIsFound(setup, s, item);
  }

  // ---------------------------------------------------------------- inverses

  /** Taking out what was just put in gives back the very same list, order included. */
  lemma AddThenRemove(setup: Setup, s: ListState, item: Item, amount: int)
    requires Sound(setup, s) && item != NONE
    requires Add(setup, s, item, amount).outcome == Success
    ensures Remove(setup, Add(setup, s, item, amount).state, item, amount) == Result(s, Success)
  {
    var i := Find(s, item);
    var s' := Add(setup, s, item, amount).state;
    FindIsUnique(s', item, i);
    var back := Remove(setup, s', item, amount).state;
    assert back.slots == s.slots;
  }

  /** A move takes one slot to its new position and keeps the order of all the others; the
      move with the positions swapped undoes it. */
  lemma MoveRelocates(setup: Setup, s: ListState, source: int, target: int)
    requires Shaped(setup, s) && Move(setup, s, source, target).outcome == Success
    ensures var s' := Move(setup, s, source, target).state;
            && s'.num == s.num
            && s'.slots[target] == s.slots[source]
            && Erase(s'.slots, target) == Erase(s.slots, source)
            && Move(setup, s', target, source) == Result(s, Success)
  {
  }

  // ---------------------------------------------------------------- the native array

  /** Indices fit in 16 bits and name one item each; "no item" is one of them, with index 0. */
  ghost predicate Faithful(c: Catalog) {
    && c.known(NONE) && c.index(NONE) == 0
    && forall item | c.known(item) :: c.index(item) < 0x1_0000 && c.itemAt(c.index(item)) == item
  }

  /** Zeroed native memory is a new list and its mirror. */
  lemma ZeroMemoryIsFresh(setup: Setup, native: seq<NativeItem>)
    requires Faithful(setup.catalog) && |native| == setup.capacity
    requires forall i | 0 <= i < |native| :: native[i] == NativeItem(0, 0)
    ensures DecodeAll(setup.catalog, native) == Fresh(setup).slots
    ensures EncodeAll(setup.catalog, Fresh(setup).slots) == native
    ensures Sound(setup, Fresh(setup))
  {
  }

  lemma DecodeUndoesEncode(setup: Setup, s: ListState)
    requires Sound(setup, s) && Faithful(setup.catalog)
    ensures DecodeAll(setup.catalog, EncodeAll(setup.catalog, s.slots)) == s.slots
  {
  }

  /** What the constructor makes of native memory: the slots, but no count. */
  function Loaded(c: Catalog, native: seq<NativeItem>): ListState {
    ListState(DecodeAll(c, native), 0)
  }

  /** Saving a sound list and loading it again gives the list back, or a sound list at all,
      only if it was empty: the count of items in use is lost. */
  lemma ReloadIff(setup: Setup, s: ListState)
    requires Sound(setup, s) && Faithful(setup.catalog)
    ensures var again := Loaded(setup.catalog, EncodeAll(setup.catalog, s.slots));
            && again.slots == s.slots
            && (again == s <==> s.num == 0)
            && (Sound(setup, again) <==> s.num == 0)
  {
    DecodeUndoesEncode(setup, s);
    var again := Loaded(setup.catalog, EncodeAll(setup.catalog, s.slots));
    if s.num > 0 {
      assert again.slots[0].item != NONE;
    }
  }

  /** On a list loaded with items, every accepted `add` is taken for the first one: it
      overwrites slot 0, whatever was there. */
  lemma LoadedAddOverwrites(setup: Setup, s: ListState, item: Item, amount: int)
    requires Sound(setup, s) && Faithful(setup.catalog)
    requires Add(setup, Loaded(setup.catalog, EncodeAll(setup.catalog, s.slots)), item, amount).outcome == Success
    ensures Add(setup, Loaded(setup.catalog, EncodeAll(setup.catalog, s.slots)), item, amount).state
            == ListState(s.slots[0 := Slot(item, amount)], 1)
  {
  }
}
