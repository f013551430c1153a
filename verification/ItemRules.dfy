/**
 The ordered item list: distinct slots in a vector of fixed capacity, the first `num` of
 them in use, mirrored slot by slot into a native array of (index, count) pairs.

 This module says what one call does to the list, as functions of the list before it.
 */
module ItemRules {
  import opened Common

  type Item = nat

  const NONE: Item := 0

  datatype Slot = Slot(item: Item, amount: int)

  const EMPTY := Slot(NONE, 0)

  /** What the database says about items in one game. `known` items have an index. */
  datatype Catalog = Catalog(
    known: Item -> bool,
    listId: Item -> int,
    pocket: Item -> string,
    index: Item -> nat,
    itemAt: nat -> Item)

  datatype Setup = Setup(capacity: nat, pc: bool, listId: int, name: string, catalog: Catalog)

  datatype ListState = ListState(slots: seq<Slot>, num: int)

  datatype Result = Result(state: ListState, outcome: Outcome)

  /** What the vector accesses of every call rely on. */
  predicate Shaped(setup: Setup, s: ListState) {
    |s.slots| == setup.capacity && 0 <= s.num <= setup.capacity
  }

  // ---------------------------------------------------------------- one call

  /** The first slot in use that holds `item`, or `num`. */
  function Find(s: ListState, item: Item, start: nat := 0): (i: int)
    requires 0 <= s.num <= |s.slots| && start <= s.num
    ensures start <= i <= s.num
    ensures forall k | start <= k < i :: s.slots[k].item != item
    ensures i < s.num ==> s.slots[i].item == item
    decreases s.num - start
  {
    if start == s.num || s.slots[start].item == item then start else Find(s, item, start + 1)
  }

  function Erase(slots: seq<Slot>, i: nat): seq<Slot>
    requires i < |slots|
  {
    slots[..i] + slots[i + 1..]
  }

  function Insert(slots: seq<Slot>, i: nat, slot: Slot): seq<Slot>
    requires i <= |slots|
  {
    slots[..i] + [slot] + slots[i..]
  }

  /** An item fits at the end of the list unless the database does not know it or files it
      under another list; PC lists take every item. */
  predicate Fits(setup: Setup, item: Item) {
    setup.catalog.known(item) && (setup.pc || setup.catalog.listId(item) == setup.listId)
  }

  function Add(setup: Setup, s: ListState, item: Item, amount: int): Result
    requires Shaped(setup, s)
  {
    if !(1 <= amount <= 99) then Result(s, OutOfRange)
    else
      var i := Find(s, item);
      if i < s.num then
        if s.slots[i].amount == 99 || s.slots[i].amount + amount > 99 then Result(s, RuntimeError)
        else Result(s.(slots := s.slots[i := Slot(item, s.slots[i].amount + amount)]), Success)
      else if s.num == setup.capacity then Result(s, RuntimeError)
      else if !Fits(setup, item) then Result(s, InvalidArgument)
      else Result(ListState(s.slots[s.num := Slot(item, amount)], s.num + 1), Success)
  }

  function Remove(setup: Setup, s: ListState, item: Item, amount: int): Result
    requires Shaped(setup, s)
  {
    if !(1 <= amount <= 99) then Result(s, OutOfRange)
    else
      var i := Find(s, item);
      if i == s.num then Result(s, InvalidArgument)
      else if s.slots[i].amount < amount then Result(s, RuntimeError)
      else if s.slots[i].amount == amount then Result(ListState(Erase(s.slots, i) + [EMPTY], s.num - 1), Success)
      else Result(s.(slots := s.slots[i := Slot(item, s.slots[i].amount - amount)]), Success)
  }

  function Move(setup: Setup, s: ListState, from: int, to: int): Result
    requires Shaped(setup, s)
  {
    if !(0 <= from < s.num && 0 <= to < s.num) then Result(s, RangeError)
    else if from == to then Result(s, InvalidArgument)
    else Result(s.(slots := Insert(Erase(s.slots, from), to, s.slots[from])), Success)
  }

  predicate Elsewhere(s: ListState, item: Item, position: int)
    requires 0 <= s.num <= |s.slots|
  {
    exists k | 0 <= k < s.num :: k != position && s.slots[k].item == item
  }

  function SetItemCheck(setup: Setup, s: ListState, position: int, item: Item, amount: int): Outcome
    requires Shaped(setup, s)
  {
    if !(0 <= position <= Min(s.num, setup.capacity - 1)) then OutOfRange
    else if item == NONE then if amount != 0 then InvalidArgument else Success
    else if !setup.catalog.known(item) then InvalidArgument
    else if setup.name != "PC" && setup.catalog.pocket(item) != setup.name then InvalidArgument
    else if !(1 <= amount <= 99) then OutOfRange
    else if Elsewhere(s, item, position) then InvalidArgument
    else Success
  }

  function SetItem(setup: Setup, s: ListState, position: int, item: Item, amount: int): Result
    requires Shaped(setup, s)
  {
    var outcome := SetItemCheck(setup, s, position, item, amount);
    var last := Min(s.num, setup.capacity - 1);
    if outcome != Success then Result(s, outcome)
    else if item == NONE && position < last then
      Result(ListState(Erase(s.slots, position) + [EMPTY], s.num - 1), Success)
    else
      Result(ListState(s.slots[position := Slot(item, amount)],
                       if position == last then s.num + 1 else s.num), Success)
  }

  // ---------------------------------------------------------------- the native array

  datatype NativeItem = NativeItem(index: Word16, count: Word16)

  /** Both native fields are 16 bits wide, so what does not fit is cut. */
  function Encode(c: Catalog, slot: Slot): NativeItem {
    NativeItem(c.index(slot.item) % 0x1_0000, slot.amount % 0x1_0000)
  }

  function Decode(c: Catalog, native: NativeItem): Slot {
    Slot(c.itemAt(native.index), native.count)
  }

  /** The index under which the database files the item that it reads from the index. */
  predicate Canonical(c: Catalog, index: Word16) {
    c.index(c.itemAt(index)) % 0x1_0000 == index
  }

  function EncodeAll(c: Catalog, slots: seq<Slot>): (native: seq<NativeItem>)
    ensures |native| == |slots|
    ensures forall i | 0 <= i < |slots| :: native[i] == Encode(c, slots[i])
  {
    seq(|slots|, i requires 0 <= i < |slots| => Encode(c, slots[i]))
  }

  function DecodeAll(c: Catalog, native: seq<NativeItem>): (slots: seq<Slot>)
    ensures |slots| == |native|
    ensures forall i | 0 <= i < |native| :: slots[i] == Decode(c, native[i])
  {
    seq(|native|, i requires 0 <= i < |native| => Decode(c, native[i]))
  }
}
