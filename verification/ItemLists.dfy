/**
 The item list object. It performs each call in place, with the loops and the partial
 native writes of the program, and does exactly what `ItemRules` says.
 */
module ItemLists {
  import opened Common
  import opened ItemRules

  class ItemList {
    const setup: Setup
    var itemSlots: seq<Slot>
    var numItems: int
    var pksavList: seq<NativeItem>

    ghost function State(): ListState
      reads this
    {
      ListState(itemSlots, numItems)
    }

    ghost predicate Valid()
      reads this
    {
      Shaped(setup, State()) && |pksavList| == setup.capacity
    }

    ghost predicate Mirrored()
      reads this
    {
      pksavList == EncodeAll(setup.catalog, itemSlots)
    }

    /** A list over native memory. The count of items in use stays zero, whatever was loaded. The
        native array mirrors the slots exactly when it has no second index for any item. */
    constructor (setup: Setup, native: seq<NativeItem>)
      requires |native| == setup.capacity
      ensures this.setup == setup && Valid()
      ensures pksavList == native
      ensures State() == ListState(DecodeAll(setup.catalog, native), 0)
      ensures Mirrored() <==> forall i | 0 <= i < |native| :: Canonical(setup.catalog, native[i].index)
    {
      this.setup := setup;
      pksavList := native;
      numItems := 0;
      itemSlots := seq(setup.capacity, _ => EMPTY);
      new;
      FromNative();
      forall i | 0 <= i < |native|
        ensures Encode(setup.catalog, itemSlots[i]) == native[i] <==> Canonical(setup.catalog, native[i].index)
      {
      }
      assert Mirrored() ==> forall i | 0 <= i < |native| :: Encode(setup.catalog, itemSlots[i]) == native[i];
    }

    method FromNative()
      requires Valid()
      modifies this`itemSlots
      ensures Valid() && itemSlots == DecodeAll(setup.catalog, pksavList)
    {
      var i := 0;
      while i < setup.capacity
        invariant 0 <= i <= setup.capacity == |itemSlots|
        invariant forall k | 0 <= k < i :: itemSlots[k] == Decode(setup.catalog, pksavList[k])
      {
        itemSlots := itemSlots[i := Decode(setup.catalog, pksavList[i])];
        i := i + 1;
      }
    }

    /** Index -1 rewrites the whole native array, any other index one entry of it. */
    method ToNative(index: int)
      requires |pksavList| == |itemSlots| == setup.capacity
      requires -1 <= index < setup.capacity
      modifies this`pksavList
      ensures |pksavList| == setup.capacity
      ensures index == -1 ==> Mirrored()
      ensures index != -1 ==> pksavList == old(pksavList)[index := Encode(setup.catalog, itemSlots[index])]
    {
      if index == -1 {
        var i := 0;
        while i < setup.capacity
          invariant 0 <= i <= setup.capacity == |pksavList|
          invariant forall k | 0 <= k < i :: pksavList[k] == Encode(setup.catalog, itemSlots[k])
        {
          pksavList := pksavList[i := Encode(setup.catalog, itemSlots[i])];
          i := i + 1;
        }
      } else {
        pksavList := pksavList[index := Encode(setup.catalog, itemSlots[index])];
      }
    }

    method Add(item: Item, amount: int) returns (outcome: Outcome)
      requires Valid()
      modifies this
      ensures Valid()
      ensures Result(State(), outcome) == ItemRules.Add(setup, old(State()), item, amount)
      ensures old(Mirrored()) ==> Mirrored()
      ensures outcome != Success ==> pksavList == old(pksavList)
    {
      if !(1 <= amount <= 99) {
        return OutOfRange;
      }
      ghost var before := State();
      var i := 0;
      while i < numItems
        invariant 0 <= i <= numItems
        invariant Find(before, item) == Find(before, item, i)
      {
        if itemSlots[i].item == item {
          if itemSlots[i].amount == 99 {
            return RuntimeError;
          } else if itemSlots[i].amount + amount > 99 {
            return RuntimeError;
          } else {
            itemSlots := itemSlots[i := itemSlots[i].(amount := itemSlots[i].amount + amount)];
            ToNative(i);
            return Success;
          }
        }
        i := i + 1;
      }
      if numItems == setup.capacity {
        return RuntimeError;
      }
      if !setup.catalog.known(item) {
        return InvalidArgument;
      }
      if !setup.pc && setup.catalog.listId(item) != setup.listId {
        return InvalidArgument;
      }
      itemSlots := itemSlots[numItems := Slot(item, amount)];
      numItems := numItems + 1;
      ToNative(numItems - 1);
      return Success;
    }

    method Remove(item: Item, amount: int) returns (outcome: Outcome)
      requires Valid()
      modifies this
      ensures Valid()
      ensures Result(State(), outcome) == ItemRules.Remove(setup, old(State()), item, amount)
      ensures old(Mirrored()) ==> Mirrored()
      ensures outcome != Success ==> pksavList == old(pksavList)
    {
      if !(1 <= amount <= 99) {
        return OutOfRange;
      }
      ghost var before := State();
      var i := 0;
      while i < numItems
        invariant 0 <= i <= numItems
        invariant Find(before, item) == Find(before, item, i)
      {
        if itemSlots[i].item == item {
          if itemSlots[i].amount < amount {
            return RuntimeError;
          }
          itemSlots := itemSlots[i := itemSlots[i].(amount := itemSlots[i].amount - amount)];
          if itemSlots[i].amount == 0 {
            assert Erase(itemSlots, i) == Erase(before.slots, i);
            itemSlots := Erase(itemSlots, i) + [EMPTY];
            numItems := numItems - 1;
            ToNative(-1);
          } else {
            ToNative(i);
          }
          return Success;
        }
        i := i + 1;
      }
      return InvalidArgument;
    }

    method Move(from: int, to: int) returns (outcome: Outcome)
      requires Valid()
      modifies this
      ensures Valid()
      ensures Result(State(), outcome) == ItemRules.Move(setup, old(State()), from, to)
      ensures old(Mirrored()) ==> Mirrored()
      ensures outcome != Success ==> pksavList == old(pksavList)
    {
      if from < 0 || from >= numItems || to < 0 || to >= numItems {
        return RangeError;
      } else if from == to {
        return InvalidArgument;
      }
      var moved := itemSlots[from];
      itemSlots := Erase(itemSlots, from);
      itemSlots := Insert(itemSlots, to, moved);
      ToNative(-1);
      return Success;
    }

    /** Writing at the end of a list counts the position as a new item even when it is not. */
    method SetItem(position: int, item: Item, amount: int) returns (outcome: Outcome)
      requires Valid()
      modifies this
      ensures |itemSlots| == |pksavList| == setup.capacity
      ensures Result(State(), outcome) == ItemRules.SetItem(setup, old(State()), position, item, amount)
      ensures old(Mirrored()) ==> Mirrored()
      ensures outcome != Success ==> pksavList == old(pksavList)
    {
      var last := Min(numItems, setup.capacity - 1);
      if !(0 <= position <= last) {
        return OutOfRange;
      }
      if item == NONE {
        if amount != 0 {
          return InvalidArgument;
        }
      } else {
        if !setup.catalog.known(item) {
          return InvalidArgument;
        }
        if setup.name != "PC" && setup.catalog.pocket(item) != setup.name {
          return InvalidArgument;
        }
        if !(1 <= amount <= 99) {
          return OutOfRange;
        }
        var i := 0;
        while i < numItems
          invariant 0 <= i <= numItems
          invariant forall k | 0 <= k < i :: k != position ==> itemSlots[k].item != item
        {
          if itemSlots[i].item == item && i != position {
            return InvalidArgument;
          }
          i := i + 1;
        }
      }
      ghost var before := itemSlots;
      itemSlots := itemSlots[position := Slot(item, amount)];
      if item == NONE && position < last {
        assert Erase(itemSlots, position) == Erase(before, position);
        itemSlots := Erase(itemSlots, position) + [EMPTY];
        numItems := numItems - 1;
      } else if position == last {
        numItems := numItems + 1;
      }
      ToNative(-1);
      return Success;
    }
  }
}
