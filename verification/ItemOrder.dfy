/**
 Where the slots of an item list are after each call, and which error a refused call gives.
 Totals do not fix either: the order of the items is what the games show.
 */
module ItemOrder {
  import opened Common
  import opened ItemRules
  import opened ItemLaws

  /** The part of the list that the games show. */
  function Shown(s: ListState): seq<Slot>
    requires 0 <= s.num <= |s.slots|
  {
    s.slots[..s.num]
  }

  /** The same list but for slot `i`. */
  ghost predicate OnlySlot(s: ListState, s': ListState, i: int) {
    && |s'.slots| == |s.slots|
    && s'.num == s.num
    && forall k | 0 <= k < |s.slots| && k != i :: s'.slots[k] == s.slots[k]
  }

  // ---------------------------------------------------------------- add

  /** More of an item that the list has: its slot grows and nothing else moves. */
  lemma AddMore(setup: Setup, s: ListState, i: nat, amount: int)
    requires Sound(setup, s) && i < s.num && 1 <= amount && s.slots[i].amount + amount <= 99
    ensures var r := Add(setup, s, s.slots[i].item, amount);
            && r.outcome == Success
            && OnlySlot(s, r.state, i)
            && r.state.slots[i] == Slot(s.slots[i].item, s.slots[i].amount + amount)
  {
    FindIsUnique(s, s.slots[i].item, i);
  }

  /** A new item goes behind all the others. */
  lemma AddNew(setup: Setup, s: ListState, item: Item, amount: int)
    requires Sound(setup, s) && s.num < setup.capacity && 1 <= amount <= 99
    requires setup.catalog.known(item) && (setup.pc || setup.catalog.listId(item) == setup.listId)
    requires forall k | 0 <= k < s.num :: s.slots[k].item != item
    ensures var r := Add(setup, s, item, amount);
            && r.outcome == Success
            && r.state.num == s.num + 1
            && Shown(r.state) == Shown(s) + [Slot(item, amount)]
            && r.state.slots[s.num + 1..] == s.slots[s.num + 1..]
  {
  }

  /** Which of the three errors an `add` gives: the amount is tested first, then the room, and
      what the item is comes last. */
  lemma AddOutcomeIs(setup: Setup, s: ListState, item: Item, amount: int)
    requires Sound(setup, s)
    ensures var outcome, has := Add(setup, s, item, amount).outcome, Total(s.slots, item);
            && (outcome == OutOfRange <==> amount < 1 || amount > 99)
            && (outcome == RuntimeError <==>
                1 <= amount <= 99 && if has > 0 then has + amount > 99 else s.num == setup.capacity)
            && (outcome == InvalidArgument <==>
                1 <= amount <= 99 && has == 0 && s.num < setup.capacity
                && !(setup.catalog.known(item) && (setup.pc || setup.catalog.listId(item) == setup.listId)))
            && (outcome == Success || outcome == OutOfRange || outcome == RuntimeError || outcome == InvalidArgument)
  {
    TotalIsFound(setup, s, item);
  }

  // ---------------------------------------------------------------- remove

  /** All of an item: its slot is taken out, the others keep their order, and the freed slot at
      the end is empty. */
  lemma RemoveAll(setup: Setup, s: ListState, i: nat)
    requires Sound(setup, s) && i < s.num
    ensures var r := Remove(setup, s, s.slots[i].item, s.slots[i].amount);
            && r.outcome == Success
            && r.state.num == s.num - 1
            && Shown(r.state) == s.slots[..i] + s.slots[i + 1..s.num]
            && (forall k | r.state.num <= k < setup.capacity :: r.state.slots[k] == EMPTY)
  {
    FindIsUnique(s, s.slots[i].item, i);
  }

  /** Some of an item: its slot shrinks and nothing else moves. */
  lemma RemoveSome(setup: Setup, s: ListState, i: nat, amount: int)
    requires Sound(setup, s) && i < s.num && 1 <= amount < s.slots[i].amount
    ensures var r := Remove(setup, s, s.slots[i].item, amount);
            && r.outcome == Success
            && OnlySlot(s, r.state, i)
            && r.state.slots[i] == Slot(s.slots[i].item, s.slots[i].amount - amount)
  {
    FindIsUnique(s, s.slots[i].item, i);
  }

  lemma RemoveOutcomeIs(setup: Setup, s: ListState, item: Item, amount: int)
    requires Sound(setup, s)
    ensures var outcome, has := Remove(setup, s, item, amount).outcome, Total(s.slots, item);
            && (outcome == OutOfRange <==> amount < 1 || amount > 99)
            && (outcome == InvalidArgument <==> 1 <= amount <= 99 && has == 0)
            && (outcome == RuntimeError <==> 1 <= amount <= 99 && 0 < has < amount)
            && (outcome == Success || outcome == OutOfRange || outcome == RuntimeError || outcome == InvalidArgument)
  {
    TotalIsFound(setup, s, item);
  }

  /** Taking an item away in two steps leaves the list that one step leaves. */
  lemma RemoveInTwo(setup: Setup, s: ListState, item: Item, a: int, b: int)
    requires Sound(setup, s) && 1 <= a && 1 <= b && a + b <= Total(s.slots, item)
    ensures var half := Remove(setup, s, item, a);
            && half.outcome == Success
            && Remove(setup, half.state, item, b) == Remove(setup, s, item, a + b)
            && Remove(setup, s, item, a + b).outcome == Success
  {
    TotalIsFound(setup, s, item);
    var i := Find(s, item);
    var half := Remove(setup, s, item, a).state;
    FindIsUnique(half, item, i);
    assert Erase(half.slots, i) == Erase(s.slots, i);
  }

  // ---------------------------------------------------------------- move

  /** Only positions in use are moved, and only to another one. */
  lemma MoveOutcomeIs(setup: Setup, s: ListState, source: int, target: int)
    requires Shaped(setup, s)
    ensures var outcome := Move(setup, s, source, target).outcome;
            && (outcome == Success <==> 0 <= source < s.num && 0 <= target < s.num && source != target)
            && (outcome == InvalidArgument <==> 0 <= source < s.num && source == target)
            && (outcome == Success || outcome == RangeError || outcome == InvalidArgument)
  {
  }

  // ---------------------------------------------------------------- set_item

  /** An accepted `set_item` writes its position and leaves all others, and counts one more if the
      position is the end boundary: the first unused slot, or the last slot of a full list. */
  lemma SetWritesOne(setup: Setup, s: ListState, position: int, item: Item, amount: int)
    requires Sound(setup, s) && SetItem(setup, s, position, item, amount).outcome == Success
    requires item != NONE || position == Min(s.num, setup.capacity - 1)
    ensures var s' := SetItem(setup, s, position, item, amount).state;
            && |s'.slots| == |s.slots|
            && s'.slots[position] == Slot(item, amount)
            && (forall k | 0 <= k < |s.slots| && k != position :: s'.slots[k] == s.slots[k])
            && s'.num == s.num + (if position == s.num || position == setup.capacity - 1 then 1 else 0)
  {
  }

  /** "No item" written before the end takes the slot out and keeps the order of the others. */
  lemma SetNoneTakesOut(setup: Setup, s: ListState, position: nat)
    requires Sound(setup, s) && position < Min(s.num, setup.capacity - 1)
    ensures var r := SetItem(setup, s, position, NONE, 0);
            && r.outcome == Success
            && r.state.num == s.num - 1
            && Shown(r.state) == s.slots[..position] + s.slots[position + 1..s.num]
            && (forall k | r.state.num <= k < setup.capacity :: r.state.slots[k] == EMPTY)
  {
  }

  /** An item can be set exactly at a position in use or right behind them, if the list files it,
      the amount is in range and no other slot holds it; "no item" goes in with amount 0 alone. */
  lemma SetSucceedsIff(setup: Setup, s: ListState, position: int, item: Item, amount: int)
    requires Sound(setup, s)
    ensures SetItem(setup, s, position, item, amount).outcome == Success <==>
            && 0 <= position <= s.num && position < setup.capacity
            && if item == NONE then amount == 0
               else
                 && setup.catalog.known(item)
                 && (setup.name == "PC" || setup.catalog.pocket(item) == setup.name)
                 && 1 <= amount <= 99
                 && Total(Erase(s.slots, position), item) == 0
  {
    if 0 <= position <= s.num && position < setup.capacity && item != NONE {
      ElsewhereIsCounted(setup, s, item, position);
    }
  }

  /** What a refused `set_item` throws: of position and amount the range, of anything else the
      argument; the amount of an item is looked at only if the list files it. */
  lemma SetRefusalIs(setup: Setup, s: ListState, position: int, item: Item, amount: int)
    requires Sound(setup, s) && SetItem(setup, s, position, item, amount).outcome != Success
    ensures var r := SetItem(setup, s, position, item, amount);
            var filed := setup.catalog.known(item) && (setup.name == "PC" || setup.catalog.pocket(item) == setup.name);
            && r.state == s
            && r.outcome == if position < 0 || position > s.num || position >= setup.capacity then OutOfRange
                            else if item != NONE && filed && (amount < 1 || amount > 99) then OutOfRange
                            else InvalidArgument
  {
  }

  lemma ElsewhereIsCounted(setup: Setup, s: ListState, item: Item, position: nat)
    requires Sound(setup, s) && position < setup.capacity && item != NONE
    ensures Elsewhere(s, item, position) <==> Total(Erase(s.slots, position), item) != 0
  {
    if Elsewhere(s, item, position) {
      var k :| 0 <= k < s.num && k != position && s.slots[k].item == item;
      TotalOfErase(s.slots, position, item);
      TotalIsFound(setup, s, item);
      FindIsUnique(s, item, k);
    } else {
      var others := Erase(s.slots, position);
      forall k | 0 <= k < |others| ensures Share(others[k], item) == 0 {
        assert others[k] == s.slots[if k < position then k else k + 1];
      }
      TotalOfAbsent(others, item);
    }
  }

  // ---------------------------------------------------------------- the native array

  /** A sound list is written as it is: the game's index of each item beside its amount, nothing
      cut to fit, and zeros behind them. */
  lemma EncodesExactly(setup: Setup, s: ListState, i: nat)
    requires Sound(setup, s) && Faithful(setup.catalog) && i < setup.capacity
    ensures EncodeAll(setup.catalog, s.slots)[i] ==
            if i < s.num then NativeItem(setup.catalog.index(s.slots[i].item), s.slots[i].amount)
            else NativeItem(0, 0)
  {
  }
}
