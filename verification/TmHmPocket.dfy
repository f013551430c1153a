/**
 The Generation II TM/HM pocket: one fixed slot per machine, mirrored into two native
 arrays of byte counts.
 */
module TmHmPocket {
  import opened Common
  import opened ItemRules

  const TM_COUNT := 50
  const HM_COUNT := 7
  const SLOT_COUNT := TM_COUNT + HM_COUNT
  const TM01_ID := 305
  const TM50_ID := 354
  const HM01_ID := 397
  const HM07_ID := 403

  /** The slot of an item id, or -1 for an id that is neither a TM nor an HM. */
  function PositionOf(id: Item): int {
    if TM01_ID <= id <= TM50_ID then id - TM01_ID
    else if HM01_ID <= id <= HM07_ID then id - 347
    else -1
  }

  /** The item that the constructor puts into a slot. */
  function MachineAt(position: nat): Item
    requires position < SLOT_COUNT
  {
    if position < TM_COUNT then TM01_ID + position else HM01_ID + (position - TM_COUNT)
  }

  predicate IsMachine(id: Item) {
    TM01_ID <= id <= TM50_ID || HM01_ID <= id <= HM07_ID
  }

  /** Ids and slots match one to one. */
  lemma PositionIsBijection(id: Item, position: nat)
    requires position < SLOT_COUNT
    ensures IsMachine(id) <==> 305 <= id <= 354 || 397 <= id <= 403
    ensures IsMachine(id) <==> 0 <= PositionOf(id)
    ensures IsMachine(id) ==> PositionOf(id) < SLOT_COUNT && MachineAt(PositionOf(id)) == id
    ensures IsMachine(MachineAt(position)) && PositionOf(MachineAt(position)) == position
  {
  }

  /** The slots hold the machines in the order of their ids. */
  lemma MachinesInOrder(p: nat, q: nat)
    requires p < q < SLOT_COUNT
    ensures MachineAt(p) < MachineAt(q) && MachineAt(0) == 305 && MachineAt(56) == 403
  {
  }

  // ---------------------------------------------------------------- one call

  datatype Op = AddOp(id: Item, amount: int) | RemoveOp(id: Item, amount: int)

  /** `listed` says whether the database files an item under this pocket. */
  function Check(listed: Item -> bool, op: Op): Outcome {
    if !(1 <= op.amount <= 99) then OutOfRange
    else if !listed(op.id) then InvalidArgument
    else if PositionOf(op.id) == -1 then if op.AddOp? then InvalidArgument else RuntimeError
    else Success
  }

  /** A call is accepted for 1 to 99 of a machine that is filed under this pocket; whatever else is
      filed here is refused with an error of its own for each kind of call. */
  lemma CheckOutcomeIs(listed: Item -> bool, id: Item, amount: int)
    ensures var added, removed := Check(listed, AddOp(id, amount)), Check(listed, RemoveOp(id, amount));
            var inside, machine := 1 <= amount <= 99, 305 <= id <= 354 || 397 <= id <= 403;
            && (added == Success <==> inside && listed(id) && machine)
            && (removed == Success <==> inside && listed(id) && machine)
            && (added == OutOfRange <==> !inside)
            && (removed == OutOfRange <==> !inside)
            && (added == InvalidArgument <==> inside && !(listed(id) && machine))
            && (removed == InvalidArgument <==> inside && !listed(id))
            && (removed == RuntimeError <==> inside && listed(id) && !machine)
  {
  }

  /** The amount a slot holds after a call on it: saturated, never refused. */
  function AmountAfter(before: int, op: Op): int {
    if op.AddOp? then if before + op.amount >= 99 then 99 else before + op.amount
    else if before <= op.amount then 0 else before - op.amount
  }

  function Apply(listed: Item -> bool, amounts: seq<int>, op: Op): (after: seq<int>)
    requires |amounts| == SLOT_COUNT
    ensures |after| == SLOT_COUNT
  {
    if Check(listed, op) != Success then amounts
    else amounts[PositionOf(op.id) := AmountAfter(amounts[PositionOf(op.id)], op)]
  }

  function Run(listed: Item -> bool, amounts: seq<int>, ops: seq<Op>): (after: seq<int>)
    requires |amounts| == SLOT_COUNT
    ensures |after| == SLOT_COUNT
    decreases |ops|
  {
    if ops == [] then amounts else Run(listed, Apply(listed, amounts, ops[0]), ops[1..])
  }

  predicate InRange(amounts: seq<int>) {
    forall p | 0 <= p < |amounts| :: 0 <= amounts[p] <= 99
  }

  /** The amount of one machine after a run depends only on the accepted calls that name it. */
  function MachineAfter(listed: Item -> bool, before: int, id: Item, ops: seq<Op>): int
    decreases |ops|
  {
    if ops == [] then before
    else
      var next := if ops[0].id == id && Check(listed, ops[0]) == Success then AmountAfter(before, ops[0]) else before;
      MachineAfter(listed, next, id, ops[1..])
  }

  lemma {:induction false} RunBySlot(listed: Item -> bool, amounts: seq<int>, ops: seq<Op>, position: nat)
    requires |amounts| == SLOT_COUNT && position < SLOT_COUNT
    ensures InRange(amounts) ==> InRange(Run(listed, amounts, ops))
    ensures Run(listed, amounts, ops)[position]
            == MachineAfter(listed, amounts[position], MachineAt(position), ops)
    decreases |ops|
  {
    if ops == [] {
    } else {
      PositionIsBijection(ops[0].id, position);
      RunBySlot(listed, Apply(listed, amounts, ops[0]), ops[1..], position);
    }
  }

  /** The sum of the accepted calls of one kind that name a machine. */
  function Sum(listed: Item -> bool, id: Item, ops: seq<Op>, adding: bool): nat {
    if ops == [] then 0
    else (if ops[0].id == id && ops[0].AddOp? == adding && Check(listed, ops[0]) == Success then ops[0].amount else 0)
         + Sum(listed, id, ops[1..], adding)
  }

  /** Saturation is all that is lost: a run that only adds a machine, or only removes it, ends at the
      bound or at the exact sum. */
  lemma {:induction false} OneWayRunSaturates(listed: Item -> bool, before: nat, id: Item, ops: seq<Op>)
    ensures Sum(listed, id, ops, false) == 0 ==>
              var added := Sum(listed, id, ops, true);
              MachineAfter(listed, before, id, ops) == if added == 0 then before else Min(99, before + added)
    ensures Sum(listed, id, ops, true) == 0 ==>
              var taken := Sum(listed, id, ops, false);
              MachineAfter(listed, before, id, ops) == if before < taken then 0 else before - taken
    decreases |ops|
  {
    if ops == [] {
    } else {
      var next := if ops[0].id == id && Check(listed, ops[0]) == Success then AmountAfter(before, ops[0]) else before;
      OneWayRunSaturates(listed, next, id, ops[1..]);
    }
  }

  /** Loaded counts are bytes, and saturation also cuts down a count above 99: adding never
      lowers the amount exactly when it was in range. */
  lemma AddNeverLowersIff(listed: Item -> bool, amounts: seq<int>, op: Op)
    requires |amounts| == SLOT_COUNT && op.AddOp? && Check(listed, op) == Success
    ensures var p := PositionOf(op.id);
            Apply(listed, amounts, op)[p] >= amounts[p] <==> amounts[p] <= 99
  {
  }

  /** A pocket loaded with 100 of the first TM has 99 when one more is added. */
  lemma AddOneToHundred(listed: Item -> bool, amounts: seq<int>)
    requires |amounts| == SLOT_COUNT && amounts[0] == 100 && listed(TM01_ID)
    ensures Apply(listed, amounts, AddOp(TM01_ID, 1)) == amounts[0 := 99]
  {
  }

  // ---------------------------------------------------------------- the object

  function PositiveCount(counts: seq<int>): (n: nat)
    ensures n <= |counts|
  {
    if counts == [] then 0
    else PositiveCount(counts[..|counts| - 1]) + (if counts[|counts| - 1] > 0 then 1 else 0)
  }

  function PositiveSlots(counts: seq<int>): set<nat> {
    set i | 0 <= i < |counts| && counts[i] > 0
  }

  /** What is counted is the number of machines of which there are any. */
  lemma {:induction false} PositiveCountIsSize(counts: seq<int>)
    ensures PositiveCount(counts) == |PositiveSlots(counts)|
  {
    if counts == [] {
      assert PositiveSlots(counts) == {};
    } else {
      var last := |counts| - 1;
      var front := counts[..last];
      PositiveCountIsSize(front);
      assert forall i | 0 <= i < last :: front[i] == counts[i];
      assert PositiveSlots(counts) == PositiveSlots(front) + if counts[last] > 0 then {last} else {};
      assert last !in PositiveSlots(front);
    }
  }

  lemma {:induction false} PositiveCountOfConcat(a: seq<int>, b: seq<int>)
    ensures PositiveCount(a + b) == PositiveCount(a) + PositiveCount(b)
  {
    if b == [] {
      assert a + b == a;
    } else {
      PositiveCountOfConcat(a, b[..|b| - 1]);
      assert (a + b)[..|a + b| - 1] == a + b[..|b| - 1];
    }
  }

  class Pocket {
    const listed: Item -> bool
    var itemSlots: seq<Slot>
    const tmCount: array<Byte>
    const hmCount: array<Byte>

    ghost predicate Valid()
      reads this
    {
      && |itemSlots| == SLOT_COUNT && tmCount.Length == TM_COUNT && hmCount.Length == HM_COUNT
      && tmCount != hmCount
      && (forall p: nat | p < SLOT_COUNT :: itemSlots[p].item == MachineAt(p) && 0 <= itemSlots[p].amount < 0x100)
    }

    ghost function Amounts(): (amounts: seq<int>)
      requires Valid()
      reads this
      ensures |amounts| == SLOT_COUNT
    {
      seq(SLOT_COUNT, p requires 0 <= p < SLOT_COUNT reads this requires Valid() => itemSlots[p].amount)
    }

    ghost function NativeCounts(): seq<int>
      reads this, tmCount, hmCount
    {
      tmCount[..] + hmCount[..]
    }

    ghost predicate Mirrored()
      requires Valid()
      reads this, tmCount, hmCount
    {
      NativeCounts() == Amounts()
    }

    constructor (listed: Item -> bool, tms: array<Byte>, hms: array<Byte>)
      requires tms.Length == TM_COUNT && hms.Length == HM_COUNT && tms != hms
      ensures this.listed == listed && tmCount == tms && hmCount == hms
      ensures Valid() && Mirrored()
    {
      this.listed := listed;
      tmCount, hmCount := tms, hms;
      itemSlots := seq(SLOT_COUNT, p requires 0 <= p < SLOT_COUNT => Slot(MachineAt(p), 0));
      new;
      FromNative();
    }

    method FromNative()
      requires Valid()
      modifies this`itemSlots
      ensures Valid() && Mirrored()
    {
      var i := 0;
      while i < TM_COUNT
        invariant 0 <= i <= TM_COUNT && Valid()
        invariant forall p: nat | p < i :: itemSlots[p].amount == tmCount[p]
      {
        itemSlots := itemSlots[i := itemSlots[i].(amount := tmCount[i])];
        i := i + 1;
      }
      i := 0;
      while i < HM_COUNT
        invariant 0 <= i <= HM_COUNT && Valid()
        invariant forall p: nat | p < TM_COUNT :: itemSlots[p].amount == tmCount[p]
        invariant forall p: nat | p < i :: itemSlots[TM_COUNT + p].amount == hmCount[p]
      {
        itemSlots := itemSlots[TM_COUNT + i := itemSlots[TM_COUNT + i].(amount := hmCount[i])];
        i := i + 1;
      }
      forall p | 0 <= p < SLOT_COUNT ensures NativeCounts()[p] == Amounts()[p] {
        if p >= TM_COUNT {
          assert itemSlots[TM_COUNT + (p - TM_COUNT)].amount == hmCount[p - TM_COUNT];
        }
      }
    }

    method ToNative()
      requires Valid()
      modifies tmCount, hmCount
      ensures Mirrored()
    {
      var i := 0;
      while i < TM_COUNT
        invariant 0 <= i <= TM_COUNT
        invariant forall p: nat | p < i :: tmCount[p] == itemSlots[p].amount % 256
      {
        tmCount[i] := itemSlots[i].amount % 256;
        i := i + 1;
      }
      i := 0;
      while i < HM_COUNT
        invariant 0 <= i <= HM_COUNT
        invariant forall p: nat | p < TM_COUNT :: tmCount[p] == itemSlots[p].amount % 256
        invariant forall p: nat | p < i :: hmCount[p] == itemSlots[TM_COUNT + p].amount % 256
      {
        hmCount[i] := itemSlots[TM_COUNT + i].amount % 256;
        i := i + 1;
      }
      forall p: nat | p < SLOT_COUNT ensures NativeCounts()[p] == itemSlots[p].amount % 256 {
        if p >= TM_COUNT {
          assert hmCount[p - TM_COUNT] == itemSlots[TM_COUNT + (p - TM_COUNT)].amount % 256;
        }
      }
    }

    method Add(id: Item, amount: int) returns (outcome: Outcome)
      requires Valid()
      modifies this`itemSlots, tmCount, hmCount
      ensures Valid() && outcome == Check(listed, AddOp(id, amount))
      ensures Amounts() == Apply(listed, old(Amounts()), AddOp(id, amount))
      ensures outcome != Success ==> NativeCounts() == old(NativeCounts())
      ensures outcome == Success ==> Mirrored()
    {
      if !(1 <= amount <= 99) {
        return OutOfRange;
      }
      if !listed(id) {
        return InvalidArgument;
      }
      var position := -1;
      if TM01_ID <= id <= TM50_ID {
        position := id - TM01_ID;
      } else if HM01_ID <= id <= HM07_ID {
        position := id - 347;
      } else {
        return InvalidArgument;
      }
      ghost var before := Amounts();
      var newAmount := itemSlots[position].amount + amount;
      itemSlots := itemSlots[position := itemSlots[position].(amount := Min(99, newAmount))];
      assert Amounts() == Apply(listed, before, AddOp(id, amount));
      ToNative();
      return Success;
    }

    method Remove(id: Item, amount: int) returns (outcome: Outcome)
      requires Valid()
      modifies this`itemSlots, tmCount, hmCount
      ensures Valid() && outcome == Check(listed, RemoveOp(id, amount))
      ensures Amounts() == Apply(listed, old(Amounts()), RemoveOp(id, amount))
      ensures outcome != Success ==> NativeCounts() == old(NativeCounts())
      ensures outcome == Success ==> Mirrored()
    {
      if !(1 <= amount <= 99) {
        return OutOfRange;
      }
      if !listed(id) {
        return InvalidArgument;
      }
      var position := -1;
      if TM01_ID <= id <= TM50_ID {
        position := id - TM01_ID;
      } else if HM01_ID <= id <= HM07_ID {
        position := id - 347;
      } else {
        return RuntimeError;
      }
      ghost var before := Amounts();
      var newAmount := itemSlots[position].amount - amount;
      itemSlots := itemSlots[position := itemSlots[position].(amount := if newAmount < 0 then 0 else newAmount)];
      assert Amounts() == Apply(listed, before, RemoveOp(id, amount));
      ToNative();
      return Success;
    }

    method GetNumItems() returns (n: nat)
      requires Valid()
      ensures n == |PositiveSlots(NativeCounts())|
      ensures Mirrored() ==> n == |PositiveSlots(Amounts())|
    {
      n := 0;
      var i := 0;
      while i < TM_COUNT
        invariant 0 <= i <= TM_COUNT && n == PositiveCount(tmCount[..i])
      {
        assert tmCount[..i + 1][..i] == tmCount[..i];
        n := n + (if tmCount[i] > 0 then 1 else 0);
        i := i + 1;
      }
      assert tmCount[..i] == tmCount[..];
      i := 0;
      while i < HM_COUNT
        invariant 0 <= i <= HM_COUNT && n == PositiveCount(tmCount[..]) + PositiveCount(hmCount[..i])
      {
        assert hmCount[..i + 1][..i] == hmCount[..i];
        n := n + (if hmCount[i] > 0 then 1 else 0);
        i := i + 1;
      }
      assert hmCount[..i] == hmCount[..];
      PositiveCountOfConcat(tmCount[..], hmCount[..]);
      PositiveCountIsSize(tmCount[..] + hmCount[..]);
    }

    /** `set_item` writes the slot but not the native counts. Nothing in this pocket counts
        items, so the only position it accepts is 0. */
    method SetItem(position: int, item: Item, amount: int) returns (outcome: Outcome)
      requires Valid()
      modifies this`itemSlots
      ensures Valid()
      ensures outcome == Success <==>
              position == 0 && listed(item) && 1 <= amount <= 99 && item == MachineAt(0)
      ensures outcome == OutOfRange <==>
              position != 0 || ((item == NONE || listed(item)) && !(1 <= amount <= 99))
      ensures outcome == Success || outcome == OutOfRange || outcome == InvalidArgument
      ensures Amounts() == if outcome == Success then old(Amounts())[0 := amount] else old(Amounts())
      ensures old(Mirrored()) ==> (Mirrored() <==> outcome != Success || amount == old(Amounts())[0])
    {
      if position != 0 {
        return OutOfRange;
      }
      if item != NONE && !listed(item) {
        return InvalidArgument;
      }
      if !(1 <= amount <= 99) {
        return OutOfRange;
      }
      if item != itemSlots[position].item {
        return InvalidArgument;
      }
      ghost var before := Amounts();
      itemSlots := itemSlots[position := itemSlots[position].(amount := amount)];
      assert Amounts() == before[0 := amount];
      return Success;
    }
  }

  /** A new pocket in which `set_item` puts one of the first TM shows it, and has not stored it. */
  method SetItemIsNotStored(listed: Item -> bool) returns (pocket: Pocket)
    requires listed(TM01_ID)
    ensures pocket.Valid() && pocket.Amounts()[0] == 1 && pocket.NativeCounts()[0] == 0 && !pocket.Mirrored()
  {
    var tms, hms := new Byte[TM_COUNT](_ => 0), new Byte[HM_COUNT](_ => 0);
    pocket := new Pocket(listed, tms, hms);
    assert pocket.NativeCounts()[0] == 0;
    assert pocket.Amounts()[0] == 0;
    var _ := pocket.SetItem(0, TM01_ID, 1);
  }
}
