/** Whole runs of calls on an item list object, with its native array. */
module ItemRuns {
  import opened Common
  import opened ItemRules
  import opened ItemLaws
  import opened ItemLists

  method Perform(list: ItemList, op: Op) returns (outcome: Outcome)
    requires list.Valid() && Sound(list.setup, list.State()) && Safe(list.setup, list.State(), op)
    modifies list
    ensures list.Valid() && Sound(list.setup, list.State())
    ensures Result(list.State(), outcome) == Apply(list.setup, old(list.State()), op)
    ensures old(list.Mirrored()) ==> list.Mirrored()
  {
    StepKeepsSoundIff(list.setup, list.State(), op);
    match op {
      case AddOp(item, amount) => outcome := list.Add(item, amount);
      case RemoveOp(item, amount) => outcome := list.Remove(item, amount);
      case MoveOp(source, target) => outcome := list.Move(source, target);
      case SetOp(position, item, amount) => outcome := list.SetItem(position, item, amount);
    }
  }

  /** A new list lies over zeroed memory. After any safe run its native array is the encoding of its
      slots, and decodes to them. */
  method RunOnNew(setup: Setup, ops: seq<Op>) returns (list: ItemList)
    requires Faithful(setup.catalog) && AlwaysSafe(setup, Fresh(setup), ops)
    ensures fresh(list) && list.setup == setup
    ensures list.State() == RunAll(setup, Fresh(setup), ops) && Sound(setup, list.State())
    ensures list.pksavList == EncodeAll(setup.catalog, list.itemSlots)
    ensures DecodeAll(setup.catalog, list.pksavList) == list.itemSlots
  {
    var zeros := seq(setup.capacity, _ => NativeItem(0, 0));
    ZeroMemoryIsFresh(setup, zeros);
    list := new ItemList(setup, zeros);
    var i := 0;
    while i < |ops|
      invariant 0 <= i <= |ops|
      invariant fresh(list) && list.setup == setup && list.Valid() && list.Mirrored()
      invariant Sound(setup, list.State()) && AlwaysSafe(setup, list.State(), ops[i..])
      invariant RunAll(setup, list.State(), ops[i..]) == RunAll(setup, Fresh(setup), ops)
    {
      assert ops[i..][1..] == ops[i + 1..] && ops[i..][0] == ops[i];
      var _ := Perform(list, ops[i]);
      i := i + 1;
    }
    DecodeUndoesEncode(setup, list.State());
  }
}
