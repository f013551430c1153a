/**
 The PC objects of Generations I and II over their native buffers, and the save that
 copies a PC back into its file image.
 */
module PcStorage {
  import opened Common
  import opened PcRules

  /** A box object: an editable copy of one box. */
  class BoxObject<B> {
    var content: B
    var name: string

    constructor (content: B)
      ensures this.content == content && this.name == ""
    {
      this.content, name := content, "";
    }
  }

  ghost function Contents<B>(boxList: seq<BoxObject<B>>): (contents: seq<B>)
    reads boxList
    ensures |contents| == |boxList|
    ensures forall i | 0 <= i < |boxList| :: contents[i] == boxList[i].content
  {
    seq(|boxList|, i requires 0 <= i < |boxList| reads boxList => boxList[i].content)
  }

  ghost function NamesOf<B>(boxList: seq<BoxObject<B>>): (names: seq<string>)
    reads boxList
    ensures |names| == |boxList|
    ensures forall i | 0 <= i < |boxList| :: names[i] == boxList[i].name
  {
    seq(|boxList|, i requires 0 <= i < |boxList| reads boxList => boxList[i].name)
  }

  class Gen1Pc<B> {
    const nativeBoxes: array<B>
    var currentBox: B
    const currentBoxNum: Byte
    var boxList: seq<BoxObject<B>>

    ghost function Physical(): Storage<B>
      reads this, nativeBoxes
    {
      Storage(nativeBoxes[..], currentBox, currentBoxNum)
    }

    ghost predicate Valid()
      reads this
    {
      |boxList| == nativeBoxes.Length
    }

    constructor (native: Storage<B>)
      ensures Valid() && fresh(nativeBoxes) && Physical() == native
      ensures fresh(boxList) && Contents(boxList) == Load(native, Gen1Number(native.number))
    {
      nativeBoxes := new B[|native.boxes|](i requires 0 <= i < |native.boxes| => native.boxes[i]);
      currentBox, currentBoxNum := native.current, native.number;
      boxList := [];
      new;
      assert nativeBoxes[..] == native.boxes;
      FromNative();
    }

    method FromNative()
      modifies this`boxList
      ensures Valid() && fresh(boxList)
      ensures Contents(boxList) == Load(Physical(), Gen1Number(currentBoxNum))
    {
      var number := Gen1Number(currentBoxNum);
      var isValid := number < nativeBoxes.Length;
      boxList := [];
      var i := 0;
      while i < nativeBoxes.Length
        invariant 0 <= i <= nativeBoxes.Length && |boxList| == i
        invariant fresh(boxList)
        invariant forall k | 0 <= k < i ::
                    boxList[k].content == if isValid && k == number then currentBox else nativeBoxes[k]
      {
        var box;
        if isValid && i == number {
          box := new BoxObject(currentBox);
        } else {
          box := new BoxObject(nativeBoxes[i]);
        }
        boxList := boxList + [box];
        i := i + 1;
      }
    }

    method ToNative()
      requires Valid()
      modifies this`currentBox, nativeBoxes
      ensures Physical() == Flush(old(Physical()), Gen1Number(currentBoxNum), Contents(boxList))
    {
      var number := Gen1Number(currentBoxNum);
      var isValid := number < nativeBoxes.Length;
      ghost var before := nativeBoxes[..];
      var i := 0;
      while i < nativeBoxes.Length
        invariant 0 <= i <= nativeBoxes.Length
        invariant forall k | 0 <= k < i ::
                    nativeBoxes[k] == if isValid && k == number then before[k] else boxList[k].content
        invariant forall k | i <= k < nativeBoxes.Length :: nativeBoxes[k] == before[k]
        invariant currentBox == if isValid && number < i then boxList[number].content else old(currentBox)
      {
        if isValid && i == number {
          currentBox := boxList[i].content;
        } else {
          nativeBoxes[i] := boxList[i].content;
        }
        i := i + 1;
      }
      assert nativeBoxes[..] == Flush(old(Physical()), Gen1Number(currentBoxNum), Contents(boxList)).boxes;
    }
  }

  class Gen2Pc<B> {
    const charset: Charset
    const nameLength: nat
    const nativeBoxes: array<B>
    var currentBox: B
    const currentBoxNum: Byte
    const nativeNames: array<seq<bv8>>
    var boxList: seq<BoxObject<B>>
    var boxNames: seq<string>

    ghost function Physical(): Storage<B>
      reads this, nativeBoxes
    {
      Storage(nativeBoxes[..], currentBox, currentBoxNum)
    }

    ghost predicate Valid()
      reads this
    {
      |boxList| == nativeBoxes.Length == nativeNames.Length && nativeNames as object != nativeBoxes
    }

    constructor (charset: Charset, nameLength: nat, native: Storage<B>, names: seq<seq<bv8>>)
      requires |names| == |native.boxes|
      ensures Valid() && fresh(nativeBoxes) && fresh(nativeNames)
      ensures this.charset == charset && this.nameLength == nameLength
      ensures Physical() == native && nativeNames[..] == names
      ensures fresh(boxList) && Contents(boxList) == Load(native, native.number)
      ensures NamesOf(boxList) == AllImported(charset, names)
    {
      this.charset, this.nameLength := charset, nameLength;
      nativeBoxes := new B[|native.boxes|](i requires 0 <= i < |native.boxes| => native.boxes[i]);
      nativeNames := new seq<bv8>[|names|](i requires 0 <= i < |names| => names[i]);
      currentBox, currentBoxNum := native.current, native.number;
      boxList, boxNames := [], [];
      new;
      assert nativeBoxes[..] == native.boxes && nativeNames[..] == names;
      FromNative();
    }

    method FromNative()
      requires nativeBoxes.Length == nativeNames.Length && nativeNames as object != nativeBoxes
      modifies this`boxList
      ensures Valid() && fresh(boxList)
      ensures Contents(boxList) == Load(Physical(), currentBoxNum)
      ensures NamesOf(boxList) == AllImported(charset, nativeNames[..])
    {
      var number := currentBoxNum;
      var isValid := number < nativeBoxes.Length;
      boxList := [];
      var i := 0;
      while i < nativeBoxes.Length
        invariant 0 <= i <= nativeBoxes.Length && |boxList| == i
        invariant fresh(boxList)
        invariant forall k | 0 <= k < i ::
                    boxList[k].content == if isValid && k == number then currentBox else nativeBoxes[k]
        invariant forall k | 0 <= k < i :: boxList[k].name == Imported(charset, nativeNames[k])
      {
        var box;
        if isValid && i == number {
          box := new BoxObject(currentBox);
        } else {
          box := new BoxObject(nativeBoxes[i]);
        }
        box.name := Imported(charset, nativeNames[i]);
        boxList := boxList + [box];
        i := i + 1;
      }
    }

    method ToNative()
      requires Valid()
      modifies this`currentBox, this`boxNames, nativeBoxes, nativeNames
      ensures Physical() == Flush(old(Physical()), currentBoxNum, Contents(boxList))
      ensures nativeNames[..] == AllExported(charset, NamesOf(boxList), nameLength)
      ensures boxNames == NamesOf(boxList)
    {
      var number := currentBoxNum;
      var isValid := number < nativeBoxes.Length;
      ghost var before := nativeBoxes[..];
      var i := 0;
      while i < nativeBoxes.Length
        invariant 0 <= i <= nativeBoxes.Length
        invariant forall k | 0 <= k < i ::
                    nativeBoxes[k] == if isValid && k == number then before[k] else boxList[k].content
        invariant forall k | i <= k < nativeBoxes.Length :: nativeBoxes[k] == before[k]
        invariant currentBox == if isValid && number < i then boxList[number].content else old(currentBox)
      {
        if isValid && i == number {
          currentBox := boxList[i].content;
        } else {
          nativeBoxes[i] := boxList[i].content;
        }
        i := i + 1;
      }
      assert nativeBoxes[..] == Flush(old(Physical()), currentBoxNum, Contents(boxList)).boxes;
      assert Physical() == Flush(old(Physical()), currentBoxNum, Contents(boxList));
      UpdateBoxNames();
    }

    method UpdateBoxNames()
      requires Valid()
      modifies this`boxNames, nativeNames
      ensures boxNames == NamesOf(boxList)
      ensures nativeNames[..] == AllExported(charset, NamesOf(boxList), nameLength)
    {
      boxNames := [];
      var i := 0;
      while i < nativeNames.Length
        invariant 0 <= i <= nativeNames.Length && |boxNames| == i
        invariant forall k | 0 <= k < i :: boxNames[k] == boxList[k].name
        invariant forall k | 0 <= k < i :: nativeNames[k] == Exported(charset, boxList[k].name, nameLength)
      {
        boxNames := boxNames + [boxList[i].name];
        nativeNames[i] := Exported(charset, boxNames[i], nameLength);
        i := i + 1;
      }
    }
  }

  /** The file image of a Generation I save. */
  class Gen1Save<B> {
    const boxes: array<B>
    var currentBox: B
    var currentBoxNum: Byte

    ghost function Image(): Storage<B>
      reads this, boxes
    {
      Storage(boxes[..], currentBox, currentBoxNum)
    }

    constructor (image: Storage<B>)
      ensures fresh(boxes) && Image() == image
    {
      boxes := new B[|image.boxes|](i requires 0 <= i < |image.boxes| => image.boxes[i]);
      currentBox, currentBoxNum := image.current, image.number;
      new;
      assert boxes[..] == image.boxes;
    }

    /** Flushes the PC and copies its storage into the image. */
    method SaveAs(pc: Gen1Pc<B>)
      requires pc.Valid() && boxes.Length == pc.nativeBoxes.Length && boxes != pc.nativeBoxes
      modifies this, boxes, pc`currentBox, pc.nativeBoxes
      ensures Image() == Flush(old(pc.Physical()), Gen1Number(pc.currentBoxNum), old(Contents(pc.boxList)))
      ensures Load(Image(), Gen1Number(currentBoxNum)) == Contents(pc.boxList) == old(Contents(pc.boxList))
    {
      pc.ToNative();
      ghost var flushed := pc.Physical();
      assert Contents(pc.boxList) == old(Contents(pc.boxList));
      var i := 0;
      while i < boxes.Length
        invariant 0 <= i <= boxes.Length
        invariant pc.Physical() == flushed
        invariant boxes[..i] == pc.nativeBoxes[..i]
      {
        boxes[i] := pc.nativeBoxes[i];
        assert boxes[..i + 1] == boxes[..i] + [boxes[i]];
        i := i + 1;
      }
      currentBoxNum := pc.currentBoxNum;
      currentBox := pc.currentBox;
      assert Image() == pc.Physical();
      LoadOfFlush(old(pc.Physical()), Gen1Number(pc.currentBoxNum), old(Contents(pc.boxList)));
    }
  }
}
