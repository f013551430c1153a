/** The bitmaps of a Pokédex, and the lists that are made from them. */
module PokedexBits {

  function Mask(k: nat): bv8
    requires k < 8
  {
    if k == 0 then 1 else if k == 1 then 2 else if k == 2 then 4 else if k == 3 then 8
    else if k == 4 then 16 else if k == 5 then 32 else if k == 6 then 64 else 128
  }

  predicate HasMask(byte: bv8, k: nat)
    requires k < 8
  {
    byte & Mask(k) != 0
  }

  function WithMask(byte: bv8, k: nat, value: bool): bv8
    requires k < 8
  {
    if value then byte | Mask(k) else byte & !Mask(k)
  }

  predicate InBuffer(buffer: seq<bv8>, number: int) {
    1 <= number <= 8 * |buffer|
  }

  /** Species `number` has the bit at index `number - 1`. */
  predicate BitAt(buffer: seq<bv8>, number: nat)
    requires InBuffer(buffer, number)
  {
    HasMask(buffer[(number - 1) / 8], (number - 1) % 8)
  }

  /** The bits are counted from the low end of the first byte. */
  lemma BitAtIs(buffer: seq<bv8>, number: nat)
    requires InBuffer(buffer, number)
    ensures BitAt(buffer, number) <==> (buffer[(number - 1) / 8] >> ((number - 1) % 8)) & 1 == 1
  {
    MaskIsShift(buffer[(number - 1) / 8], (number - 1) % 8);
  }

  lemma MaskIsShift(byte: bv8, k: nat)
    requires k < 8
    ensures HasMask(byte, k) <==> (byte >> k) & 1 == 1
  {
    if k == 0 {
    } else if k == 1 {
    } else if k == 2 {
    } else if k == 3 {
    } else if k == 4 {
    } else if k == 5 {
    } else if k == 6 {
    } else {
    }
  }

  function WithBit(buffer: seq<bv8>, number: nat, value: bool): (buffer': seq<bv8>)
    requires InBuffer(buffer, number)
    ensures |buffer'| == |buffer|
  {
    var at := (number - 1) / 8;
    buffer[at := WithMask(buffer[at], (number - 1) % 8, value)]
  }

  lemma WithBitReads(buffer: seq<bv8>, number: nat, value: bool, other: nat)
    requires InBuffer(buffer, number) && InBuffer(buffer, other)
    ensures BitAt(WithBit(buffer, number, value), other) == if other == number then value else BitAt(buffer, other)
  {
  }

  /** The numbers whose bit is set, in any position of the buffer. */
  function Numbers(buffer: seq<bv8>): set<nat> {
    set n: nat | 1 <= n <= 8 * |buffer| && BitAt(buffer, n)
  }

  lemma WithBitNumbers(buffer: seq<bv8>, number: nat, value: bool)
    requires InBuffer(buffer, number)
    ensures Numbers(WithBit(buffer, number, value)) ==
            if value then Numbers(buffer) + {number} else Numbers(buffer) - {number}
  {
    forall n: nat | InBuffer(buffer, n)
      ensures BitAt(WithBit(buffer, number, value), n) == if n == number then value else BitAt(buffer, n)
    {
      WithBitReads(buffer, number, value, n);
    }
  }

  /** The set bits up to `last`, in ascending order. */
  function Listed(buffer: seq<bv8>, last: nat): seq<nat>
    requires last <= 8 * |buffer|
  {
    if last == 0 then []
    else Listed(buffer, last - 1) + (if BitAt(buffer, last) then [last] else [])
  }

  predicate Ascending(list: seq<nat>) {
    forall i, j | 0 <= i < j < |list| :: list[i] < list[j]
  }

  lemma {:induction false} ListedHolds(buffer: seq<bv8>, last: nat, n: nat)
    requires last <= 8 * |buffer|
    ensures n in Listed(buffer, last) <==> n in Numbers(buffer) && n <= last
  {
    if last == 0 {
    } else {
      ListedHolds(buffer, last - 1, n);
      var front, end := Listed(buffer, last - 1), if BitAt(buffer, last) then [last] else [];
      assert n in front + end <==> n in front || n in end;
      assert last in Numbers(buffer) <==> BitAt(buffer, last);
    }
  }

  lemma {:induction false} ListedAscends(buffer: seq<bv8>, last: nat)
    requires last <= 8 * |buffer|
    ensures Ascending(Listed(buffer, last))
  {
    if last == 0 {
    } else {
      ListedAscends(buffer, last - 1);
      var before := Listed(buffer, last - 1);
      forall i | 0 <= i < |before| ensures before[i] < last {
        ListedHolds(buffer, last - 1, before[i]);
      }
    }
  }

  function NumbersTo(buffer: seq<bv8>, last: nat): set<nat> {
    set n | n in Numbers(buffer) && n <= last
  }

  lemma {:induction false} ListedCounts(buffer: seq<bv8>, last: nat)
    requires last <= 8 * |buffer|
    ensures |Listed(buffer, last)| == |NumbersTo(buffer, last)|
  {
    if last == 0 {
      assert NumbersTo(buffer, last) == {};
    } else {
      ListedCounts(buffer, last - 1);
      assert NumbersTo(buffer, last) ==
             NumbersTo(buffer, last - 1) + if BitAt(buffer, last) then {last} else {};
    }
  }

  /** `Listed` is the strictly ascending list of exactly the numbers in 1..last whose bit is set,
      so its length is how many there are. */
  lemma ListedIsExact(buffer: seq<bv8>, last: nat)
    requires last <= 8 * |buffer|
    ensures Ascending(Listed(buffer, last))
    ensures forall n :: n in Listed(buffer, last) <==> n in Numbers(buffer) && n <= last
    ensures |Listed(buffer, last)| == |NumbersTo(buffer, last)|
  {
    ListedAscends(buffer, last);
    ListedCounts(buffer, last);
    forall n: nat ensures n in Listed(buffer, last) <==> n in Numbers(buffer) && n <= last {
      ListedHolds(buffer, last, n);
    }
  }
}
