/** 32-bit words, bit by bit, bit 0 first: how the program's casts see them. */
module Words {
  type Word = w: seq<bool> | |w| == 32 witness seq(32, _ => false)

  function ZeroWord(): (w: Word)
    ensures forall i | 0 <= i < 32 :: !w[i]
  {
    seq(32, _ => false)
  }

  function One(bit: bool): nat {
    if bit then 1 else 0
  }

  /** Bit `i` of half word 0 or 1. */
  predicate HalfBit(w: Word, half: nat, i: nat)
    requires half < 2 && i < 16
  {
    w[16 * half + i]
  }
}
