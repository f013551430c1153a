/** What several components share. */
module Common {

  datatype Option<+T> = None | Some(value: T)

  /** How a call ends: normally, or with the exception the program throws. `CannotConvert` stands
      for whatever a refused conversion between games throws. */
  datatype Outcome = Success | OutOfRange | InvalidArgument | RangeError | RuntimeError | CannotConvert

  type Byte = n: int | 0 <= n < 0x100
  type Word16 = n: int | 0 <= n < 0x1_0000

  datatype Stat = Hp | Attack | Defense | Speed | Special | SpecialAttack | SpecialDefense

  function Min(a: int, b: int): int {
    if a < b then a else b
  }
}
