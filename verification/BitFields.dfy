/**
 Packed words of any width as their bits, lowest first, and the numbers kept in runs of
 them. `Stored` is the program's "and with the inverted mask, or with the shifted value".
 */
module BitFields {
  import opened Words

  predicate Bit(number: nat, k: nat) {
    if k == 0 then number % 2 == 1 else Bit(number / 2, k - 1)
  }

  /** The number whose bits these are, lowest first. */
  function Number(bits: seq<bool>): nat {
    if bits == [] then 0 else One(bits[0]) + 2 * Number(bits[1..])
  }

  function Bits(number: nat, n: nat): (bits: seq<bool>)
    ensures |bits| == n
    ensures forall k | 0 <= k < n :: bits[k] == Bit(number, k)
  {
    seq(n, k requires 0 <= k < n => Bit(number, k))
  }

  function Limit(n: nat): nat {
    if n == 0 then 1 else 2 * Limit(n - 1)
  }

  lemma SmallLimits()
    ensures Limit(2) == 4 && Limit(3) == 8 && Limit(4) == 16 && Limit(5) == 32 && Limit(7) == 128 && Limit(8) == 256
  {
  }

  lemma {:induction false} NumberOfConcat(a: seq<bool>, b: seq<bool>, limit: nat)
    requires limit == Limit(|a|)
    ensures Number(a + b) == Number(a) + limit * Number(b)
  {
    if a == [] {
      assert a + b == b;
    } else {
      NumberOfConcat(a[1..], b, limit / 2);
      assert (a + b)[1..] == a[1..] + b;
      Doubled(limit / 2, Number(b));
    }
  }

  lemma Doubled(x: nat, y: nat)
    ensures 2 * (x * y) == (2 * x) * y
  {
  }

  lemma NumberOfTwo(s: seq<bool>)
    requires |s| == 2
    ensures Number(s) == One(s[0]) + 2 * One(s[1])
  {
    assert Number(s[1..]) == One(s[1]);
  }

  lemma NumberOfFour(s: seq<bool>)
    requires |s| == 4
    ensures Number(s) == One(s[0]) + 2 * One(s[1]) + 4 * One(s[2]) + 8 * One(s[3])
  {
    assert Number(s[3..]) == One(s[3]);
    assert s[2..][1..] == s[3..] && Number(s[2..]) == One(s[2]) + 2 * Number(s[3..]);
    assert s[1..][1..] == s[2..] && Number(s[1..]) == One(s[1]) + 2 * Number(s[2..]);
  }

  lemma NumberOfEight(s: seq<bool>)
    requires |s| == 8
    ensures Number(s) == One(s[0]) + 2 * One(s[1]) + 4 * One(s[2]) + 8 * One(s[3])
                         + 16 * (One(s[4]) + 2 * One(s[5]) + 4 * One(s[6]) + 8 * One(s[7]))
  {
    SmallLimits();
    NumberOfFour(s[..4]);
    NumberOfFour(s[4..]);
    NumberOfConcat(s[..4], s[4..], 16);
    assert s == s[..4] + s[4..];
  }

  lemma {:induction false} BitsMakeNumber(number: nat, n: nat)
    requires number < Limit(n)
    ensures Number(Bits(number, n)) == number
  {
    if n == 0 {
    } else {
      BitsMakeNumber(number / 2, n - 1);
      assert Bits(number, n)[1..] == Bits(number / 2, n - 1);
    }
  }

  lemma {:induction false} NumberDetermines(a: seq<bool>, b: seq<bool>)
    requires |a| == |b| && Number(a) == Number(b)
    ensures a == b
  {
    if a == [] {
    } else {
      NumberDetermines(a[1..], b[1..]);
      assert a == [a[0]] + a[1..] && b == [b[0]] + b[1..];
    }
  }

  lemma {:induction false} BitsOfNumber(bits: seq<bool>)
    ensures Number(bits) < Limit(|bits|)
    ensures Bits(Number(bits), |bits|) == bits
  {
    if bits == [] {
    } else {
      BitsOfNumber(bits[1..]);
      assert Number(bits) / 2 == Number(bits[1..]);
      assert Bits(Number(bits), |bits|)[1..] == Bits(Number(bits[1..]), |bits| - 1);
      assert bits == [bits[0]] + bits[1..];
    }
  }

  lemma {:induction false} HighBitsAreClear(number: nat, n: nat, k: nat)
    requires number < Limit(n) && n <= k
    ensures !Bit(number, k)
  {
    if n == 0 && k == 0 {
    } else if n == 0 {
      HighBitsAreClear(0, 0, k - 1);
    } else {
      HighBitsAreClear(number / 2, n - 1, k - 1);
    }
  }

  function Field(w: seq<bool>, at: nat, n: nat): nat
    requires at + n <= |w|
  {
    Number(w[at..at + n])
  }

  function WithoutField(w: seq<bool>, at: nat, n: nat): (w': seq<bool>)
    ensures |w'| == |w|
  {
    seq(|w|, i requires 0 <= i < |w| => !(at <= i < at + n) && w[i])
  }

  /** Or with a value shifted to `at`; what does not fit into the word is lost. */
  function Ored(w: seq<bool>, at: nat, value: nat): (w': seq<bool>)
    ensures |w'| == |w|
  {
    seq(|w|, i requires 0 <= i < |w| => w[i] || (at <= i && Bit(value, i - at)))
  }

  function Stored(w: seq<bool>, at: nat, n: nat, value: nat): (w': seq<bool>)
    ensures |w'| == |w|
  {
    Ored(WithoutField(w, at, n), at, value)
  }

  /** Nothing outside the field changes, provided the value fits. */
  lemma StoredElsewhere(w: seq<bool>, at: nat, n: nat, value: nat, i: nat)
    requires at + n <= |w| && value < Limit(n) && i < |w| && !(at <= i < at + n)
    ensures Stored(w, at, n, value)[i] == w[i]
  {
    if i >= at + n {
      HighBitsAreClear(value, n, i - at);
    }
  }

  lemma StoredInside(w: seq<bool>, at: nat, n: nat, value: nat, i: nat)
    requires at + n <= |w| && at <= i < at + n
    ensures Stored(w, at, n, value)[i] == Bit(value, i - at)
  {
  }

  /** Storing the number of some bits stores those bits. */
  lemma StoredBits(w: seq<bool>, at: nat, bits: seq<bool>, i: nat)
    requires at + |bits| <= |w| && i < |w|
    ensures Stored(w, at, |bits|, Number(bits))[i] == if at <= i < at + |bits| then bits[i - at] else w[i]
  {
    BitsOfNumber(bits);
    if at <= i < at + |bits| {
      StoredInside(w, at, |bits|, Number(bits), i);
      assert Bits(Number(bits), |bits|)[i - at] == bits[i - at];
    } else {
      StoredElsewhere(w, at, |bits|, Number(bits), i);
    }
  }

  lemma StoredIsRead(w: seq<bool>, at: nat, n: nat, value: nat)
    requires at + n <= |w| && value < Limit(n)
    ensures Field(Stored(w, at, n, value), at, n) == value
  {
    BitsMakeNumber(value, n);
    assert Stored(w, at, n, value)[at..at + n] == Bits(value, n);
  }

  /** Two fields that do not overlap do not disturb each other. */
  lemma StoredKeepsOthers(w: seq<bool>, at: nat, n: nat, value: nat, other: nat, m: nat)
    requires at + n <= |w| && value < Limit(n) && other + m <= |w|
    requires other + m <= at || at + n <= other
    ensures Field(Stored(w, at, n, value), other, m) == Field(w, other, m)
  {
    forall i | other <= i < other + m ensures Stored(w, at, n, value)[i] == w[i] {
      StoredElsewhere(w, at, n, value, i);
    }
    assert Stored(w, at, n, value)[other..other + m] == w[other..other + m];
  }

  /** Writing back what was read changes nothing. */
  lemma StoredBack(w: seq<bool>, at: nat, n: nat)
    requires at + n <= |w|
    ensures Stored(w, at, n, Field(w, at, n)) == w
  {
    forall i | 0 <= i < |w| ensures Stored(w, at, n, Field(w, at, n))[i] == w[i] {
      StoredBits(w, at, w[at..at + n], i);
    }
  }
}
