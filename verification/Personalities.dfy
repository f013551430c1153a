/**
 The personalities that the search for a new one can come up with: any that has the shininess,
 nature, ability slot and gender asked for. For an Unown that leaves the form to chance.
 */
module Personalities {
  import opened Words
  import opened BitFields
  import opened Shininess
  import opened UnownBits

  const NATURES := 25

  /** A gendered search fills the low byte from its side of the threshold. */
  datatype Gender = Genderless | Male(threshold: nat) | Female(threshold: nat)

  predicate GenderFits(p: Word, gender: Gender) {
    match gender
    case Genderless => true
    case Male(threshold) => threshold <= Field(p, 0, 8) < 0xFF
    case Female(threshold) => Field(p, 0, 8) < threshold
  }

  predicate Admissible(p: Word, t: Word, shiny: bool, nature: nat, odd: bool, gender: Gender) {
    && (Shiny(p, t) <==> shiny)
    && Number(p) % NATURES == nature
    && Number(p) % 2 == One(odd)
    && GenderFits(p, gender)
  }

  /** The residue by 50 that the nature and the ability slot ask for. */
  function Residue(nature: nat, odd: bool): (c: nat)
    requires nature < NATURES
    ensures c < 50 && c % NATURES == nature && c % 2 == One(odd)
  {
    if nature % 2 == One(odd) then nature else nature + NATURES
  }

  lemma By50(q: nat, r: nat)
    requires r < 50
    ensures (50 * q + r) % 50 == r
  {
  }

  lemma By25(q: nat, r: nat)
    requires r < 25
    ensures (25 * q + r) % 25 == r
  {
  }

  lemma By2(q: nat, r: nat)
    requires r < 2
    ensures (2 * q + r) % 2 == r
  {
  }

  lemma ResidueSuffices(v: nat, nature: nat, odd: bool)
    requires nature < NATURES && v % 50 == Residue(nature, odd)
    ensures v % NATURES == nature && v % 2 == One(odd)
  {
    var q, c := v / 50, Residue(nature, odd);
    assert v == 50 * q + c;
    By25(2 * q + (if c == nature then 0 else 1), nature);
    By2(25 * q + c / 2, One(odd));
    assert c == 2 * (c / 2) + One(odd);
  }

  // ---------------------------------------------------------------- numbers in pieces

  lemma {:induction false} NumberOfNone(n: nat)
    ensures Number(seq(n, _ => false)) == 0
  {
    if n == 0 {
    } else {
      NumberOfNone(n - 1);
      assert seq(n, _ => false)[1..] == seq(n - 1, _ => false);
    }
  }

  /** Setting a clear bit adds its weight. */
  lemma {:induction false} NumberOfSet(bits: seq<bool>, i: nat)
    requires i < |bits| && !bits[i]
    ensures Number(bits[i := true]) == Number(bits) + Limit(i)
  {
    if i == 0 {
      assert bits[i := true][1..] == bits[1..];
    } else {
      NumberOfSet(bits[1..], i - 1);
      assert bits[i := true][1..] == bits[1..][i - 1 := true];
    }
  }

  lemma MoreLimits()
    ensures Limit(8) == 0x100 && Limit(13) == 0x2000 && Limit(16) == 0x10000
  {
    SmallLimits();
    assert Limit(10) == 4 * Limit(8) && Limit(12) == 4 * Limit(10);
    assert Limit(14) == 4 * Limit(12) && Limit(16) == 4 * Limit(14);
  }

  lemma CodeInBits(p: Word)
    ensures Code(p) == One(p[0]) + 2 * One(p[1]) + 4 * One(p[8]) + 8 * One(p[9])
                       + 16 * (One(p[16]) + 2 * One(p[17]) + 4 * One(p[24]) + 8 * One(p[25]))
  {
    NumberOfEight(CodeBits(p));
  }

  /** Codes that differ by 28 read as one form, and no others do. */
  lemma SameFormIff(p: Word, q: Word)
    ensures DecodedForm(p) == DecodedForm(q) <==> Code(p) % FORM_COUNT == Code(q) % FORM_COUNT
  {
    FormsAreNumbered('A', Code(p) % FORM_COUNT);
    FormsAreNumbered('A', Code(q) % FORM_COUNT);
  }

  // ---------------------------------------------------------------- shiny candidates

  /** Bits 3 to 15 of a half word that has at most bit 8 set, against the trainer's. */
  function Middle(t: Word, h: bool): (bits: seq<bool>)
    ensures |bits| == 13
  {
    seq(13, i requires 0 <= i < 13 => (h && i == 5) != (t[3 + i] != t[19 + i]))
  }

  function Upper(h: bool): (bits: seq<bool>)
    ensures |bits| == 13
  {
    seq(13, i requires 0 <= i < 13 => h && i == 5)
  }

  /** A shiny personality, free in the low three bits of both halves and in bit 24. */
  function Candidate(t: Word, k: nat, j: nat, h: bool): Word {
    Bits(k, 3) + Middle(t, h) + (Bits(j, 3) + Upper(h))
  }

  lemma CandidateIsShiny(t: Word, k: nat, j: nat, h: bool)
    ensures Shiny(Candidate(t, k, j, h), t)
  {
    var p := Candidate(t, k, j, h);
    forall i: nat | 3 <= i < 16 ensures Ones(p, t, i) % 2 == 0 {
      assert p[i] == Middle(t, h)[i - 3];
      assert p[16 + i] == Upper(h)[i - 3];
    }
  }

  function Base(t: Word, h: bool): nat {
    8 * Number(Middle(t, h)) + 0x80000 * Number(Upper(h))
  }

  lemma CandidateNumber(t: Word, k: nat, j: nat, h: bool)
    requires k < 8 && j < 8
    ensures Number(Candidate(t, k, j, h)) == k + 0x10000 * j + Base(t, h)
  {
    SmallLimits();
    MoreLimits();
    BitsMakeNumber(k, 3);
    BitsMakeNumber(j, 3);
    NumberOfConcat(Bits(k, 3), Middle(t, h), 8);
    NumberOfConcat(Bits(j, 3), Upper(h), 8);
    NumberOfConcat(Bits(k, 3) + Middle(t, h), Bits(j, 3) + Upper(h), 0x10000);
  }

  lemma UpperNumber()
    ensures Number(Upper(false)) == 0 && Number(Upper(true)) == 32
  {
    SmallLimits();
    NumberOfNone(13);
    assert Upper(false) == seq(13, _ => false);
    assert Upper(true) == Upper(false)[5 := true];
    NumberOfSet(Upper(false), 5);
  }

  lemma MiddleNumber(t: Word)
    ensures Number(Middle(t, true)) == Number(Middle(t, false)) + if Middle(t, false)[5] then -32 else 32
  {
    SmallLimits();
    if Middle(t, false)[5] {
      assert Middle(t, false) == Middle(t, true)[5 := true];
      NumberOfSet(Middle(t, true), 5);
    } else {
      assert Middle(t, true) == Middle(t, false)[5 := true];
      NumberOfSet(Middle(t, false), 5);
    }
  }

  lemma BaseWithBit(t: Word)
    ensures Base(t, true) == Base(t, false) + 0x1000000 + (if Middle(t, false)[5] then -0x100 else 0x100)
  {
    UpperNumber();
    MiddleNumber(t);
  }

  lemma CandidateCode(t: Word, k: nat, j: nat, h: bool)
    requires k < 8 && j < 8
    ensures Code(Candidate(t, k, j, h)) ==
            k % 4 + 4 * One(h != Middle(t, false)[5]) + 8 * One(Middle(t, false)[6]) + 16 * (j % 4) + 64 * One(h)
  {
    var p := Candidate(t, k, j, h);
    CodeInBits(p);
    assert p[0] == Bit(k, 0) && p[1] == Bit(k, 1) && p[16] == Bit(j, 0) && p[17] == Bit(j, 1);
    assert p[8] == Middle(t, h)[5] && p[9] == Middle(t, h)[6];
    assert p[24] == Upper(h)[5] && p[25] == Upper(h)[6];
    LowTwoBits(k);
    LowTwoBits(j);
  }

  lemma FourTimes(q: nat, r: nat)
    requires r < 4
    ensures (4 * q + r) % 4 == r
  {
  }

  lemma HalfAndBit(n: nat)
    ensures n == 2 * (n / 2) + One(Bit(n, 0))
  {
  }

  lemma LowTwoBits(n: nat)
    ensures n % 4 == One(Bit(n, 0)) + 2 * One(Bit(n, 1))
  {
    HalfAndBit(n);
    HalfAndBit(n / 2);
    FourTimes(n / 2 / 2, One(Bit(n, 0)) + 2 * One(Bit(n / 2, 0)));
  }

  /** The free bits of the high half that reach a residue by 50, since 0x10000 is 36 there. */
  function HighFor(d: nat): (j: nat)
    ensures j < 8
  {
    if d < 8 then 0 else if d < 16 then 3 else if d < 22 then 6 else if d < 30 then 2
    else if d < 36 then 5 else if d < 44 then 1 else 4
  }

  function LowFor(d: nat): (k: nat)
    requires d < 50
    ensures k < 8 && (k + 0x10000 * HighFor(d)) % 50 == d
  {
    if d < 8 then d else if d < 16 then d - 8 else if d < 22 then d - 16 else if d < 30 then d - 22
    else if d < 36 then d - 30 else if d < 44 then d - 36 else d - 44
  }

  lemma ResidueLeft(base: nat, c: nat)
    requires c < 50
    ensures (base + (c + 50 - base % 50) % 50) % 50 == c
  {
    var d := if c < base % 50 then c + 50 - base % 50 else c - base % 50;
    assert d == (c + 50 - base % 50) % 50;
    assert base + d == 50 * (base / 50) + (if c < base % 50 then c + 50 else c);
  }

  function Missing(t: Word, c: nat, h: bool): (d: nat)
    requires c < 50
    ensures d < 50 && (Base(t, h) + d) % 50 == c
  {
    ResidueLeft(Base(t, h), c);
    (c + 50 - Base(t, h) % 50) % 50
  }

  /** The candidate of either kind with a given residue. */
  function ShinyFor(t: Word, c: nat, h: bool): Word
    requires c < 50
  {
    Candidate(t, LowFor(Missing(t, c, h)), HighFor(Missing(t, c, h)), h)
  }

  lemma Wrapped(v: nat, turns: nat)
    ensures (v + 50 * turns) % 50 == v % 50
  {
  }

  lemma ShinyForFits(t: Word, c: nat, h: bool)
    requires c < 50
    ensures Shiny(ShinyFor(t, c, h), t) && Number(ShinyFor(t, c, h)) % 50 == c
  {
    var d := Missing(t, c, h);
    CandidateIsShiny(t, LowFor(d), HighFor(d), h);
    CandidateNumber(t, LowFor(d), HighFor(d), h);
    var reached := LowFor(d) + 0x10000 * HighFor(d);
    Wrapped(Base(t, h) + d, reached / 50);
    assert Base(t, h) + reached == Base(t, h) + d + 50 * (reached / 50);
  }

  function CodeOf(d: nat, m: bool, n: bool, h: bool): nat
    requires d < 50
  {
    LowFor(d) % 4 + 4 * One(h != m) + 8 * One(n) + 16 * (HighFor(d) % 4) + 64 * One(h)
  }

  /** Equal forms would need equal low bits, and high bits that differ by just so much. */
  lemma ClashNeeds(x: nat, y: nat, a: nat, b: nat, m: bool, n: bool)
    requires x < 4 && y < 4 && a < 4 && b < 4
    requires (x + 4 * One(m) + 8 * One(n) + 16 * a) % FORM_COUNT
             == (y + 4 * One(!m) + 8 * One(n) + 16 * b + 64) % FORM_COUNT
    ensures x == y && b - a == if m then -2 else 1
  {
    var first := x + 4 * One(m) + 8 * One(n) + 16 * a;
    var second := y + 4 * One(!m) + 8 * One(n) + 16 * b + 64;
    var turns := Turns(first, second);
    var sign := if m then -1 else 1;
    assert y - x + 16 * (b - a) + 4 * sign + 64 == 28 * turns;
    assert y - x == 4 * (7 * turns - 4 * (b - a) - sign - 16);
  }

  lemma Turns(a: nat, b: nat) returns (turns: int)
    requires a % FORM_COUNT == b % FORM_COUNT
    ensures b - a == 28 * turns
  {
    turns := b / FORM_COUNT - a / FORM_COUNT;
  }

  lemma NoClash(d: nat, m: bool)
    requires d < 50
    ensures var e := (d + if m then 40 else 28) % 50;
            HighFor(e) % 4 - HighFor(d) % 4 == (if m then -2 else 1) ==> LowFor(e) % 4 != LowFor(d) % 4
  {
    var e := if m then if d < 10 then d + 40 else d - 10 else if d < 22 then d + 28 else d - 22;
    assert e == (d + if m then 40 else 28) % 50;
  }

  /** Whatever the residue and the trainer, the two candidates show different forms. */
  lemma CodesDiffer(d: nat, m: bool, n: bool)
    requires d < 50
    ensures var e := (d + if m then 40 else 28) % 50;
            CodeOf(d, m, n, false) % FORM_COUNT != CodeOf(e, m, n, true) % FORM_COUNT
  {
    var e := (d + if m then 40 else 28) % 50;
    if CodeOf(d, m, n, false) % FORM_COUNT == CodeOf(e, m, n, true) % FORM_COUNT {
      ClashNeeds(LowFor(d) % 4, LowFor(e) % 4, HighFor(d) % 4, HighFor(e) % 4, m, n);
      NoClash(d, m);
    }
  }

  lemma MissingShifts(before: nat, after: nat, c: nat, m: bool)
    requires c < 50 && after == before + 0x1000000 + (if m then -0x100 else 0x100)
    ensures (c + 50 - after % 50) % 50 == ((c + 50 - before % 50) % 50 + if m then 40 else 28) % 50
  {
    Wrapped(before % 50 + (if m then 10 else 22), before / 50 + (if m then 335539 else 335549));
  }

  lemma ShinyForCode(t: Word, c: nat, h: bool)
    requires c < 50
    ensures Code(ShinyFor(t, c, h)) == CodeOf(Missing(t, c, h), Middle(t, false)[5], Middle(t, false)[6], h)
  {
    CandidateCode(t, LowFor(Missing(t, c, h)), HighFor(Missing(t, c, h)), h);
  }

  lemma MissingWithBit(t: Word, c: nat)
    requires c < 50
    ensures Missing(t, c, true) == (Missing(t, c, false) + if Middle(t, false)[5] then 40 else 28) % 50
  {
    BaseWithBit(t);
    MissingShifts(Base(t, false), Base(t, true), c, Middle(t, false)[5]);
  }

  lemma ShinyFormsDiffer(t: Word, c: nat)
    requires c < 50
    ensures DecodedForm(ShinyFor(t, c, false)) != DecodedForm(ShinyFor(t, c, true))
  {
    var m, n := Middle(t, false)[5], Middle(t, false)[6];
    MissingWithBit(t, c);
    ShinyForCode(t, c, false);
    ShinyForCode(t, c, true);
    CodesDiffer(Missing(t, c, false), m, n);
    SameFormIff(ShinyFor(t, c, false), ShinyFor(t, c, true));
  }

  // ---------------------------------------------------------------- candidates that are not shiny

  /** Adding a multiple of a power of two writes the bits above it. */
  lemma {:induction false} BitsOfSum(low: nat, n: nat, high: nat, k: nat)
    requires low < Limit(n)
    ensures Bit(low + Limit(n) * high, k) == if k < n then Bit(low, k) else Bit(high, k - n)
  {
    if n == 0 {
      HighBitsAreClear(low, 0, k);
    } else {
      Doubled(Limit(n - 1), high);
      assert (low + Limit(n) * high) / 2 == low / 2 + Limit(n - 1) * high;
      assert (low + Limit(n) * high) % 2 == low % 2;
      if k > 0 {
        BitsOfSum(low / 2, n - 1, high, k - 1);
      }
    }
  }

  /** A small number with a multiple of 50 in its second byte. */
  function PlainFor(c: nat, times: nat): Word {
    Bits(c + 0x100 * (50 * times), 32)
  }

  lemma PlainBits(c: nat, times: nat, k: nat)
    requires c < 50 && times < 4 && k < 32
    ensures PlainFor(c, times)[k] == if k < 8 then Bit(c, k) else Bit(50 * times, k - 8)
  {
    MoreLimits();
    BitsOfSum(c, 8, 50 * times, k);
  }

  lemma PlainValue(c: nat, times: nat)
    requires c < 50 && times < 4
    ensures Number(PlainFor(c, times)) == c + 0x100 * (50 * times)
  {
    MoreLimits();
    LimitsGrow(16, 32);
    BitsMakeNumber(c + 0x100 * (50 * times), 32);
  }

  lemma PlainNumber(c: nat, times: nat)
    requires c < 50 && times < 4
    ensures Number(PlainFor(c, times)) % 50 == c
  {
    PlainValue(c, times);
    By50(0x100 * times, c);
    assert Number(PlainFor(c, times)) == 50 * (0x100 * times) + c;
  }

  lemma {:induction false} LimitsGrow(m: nat, n: nat)
    requires m <= n
    ensures Limit(m) <= Limit(n)
  {
    if m == n {
    } else {
      LimitsGrow(m, n - 1);
    }
  }

  lemma PlainHalf(c: nat, times: nat, k: nat)
    requires c < 50 && times < 4 && 16 <= k < 32
    ensures !PlainFor(c, times)[k]
  {
    PlainBits(c, times, k);
    MoreLimits();
    HighBitsAreClear(50 * times, 8, k - 8);
  }

  /** Bits 8, 9 and 10 of the four plain numbers. */
  lemma PlainByte(c: nat, times: nat)
    requires c < 50 && times < 4
    ensures var p := PlainFor(c, times);
            !p[8] && p[9] == (times == 1 || times == 3) && p[10] == (times >= 2)
  {
    PlainBits(c, times, 8);
    PlainBits(c, times, 9);
    PlainBits(c, times, 10);
    ByteBits(50 * times);
  }

  lemma ByteBits(n: nat)
    requires n == 0 || n == 50 || n == 100 || n == 150
    ensures !Bit(n, 0) && Bit(n, 1) == (n == 50 || n == 150) && Bit(n, 2) == (n == 100 || n == 150)
  {
    assert Bit(n, 1) == Bit(n / 2, 0) && Bit(n, 2) == Bit(n / 2, 1) == Bit(n / 2 / 2, 0);
  }

  lemma PlainForm(c: nat, times: nat)
    requires c < 50 && times < 4
    ensures Code(PlainFor(c, times)) == c % 4 + if times == 1 || times == 3 then 8 else 0
  {
    PlainBits(c, times, 0);
    PlainBits(c, times, 1);
    PlainByte(c, times);
    PlainHalf(c, times, 16);
    PlainHalf(c, times, 17);
    PlainHalf(c, times, 24);
    PlainHalf(c, times, 25);
    CodeInBits(PlainFor(c, times));
    LowTwoBits(c);
  }

  /** Two plain numbers apart in bit 10 are not both shiny. */
  lemma NotBothShiny(c: nat, t: Word, times: nat)
    requires c < 50 && times < 2
    ensures !Shiny(PlainFor(c, times), t) || !Shiny(PlainFor(c, times + 2), t)
  {
    var p, q := PlainFor(c, times), PlainFor(c, times + 2);
    PlainByte(c, times);
    PlainByte(c, times + 2);
    PlainHalf(c, times, 26);
    PlainHalf(c, times + 2, 26);
    assert Ones(q, t, 10) == Ones(p, t, 10) + 1;
  }

  // ---------------------------------------------------------------- the result

  lemma ShinyResult(t: Word, c: nat, form: char) returns (q: Word)
    requires c < 50
    ensures Shiny(q, t) && Number(q) % 50 == c && DecodedForm(q) != form
  {
    ShinyFormsDiffer(t, c);
    var h := DecodedForm(ShinyFor(t, c, false)) == form;
    ShinyForFits(t, c, h);
    q := ShinyFor(t, c, h);
  }

  lemma SmallCodes(x: nat)
    requires x < 4
    ensures x % FORM_COUNT == x && (x + 8) % FORM_COUNT == x + 8
  {
  }

  lemma PlainForms(c: nat)
    requires c < 50
    ensures DecodedForm(PlainFor(c, 0)) != DecodedForm(PlainFor(c, 1))
  {
    SmallCodes(c % 4);
    PlainForm(c, 0);
    PlainForm(c, 1);
    SameFormIff(PlainFor(c, 0), PlainFor(c, 1));
  }

  lemma PlainTwins(c: nat, times: nat)
    requires c < 50 && times < 2
    ensures DecodedForm(PlainFor(c, times + 2)) == DecodedForm(PlainFor(c, times))
  {
    PlainForm(c, times);
    PlainForm(c, times + 2);
  }

  lemma PlainResult(t: Word, c: nat, form: char) returns (q: Word)
    requires c < 50
    ensures !Shiny(q, t) && Number(q) % 50 == c && DecodedForm(q) != form
  {
    PlainForms(c);
    var times := if DecodedForm(PlainFor(c, 0)) == form then 1 else 0;
    PlainTwins(c, times);
    NotBothShiny(c, t, times);
    PlainNumber(c, times);
    PlainNumber(c, times + 2);
    if Shiny(PlainFor(c, times), t) {
      q := PlainFor(c, times + 2);
    } else {
      q := PlainFor(c, times);
    }
  }

  /** For every trainer, shininess, nature and ability slot there is a personality that the search
      may return and that shows another form than the one the Unown has. */
  lemma SearchMayChangeForm(t: Word, shiny: bool, nature: nat, odd: bool, form: char) returns (q: Word)
    requires nature < NATURES
    ensures Admissible(q, t, shiny, nature, odd, Genderless) && DecodedForm(q) != form
  {
    if shiny {
      q := ShinyResult(t, Residue(nature, odd), form);
    } else {
      q := PlainResult(t, Residue(nature, odd), form);
    }
    ResidueSuffices(Number(q), nature, odd);
  }

  /** So the form is safe from the search exactly if the Pokémon is no Unown. */
  lemma SearchKeepsFormIff(isUnown: bool, t: Word, shiny: bool, nature: nat, odd: bool, form: char)
    requires nature < NATURES
    ensures (forall q | Admissible(q, t, shiny, nature, odd, Genderless) :: isUnown ==> DecodedForm(q) == form)
            <==> !isUnown
  {
    if isUnown {
      var q := SearchMayChangeForm(t, shiny, nature, odd, form);
    }
  }

  const ZERO: Word := ZeroWord()
  const FORM_S: Word := ZERO[1 := true][2 := true][8 := true][17 := true][24 := true]

  lemma NumberOfZero()
    ensures Number(ZERO) == 0
  {
    NumberOfNone(32);
    assert ZERO == seq(32, _ => false);
  }

  lemma NumberOfFormS()
    ensures Number(FORM_S) == 0x1020106
  {
    NumberOfZero();
    SmallLimits();
    LargeLimits();
    NumberOfSet(ZERO, 1);
    NumberOfSet(ZERO[1 := true], 2);
    NumberOfSet(ZERO[1 := true][2 := true], 8);
    NumberOfSet(ZERO[1 := true][2 := true][8 := true], 17);
    NumberOfSet(ZERO[1 := true][2 := true][8 := true][17 := true], 24);
  }

  lemma BothShiny()
    ensures Shiny(ZERO, ZERO) && Shiny(FORM_S, ZERO)
  {
    forall i: nat | 3 <= i < 16 ensures Ones(ZERO, ZERO, i) % 2 == 0 && Ones(FORM_S, ZERO, i) % 2 == 0 {
      assert FORM_S[i] == (i == 8) && FORM_S[16 + i] == (i == 8);
    }
  }

  lemma FormsAreAAndS()
    ensures DecodedForm(ZERO) == 'A' && DecodedForm(FORM_S) == 'S'
  {
    CodeInBits(ZERO);
    CodeInBits(FORM_S);
    assert Code(ZERO) == 0 && Code(FORM_S) == 102;
  }

  /** Trainer 0, nature 0, the first ability, shiny: 0 is form A, and 0x1020106 is form S. */
  lemma TwoResults()
    ensures Admissible(ZERO, ZERO, true, 0, false, Genderless) && DecodedForm(ZERO) == 'A'
    ensures Admissible(FORM_S, ZERO, true, 0, false, Genderless) && DecodedForm(FORM_S) == 'S'
  {
    NumberOfZero();
    NumberOfFormS();
    BothShiny();
    FormsAreAAndS();
  }

  lemma LargeLimits()
    ensures Limit(17) == 0x20000 && Limit(24) == 0x1000000
  {
    MoreLimits();
    assert Limit(15) == 4 * Limit(13) && Limit(17) == 4 * Limit(15) && Limit(19) == 4 * Limit(17);
    assert Limit(21) == 4 * Limit(19) && Limit(23) == 4 * Limit(21);
  }
}
