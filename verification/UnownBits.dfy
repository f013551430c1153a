/**
 The form of a Generation III Unown, in the low two bits of the four bytes of its
 personality.
 */
module UnownBits {
  import opened Words
  import opened BitFields

  const FORM_COUNT := 28

  /** A personality with bits 2k and 2k+1 of the form number in the low bits of byte `k`, for the
      first `n` bytes. */
  function Written(p: Word, number: nat, n: nat): Word
    requires n <= 4
  {
    seq(32, i requires 0 <= i < 32 => if i / 8 < n && i % 8 < 2 then Bit(number, 2 * (i / 8) + i % 8) else p[i])
  }

  /** One more byte: its low bits cleared, then or-ed with bits of the number. */
  lemma WrittenNext(p: Word, number: nat, n: nat)
    requires n < 4
    ensures Written(p, number, n + 1) ==
            Written(p, number, n)[8 * n := Bit(number, 2 * n)][8 * n + 1 := Bit(number, 2 * n + 1)]
  {
  }

  /** The low two bits of the four bytes. */
  function CodeBits(p: Word): seq<bool> {
    [p[0], p[1], p[8], p[9], p[16], p[17], p[24], p[25]]
  }

  /** The eight-bit number that the form is read from. */
  function Code(p: Word): nat {
    Number(CodeBits(p))
  }

  /** 'A' to 'Z', then the question mark and the exclamation mark. */
  function FormOf(number: nat): char
    requires number < FORM_COUNT
  {
    if number == 26 then '?' else if number == 27 then '!' else ('A' as int + number) as char
  }

  predicate IsForm(form: char) {
    'A' <= form <= 'Z' || form == '?' || form == '!'
  }

  predicate IsFormName(name: string) {
    |name| == 1 && IsForm(name[0])
  }

  function NumberOf(form: char): nat
    requires IsForm(form)
  {
    if form == '?' then 26 else if form == '!' then 27 else form as int - 'A' as int
  }

  function DecodedForm(p: Word): char {
    FormOf(Code(p) % FORM_COUNT)
  }

  lemma FormsAreNumbered(form: char, number: nat)
    requires IsForm(form) && number < FORM_COUNT
    ensures NumberOf(form) < FORM_COUNT && FormOf(NumberOf(form)) == form
    ensures IsForm(FormOf(number)) && NumberOf(FormOf(number)) == number
  {
  }

  lemma FormsInOrder(number: nat)
    requires number < FORM_COUNT
    ensures FormOf(number) == "ABCDEFGHIJKLMNOPQRSTUVWXYZ?!"[number]
  {
  }

  /** The low two bits of each byte, the lowest byte first. */
  lemma CodeIs(p: Word)
    ensures Code(p) == Field(p, 0, 2) + 4 * Field(p, 8, 2) + 16 * Field(p, 16, 2) + 64 * Field(p, 24, 2)
  {
    NumberOfEight(CodeBits(p));
    NumberOfTwo(p[0..2]);
    NumberOfTwo(p[8..10]);
    NumberOfTwo(p[16..18]);
    NumberOfTwo(p[24..26]);
  }

  /** Writing a number leaves the other 24 bits alone, and the number is what is then read. */
  lemma WrittenIsRead(p: Word, number: nat)
    requires number < 0x100
    ensures Code(Written(p, number, 4)) == number
    ensures forall i | 0 <= i < 32 && i % 8 >= 2 :: Written(p, number, 4)[i] == p[i]
  {
    SmallLimits();
    BitsMakeNumber(number, 8);
    assert CodeBits(Written(p, number, 4)) == Bits(number, 8);
  }

  lemma FormRoundTrip(p: Word, form: char)
    requires IsForm(form)
    ensures DecodedForm(Written(p, NumberOf(form), 4)) == form
  {
    FormsAreNumbered(form, NumberOf(form));
    WrittenIsRead(p, NumberOf(form));
  }

  lemma CodeDetermines(p: Word, q: Word)
    requires Code(p) == Code(q) && forall i | 0 <= i < 32 && i % 8 >= 2 :: p[i] == q[i]
    ensures p == q
  {
    NumberDetermines(CodeBits(p), CodeBits(q));
    forall i | 0 <= i < 32 ensures p[i] == q[i] {
      if i % 8 < 2 {
        var k := 2 * (i / 8) + i % 8;
        assert CodeBits(p)[k] == p[i] && CodeBits(q)[k] == q[i];
      }
    }
  }

  /** A personality that carries 28 reads as 'A' and is changed by writing 'A' again. */
  lemma RewriteLosesCode()
    ensures var p := Written(seq(32, _ => false), 28, 4);
            Code(p) == 28 && DecodedForm(p) == 'A' && Written(p, NumberOf('A'), 4) != p
  {
    var p: Word := Written(seq(32, _ => false), 28, 4);
    WrittenIsRead(seq(32, _ => false), 28);
    WrittenIsRead(p, 0);
  }

  /** Rewriting a personality for a form keeps it exactly when it carried the form's own number:
      a personality can also read as the form with a code that is a multiple of 28 above it. */
  lemma RewriteKeepsIff(p: Word, form: char)
    requires IsForm(form)
    ensures Written(p, NumberOf(form), 4) == p <==> Code(p) == NumberOf(form)
  {
    FormsAreNumbered(form, NumberOf(form));
    WrittenIsRead(p, NumberOf(form));
    if Code(p) == NumberOf(form) {
      CodeDetermines(p, Written(p, NumberOf(form), 4));
    }
  }
}
