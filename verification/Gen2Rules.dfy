/**
 The IVs of a Generation II Pokémon in one packed half word, and the form of an Unown,
 which is read from the two middle bits of each IV.
 */
module Gen2Rules {
  import opened Common
  import opened Words
  import opened BitFields

  type IvData = w: seq<bool> | |w| == 16 witness seq(16, _ => false)

  const GEN1_STATS: set<Stat> := {Hp, Attack, Defense, Speed, Special}

  const IV_BITS := 4

  /** Where the IV of a stat lies; HP has none of its own. */
  function IvAt(stat: Stat): nat {
    match stat
    case Attack => 12
    case Defense => 8
    case Speed => 4
    case _ => 0
  }

  function Iv(w: IvData, stat: Stat): nat {
    if stat == Hp then Number(HpBits(w)) else Field(w, IvAt(stat), IV_BITS)
  }

  /** The HP IV is made of the lowest bits of the other four. */
  function HpBits(w: IvData): seq<bool> {
    [w[0], w[4], w[8], w[12]]
  }

  function IvsOf(w: IvData): map<Stat, int> {
    map stat | stat in GEN1_STATS :: Iv(w, stat)
  }

  function WithIv(w: IvData, stat: Stat, value: nat): IvData {
    if stat == Hp then w[0 := Bit(value, 0)][4 := Bit(value, 1)][8 := Bit(value, 2)][12 := Bit(value, 3)]
    else Stored(w, IvAt(stat), IV_BITS, value)
  }

  lemma WithIvReads(w: IvData, stat: Stat, value: nat, other: Stat)
    requires stat in GEN1_STATS && other in GEN1_STATS && value < 16
    ensures other == stat ==> Iv(WithIv(w, stat, value), other) == value
    ensures other != stat && other != Hp && stat != Hp ==> Iv(WithIv(w, stat, value), other) == Iv(w, other)
  {
    SmallLimits();
    if stat == Hp {
      BitsMakeNumber(value, 4);
      assert HpBits(WithIv(w, stat, value)) == Bits(value, 4);
    } else if other == stat {
      StoredIsRead(w, IvAt(stat), IV_BITS, value);
    } else if other != Hp {
      StoredKeepsOthers(w, IvAt(stat), IV_BITS, value, IvAt(other), IV_BITS);
    }
  }

  lemma MiddleIs(w: IvData, stat: Stat)
    requires stat in GEN1_STATS && stat != Hp
    ensures Iv(w, stat) / 2 % 4 == One(w[IvAt(stat) + 1]) + 2 * One(w[IvAt(stat) + 2])
  {
    FieldOfFour(w, IvAt(stat));
  }

  lemma OddIffLowestBit(w: IvData, stat: Stat)
    requires stat in GEN1_STATS && stat != Hp
    ensures Iv(w, stat) % 2 == One(w[IvAt(stat)])
    ensures Iv(w, stat) / 2 == One(w[IvAt(stat) + 1]) + 2 * One(w[IvAt(stat) + 2]) + 4 * One(w[IvAt(stat) + 3])
  {
    FieldOfFour(w, IvAt(stat));
  }

  /** The HP IV is made of the parities of the other four. */
  lemma HpIs(w: IvData)
    ensures Iv(w, Hp) == 8 * (Iv(w, Attack) % 2) + 4 * (Iv(w, Defense) % 2) + 2 * (Iv(w, Speed) % 2)
                         + Iv(w, Special) % 2
  {
    NumberOfFour(HpBits(w));
    OddIffLowestBit(w, Attack);
    OddIffLowestBit(w, Defense);
    OddIffLowestBit(w, Speed);
    OddIffLowestBit(w, Special);
  }

  /** Writing the HP IV changes the parities of the other four and nothing else of them. */
  lemma WritingHpKeeps(w: IvData, value: nat, stat: Stat)
    requires value < 16 && stat in GEN1_STATS && stat != Hp
    ensures Iv(WithIv(w, Hp, value), stat) / 2 == Iv(w, stat) / 2
  {
    OddIffLowestBit(w, stat);
    OddIffLowestBit(WithIv(w, Hp, value), stat);
  }

  /** The IVs accepted are those that fit: what is read back is what was asked for. */
  lemma AcceptedIff(w: IvData, stat: Stat, value: nat)
    requires stat in GEN1_STATS
    ensures Accepted(SetIv(stat, value)) <==> Iv(WithIv(w, stat, value), stat) == value
  {
    if value < 16 {
      WithIvReads(w, stat, value, stat);
    } else {
      SmallLimits();
      var after := WithIv(w, stat, value);
      BitsOfNumber(if stat == Hp then HpBits(after) else after[IvAt(stat)..IvAt(stat) + 4]);
    }
  }

  // ---------------------------------------------------------------- Unown letters

  /** The middle bits of the special, speed, defense and attack IVs. */
  function CodeBits(w: IvData): seq<bool> {
    [w[1], w[2], w[5], w[6], w[9], w[10], w[13], w[14]]
  }

  function Code(w: IvData): nat {
    Number(CodeBits(w))
  }

  /** The code written for a form name, in the program's 16-bit arithmetic. The first character of
      an empty name is the terminator. */
  function CodeFor(name: string): nat {
    var first := if name == "" then 0 else name[0] as int;
    Min((((first - 'A' as int) * 10) % 0x1_0000 + 9) % 0x1_0000, 255)
  }

  function Letter(w: IvData): char
  {
    CodeBound(w);
    ('A' as int + Code(w) / 10) as char
  }

  lemma CodeBound(w: IvData)
    ensures Code(w) < 256
  {
    BitsOfNumber(CodeBits(w));
    SmallLimits();
  }

  predicate IsLetterName(name: string) {
    |name| == 1 && 'A' <= name[0] <= 'Z'
  }

  /** The code in terms of the IVs: the two middle bits of each. */
  lemma CodeIs(w: IvData)
    ensures Code(w) == 64 * (Iv(w, Attack) / 2 % 4) + 16 * (Iv(w, Defense) / 2 % 4) + 4 * (Iv(w, Speed) / 2 % 4)
                       + Iv(w, Special) / 2 % 4
  {
    NumberOfEight(CodeBits(w));
    MiddleIs(w, Attack);
    MiddleIs(w, Defense);
    MiddleIs(w, Speed);
    MiddleIs(w, Special);
  }

  /** Ten codes in a row spell the same letter. */
  lemma LetterIs(w: IvData)
    ensures Code(w) < 256
    ensures Letter(w) == "ABCDEFGHIJKLMNOPQRSTUVWXYZ"[Code(w) / 10]
  {
    CodeBound(w);
    var n := Code(w) / 10;
    assert "ABCDEFGHIJKLMNOPQRSTUVWXYZ"[n] as int == 'A' as int + n;
  }

  /** The code of a letter reads as that letter, and is the largest 8-bit code that does. */
  lemma CodeIsLargest(name: string, code: nat)
    requires IsLetterName(name) && code < 256
    ensures 'A' as int + CodeFor(name) / 10 == name[0] as int && CodeFor(name) < 256
    ensures 'A' as int + code / 10 == name[0] as int ==> code <= CodeFor(name)
  {
  }

  /** The middle two bits of an IV replaced by two bits of the code. */
  function MiddleReplaced(iv: nat, code: nat, k: nat): nat {
    Number([Bit(iv, 0), Bit(code, k), Bit(code, k + 1), Bit(iv, 3)])
  }

  /** What the four IV writes of `_set_unown_IVs_from_form` leave. */
  function Lettered(w: IvData, code: nat): IvData {
    w[13 := Bit(code, 6)][14 := Bit(code, 7)][9 := Bit(code, 4)][10 := Bit(code, 5)]
     [5 := Bit(code, 2)][6 := Bit(code, 3)][1 := Bit(code, 0)][2 := Bit(code, 1)]
  }

  /** Encoding a code and reading it back; the HP IV does not change. */
  lemma LetteredIsRead(w: IvData, code: nat)
    requires code < 256
    ensures Code(Lettered(w, code)) == code
    ensures Iv(Lettered(w, code), Hp) == Iv(w, Hp)
  {
    SmallLimits();
    BitsMakeNumber(code, 8);
    assert CodeBits(Lettered(w, code)) == Bits(code, 8);
    assert HpBits(Lettered(w, code)) == HpBits(w);
  }

  /** Of each IV a form takes the two middle bits: parity and highest bit stay. */
  lemma LetteredKeeps(w: IvData, code: nat, stat: Stat)
    requires code < 256 && stat in GEN1_STATS && stat != Hp
    ensures var after := Iv(Lettered(w, code), stat);
            after % 2 == Iv(w, stat) % 2 && after / 8 == Iv(w, stat) / 8
  {
    FieldOfFour(w, IvAt(stat));
    FieldOfFour(Lettered(w, code), IvAt(stat));
  }

  lemma LetterRoundTrip(w: IvData, name: string)
    requires IsLetterName(name)
    ensures [Letter(Lettered(w, CodeFor(name)))] == name
  {
    CodeIsLargest(name, 0);
    LetteredIsRead(w, CodeFor(name));
  }

  // ---------------------------------------------------------------- runs

  /** An Unown: its IVs, and the form the database entry shows. */
  datatype Unown = Unown(ivData: IvData, form: string)

  datatype Op =
    | SetForm(name: string)
    | SetIv(stat: Stat, value: int)
    | SetShininess(shiny: bool)

  const STANDARD_FORM := "A"

  /** A name is accepted if it is empty, which stands for the standard form, or a letter. */
  predicate Accepted(op: Op) {
    match op
    case SetForm(name) => name == "" || IsLetterName(name)
    case SetIv(stat, value) => stat in GEN1_STATS && 0 <= value <= 15
    case SetShininess(_) => true
  }

  /** 0xFAAA: attack 15, the other three 10. */
  const SHINY_IVS: IvData :=
    [false, true, false, true, false, true, false, true, false, true, false, true, true, true, true, true]

  function IvsAfter(w: IvData, op: Op): IvData
    requires Accepted(op)
  {
    match op
    case SetForm(name) => Lettered(w, CodeFor(name))
    case SetIv(stat, value) => WithIv(w, stat, value)
    case SetShininess(shiny) => if shiny then SHINY_IVS else WithIv(w, Attack, 13)
  }

  function Apply(u: Unown, op: Op): Unown {
    if !Accepted(op) then u
    else match op
      case SetForm(name) => Unown(IvsAfter(u.ivData, op), if name == "" then STANDARD_FORM else name)
      case _ => var w := IvsAfter(u.ivData, op); Unown(w, [Letter(w)])
  }

  function Run(u: Unown, ops: seq<Op>): Unown {
    if ops == [] then u else Apply(Run(u, ops[..|ops| - 1]), ops[|ops| - 1])
  }

  predicate Agrees(u: Unown) {
    u.form == [Letter(u.ivData)]
  }

  /** An empty form name sets the IVs of the last letter but shows the first. */
  lemma ApplyAgreesIff(u: Unown, op: Op)
    requires Accepted(op)
    ensures Agrees(Apply(u, op)) <==> op != SetForm("")
  {
    if op.SetForm? {
      if op.name == "" {
        assert CodeFor("") == 255;
        LetteredIsRead(u.ivData, 255);
      } else {
        LetterRoundTrip(u.ivData, op.name);
      }
    }
  }

  /** What an empty name does: the first letter is shown, and the IVs spell the last one. */
  lemma EmptyNameSpellsLast(u: Unown)
    ensures Apply(u, SetForm("")).form == "A" && Letter(Apply(u, SetForm("")).ivData) == 'Z'
  {
    assert CodeFor("") == 255;
    LetteredIsRead(u.ivData, 255);
  }

  function LastAccepted(ops: seq<Op>): seq<Op> {
    if ops == [] then []
    else if Accepted(ops[|ops| - 1]) then [ops[|ops| - 1]]
    else LastAccepted(ops[..|ops| - 1])
  }

  /** After any run the form shown is the one that the IVs spell, exactly when the last call that
      was accepted is not `set_form("")` (and if none was, when it was so before). */
  lemma {:induction false} RunAgreesIff(u: Unown, ops: seq<Op>)
    ensures Agrees(Run(u, ops)) <==>
            if LastAccepted(ops) == [] then Agrees(u) else LastAccepted(ops) != [SetForm("")]
  {
    if ops == [] {
    } else {
      var op := ops[|ops| - 1];
      if Accepted(op) {
        ApplyAgreesIff(Run(u, ops[..|ops| - 1]), op);
      } else {
        RunAgreesIff(u, ops[..|ops| - 1]);
      }
    }
  }

  // ---------------------------------------------------------------- shininess

  predicate Shiny(w: IvData) {
    && Iv(w, Defense) == 10 && Iv(w, Speed) == 10 && Iv(w, Special) == 10
    && Iv(w, Attack) in {2, 3, 6, 7, 10, 11, 14, 15}
  }

  /** Unlike in Generation III, setting shininess works both ways. */
  lemma SetShininessWorks(w: IvData, shiny: bool)
    ensures Shiny(IvsAfter(w, SetShininess(shiny))) <==> shiny
  {
    if shiny {
      ShinyIvs();
    } else {
      WithIvReads(w, Attack, 13, Attack);
    }
  }

  /** What the request leaves: IVs that are shiny, or only another attack IV. */
  lemma SetShininessIs(w: IvData, stat: Stat)
    requires stat in {Attack, Defense, Speed, Special}
    ensures Iv(IvsAfter(w, SetShininess(true)), stat) == if stat == Attack then 15 else 10
    ensures Iv(IvsAfter(w, SetShininess(false)), stat) == if stat == Attack then 13 else Iv(w, stat)
  {
    ShinyIvs();
    WithIvReads(w, Attack, 13, stat);
  }

  /** Half of the attack IVs are shiny: those with their second bit set. */
  lemma ShinyIff(w: IvData)
    ensures Shiny(w) <==>
            Iv(w, Defense) == Iv(w, Speed) == Iv(w, Special) == 10 && Iv(w, Attack) / 2 % 2 == 1
  {
    FieldOfFour(w, 12);
  }

  lemma ShinyNibble(at: nat)
    requires at == 0 || at == 4 || at == 8
    ensures Field(SHINY_IVS, at, 4) == 10
  {
    FieldOfFour(SHINY_IVS, at);
  }

  lemma ShinyIvs()
    ensures Iv(SHINY_IVS, Attack) == 15
    ensures Iv(SHINY_IVS, Defense) == Iv(SHINY_IVS, Speed) == Iv(SHINY_IVS, Special) == 10
  {
    FieldOfFour(SHINY_IVS, 12);
    ShinyNibble(8);
    ShinyNibble(4);
    ShinyNibble(0);
  }

  lemma FieldOfFour(w: IvData, at: nat)
    requires at + 4 <= 16
    ensures Field(w, at, 4) == One(w[at]) + 2 * One(w[at + 1]) + 4 * One(w[at + 2]) + 8 * One(w[at + 3])
  {
    NumberOfFour(w[at..at + 4]);
  }
}
