/**
 The Generation II Pokémon object: packed IVs, the IV map cached from them, and the form.
 */
module Gen2Pokemons {
  import opened Common
  import opened BitFields
  import opened Gen2Rules

  class Gen2Pokemon {
    const isUnown: bool
    const forms: seq<string>
    var ivData: IvData
    var ivs: map<Stat, int>
    var form: string

    ghost predicate Valid()
      reads this
    {
      && ivs == IvsOf(ivData)
      && forms != [] && (isUnown ==> forms[0] == STANDARD_FORM && forall f :: f in forms <==> IsLetterName(f))
    }

    ghost function State(): Unown
      reads this
    {
      Unown(ivData, form)
    }

    /** An object over native memory: an Unown shows the form that its IVs spell. */
    constructor (isUnown: bool, forms: seq<string>, ivData: IvData)
      requires forms != [] && (isUnown ==> forms[0] == STANDARD_FORM && forall f :: f in forms <==> IsLetterName(f))
      ensures Valid() && this.isUnown == isUnown && this.ivData == ivData
      ensures isUnown ==> Agrees(State())
    {
      this.isUnown, this.forms, this.ivData := isUnown, forms, ivData;
      ivs := IvsOf(ivData);
      form := if isUnown then [Letter(ivData)] else forms[0];
    }

    method SetGbIv(stat: Stat, value: int) returns (outcome: Outcome)
      requires Valid()
      modifies this`ivData, this`ivs
      ensures Valid()
      ensures outcome == if stat !in GEN1_STATS then InvalidArgument
                         else if 0 <= value <= 15 then Success
                         else OutOfRange
      ensures ivData == if outcome == Success then WithIv(old(ivData), stat, value) else old(ivData)
    {
      if stat !in GEN1_STATS {
        return InvalidArgument;
      }
      if !(0 <= value <= 15) {
        return OutOfRange;
      }
      if stat == Hp {
        ivData := ivData[0 := Bit(value, 0)][4 := Bit(value, 1)][8 := Bit(value, 2)][12 := Bit(value, 3)];
      } else {
        ivData := Ored(WithoutField(ivData, IvAt(stat), IV_BITS), IvAt(stat), value);
      }
      ivs := IvsOf(ivData);
      return Success;
    }

    method SetUnownFormFromIvs()
      modifies this`form
      ensures form == [Letter(ivData)]
    {
      CodeBound(ivData);
      form := [('A' as int + Code(ivData) / 10) as char];
    }

    method SetIV(stat: Stat, value: int) returns (outcome: Outcome)
      requires Valid()
      modifies this`ivData, this`ivs, this`form
      ensures Valid()
      ensures outcome == Success <==> Accepted(SetIv(stat, value))
      ensures outcome != Success ==> outcome == if stat !in GEN1_STATS then InvalidArgument else OutOfRange
      ensures isUnown ==> State() == Apply(old(State()), SetIv(stat, value))
      ensures !isUnown ==> form == old(form)
      ensures ivData == if outcome == Success then IvsAfter(old(ivData), SetIv(stat, value)) else old(ivData)
    {
      outcome := SetGbIv(stat, value);
      if outcome != Success {
        return;
      }
      if isUnown {
        SetUnownFormFromIvs();
      }
    }

    method SetShininess(shiny: bool)
      requires Valid()
      modifies this`ivData, this`ivs, this`form
      ensures Valid()
      ensures isUnown ==> State() == Apply(old(State()), Gen2Rules.SetShininess(shiny))
      ensures !isUnown ==> form == old(form)
      ensures ivData == IvsAfter(old(ivData), Gen2Rules.SetShininess(shiny))
    {
      if shiny {
        ivData := SHINY_IVS;
        ivs := IvsOf(ivData);
      } else {
        var _ := SetIV(Attack, 13);
      }
      if isUnown {
        SetUnownFormFromIvs();
      }
    }

    /** The form name goes to the database entry, and its first character into the IVs. */
    method SetForm(name: string) returns (outcome: Outcome)
      requires Valid()
      modifies this`ivData, this`ivs, this`form
      ensures Valid()
      ensures outcome == if name == "" || name in forms then Success else InvalidArgument
      ensures isUnown ==> State() == Apply(old(State()), Gen2Rules.SetForm(name))
      ensures form == if outcome != Success then old(form) else if name == "" then forms[0] else name
      ensures outcome != Success || !isUnown ==> ivData == old(ivData)
    {
      if name == "" {
        form := forms[0];
      } else if name in forms {
        form := name;
      } else {
        return InvalidArgument;
      }
      if isUnown {
        SetUnownIvsFromForm(CodeFor(name));
      }
      return Success;
    }

    /** Reads all four IVs first, then writes them one by one. */
    method SetUnownIvsFromForm(code: nat)
      requires Valid() && code < 256
      modifies this`ivData, this`ivs
      ensures Valid() && ivData == Lettered(old(ivData), code)
    {
      var attack := MiddleReplaced(ivs[Attack], code, 6);
      var defense := MiddleReplaced(ivs[Defense], code, 4);
      var speed := MiddleReplaced(ivs[Speed], code, 2);
      var special := MiddleReplaced(ivs[Special], code, 0);
      ReplacedMiddles(ivData, code);
      var _ := SetGbIv(Attack, attack);
      var _ := SetGbIv(Defense, defense);
      var _ := SetGbIv(Speed, speed);
      var _ := SetGbIv(Special, special);
    }
  }

  function WithMiddle(w: IvData, stat: Stat, code: nat, k: nat): IvData
    requires stat in {Attack, Defense, Speed, Special}
  {
    w[IvAt(stat) + 1 := Bit(code, k)][IvAt(stat) + 2 := Bit(code, k + 1)]
  }

  lemma ReplacedNumber(bits: seq<bool>, code: nat, k: nat)
    requires |bits| == 4
    ensures MiddleReplaced(Number(bits), code, k) == Number([bits[0], Bit(code, k), Bit(code, k + 1), bits[3]])
  {
    BitsOfNumber(bits);
    assert Bit(Number(bits), 0) == Bits(Number(bits), 4)[0] && Bit(Number(bits), 3) == Bits(Number(bits), 4)[3];
  }

  /** Storing four bits that agree with the word at both ends sets the two in the middle. */
  lemma MiddleStored(now: IvData, at: nat, after: seq<bool>)
    requires at + 4 <= 16 && |after| == 4 && now[at] == after[0] && now[at + 3] == after[3]
    ensures Stored(now, at, 4, Number(after)) == now[at + 1 := after[1]][at + 2 := after[2]]
  {
    forall i | 0 <= i < 16
      ensures Stored(now, at, 4, Number(after))[i] == now[at + 1 := after[1]][at + 2 := after[2]][i]
    {
      StoredBits(now, at, after, i);
    }
  }

  /** Writing an IV with its middle replaced changes just the two middle bits, also after other IVs
      have been written. */
  lemma ReplacedMiddle(w: IvData, now: IvData, stat: Stat, code: nat, k: nat)
    requires stat in {Attack, Defense, Speed, Special}
    requires now[IvAt(stat)..IvAt(stat) + 4] == w[IvAt(stat)..IvAt(stat) + 4]
    ensures MiddleReplaced(Iv(w, stat), code, k) < 16
    ensures WithIv(now, stat, MiddleReplaced(Iv(w, stat), code, k)) == WithMiddle(now, stat, code, k)
  {
    var at := IvAt(stat);
    var before := now[at..at + 4];
    var after := [before[0], Bit(code, k), Bit(code, k + 1), before[3]];
    ReplacedNumber(before, code, k);
    BitsOfNumber(after);
    SmallLimits();
    assert now[at] == before[0] && now[at + 3] == before[3];
    MiddleStored(now, at, after);
  }

  lemma MiddlesMakeLettered(w: IvData, code: nat)
    ensures WithMiddle(WithMiddle(WithMiddle(WithMiddle(w, Attack, code, 6), Defense, code, 4), Speed, code, 2),
                       Special, code, 0) == Lettered(w, code)
  {
  }

  lemma ReplacedMiddles(w: IvData, code: nat)
    requires code < 256
    ensures var a, d, s, p := MiddleReplaced(Iv(w, Attack), code, 6), MiddleReplaced(Iv(w, Defense), code, 4),
                              MiddleReplaced(Iv(w, Speed), code, 2), MiddleReplaced(Iv(w, Special), code, 0);
            && a < 16 && d < 16 && s < 16 && p < 16
            && WithIv(WithIv(WithIv(WithIv(w, Attack, a), Defense, d), Speed, s), Special, p) == Lettered(w, code)
  {
    var w1 := WithMiddle(w, Attack, code, 6);
    var w2 := WithMiddle(w1, Defense, code, 4);
    var w3 := WithMiddle(w2, Speed, code, 2);
    ReplacedMiddle(w, w, Attack, code, 6);
    UntouchedNibbles(w, code);
    ReplacedMiddle(w, w1, Defense, code, 4);
    ReplacedMiddle(w, w2, Speed, code, 2);
    ReplacedMiddle(w, w3, Special, code, 0);
    MiddlesMakeLettered(w, code);
  }

  lemma UntouchedNibbles(w: IvData, code: nat)
    ensures var w1 := WithMiddle(w, Attack, code, 6);
            var w2 := WithMiddle(w1, Defense, code, 4);
            var w3 := WithMiddle(w2, Speed, code, 2);
            w1[8..12] == w[8..12] && w2[4..8] == w[4..8] && w3[0..4] == w[0..4]
  {
  }
}
