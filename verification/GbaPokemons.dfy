/**
 The Game Boy Advance Pokémon object: a packed native structure, the maps cached from it,
 and the form of an Unown, which its personality encodes.
 */
module GbaPokemons {
  import opened Common
  import opened Words
  import opened BitFields
  import opened GbaLayout
  import opened Shininess
  import opened UnownBits
  import opened Personalities
  import opened Learnset
  import UnownForms

  datatype MoveSlot = MoveSlot(move: nat, pp: int)

  /** What the database says about the moves of a game: PP with 0 to 3 PP Ups. */
  datatype Movedex = Movedex(known: nat -> bool, pp: (nat, nat) -> nat)

  /** Move numbers and PP fit into their native fields, and "no move" is known. */
  ghost predicate Sensible(dex: Movedex) {
    && dex.known(NO_MOVE)
    && forall m: nat, ups: nat :: dex.pp(m, ups) < 0x100 && (dex.known(m) ==> m < 0x1_0000)
  }

  function MovesOf(moves: seq<nat>, pps: seq<nat>): (slots: seq<MoveSlot>)
    requires |moves| == |pps| == SLOTS
    ensures |slots| == SLOTS && forall i | 0 <= i < SLOTS :: slots[i] == MoveSlot(moves[i], pps[i])
  {
    seq(SLOTS, i requires 0 <= i < SLOTS => MoveSlot(moves[i], pps[i]))
  }

  /** The fewest PP Ups with which a move can have `pp` points. */
  function LeastUps(dex: Movedex, move: nat, pp: int, tried: nat := 0): (ups: nat)
    requires tried <= 3 && pp <= dex.pp(move, 3)
    ensures tried <= ups <= 3 && pp <= dex.pp(move, ups)
    ensures forall k: nat | tried <= k < ups :: dex.pp(move, k) < pp
    decreases 3 - tried
  {
    if pp <= dex.pp(move, tried) then tried else LeastUps(dex, move, pp, tried + 1)
  }

  /** The forms of a species in a game, the standard one first; Unown has its 28 letters. */
  ghost predicate HasForms(isUnown: bool, forms: seq<string>) {
    forms != [] && (isUnown ==> forms[0] == "A" && forall f :: f in forms <==> IsFormName(f))
  }

  lemma OriginIsRead(w: HalfWord, at: nat, n: nat, value: nat)
    requires at + n <= 16 && (if n == 4 then value < 16 else n == 7 && value < 128)
    ensures Field(Stored(w, at, n, value), at, n) == value
  {
    SmallLimits();
    StoredIsRead(w, at, n, value);
  }

  // ---------------------------------------------------------------- shared setters, on native fields

  method CountOnes(p: Word, t: Word, i: nat) returns (numOnes: nat)
    requires i < 16
    ensures numOnes == Ones(p, t, i)
  {
    numOnes := 0;
    if HalfBit(p, 0, i) { numOnes := numOnes + 1; }
    if HalfBit(p, 1, i) { numOnes := numOnes + 1; }
    if HalfBit(t, 0, i) { numOnes := numOnes + 1; }
    if HalfBit(t, 1, i) { numOnes := numOnes + 1; }
  }

  /** The column loop for a shiny Pokémon, one bit flip for any other. */
  method SetModernShininess(personality: Word, t: Word, value: bool) returns (p: Word)
    ensures p == if value then MadeShiny(personality, t) else Cleared(personality, t)
  {
    p := personality;
    if value {
      var i := 3;
      while i < 16
        invariant 3 <= i <= 16 && p == Repaired(personality, t, i)
      {
        RepairedNext(personality, t, i);
        var numOnes := CountOnes(p, t, i);
        if numOnes % 2 == 1 {
          p := p[i := !p[i]];
        }
        i := i + 1;
      }
    } else {
      var sum := CountOnes(p, t, 0);
      if sum % 2 == 0 {
        p := p[0 := !p[0]];
      }
    }
  }

  /** The form number goes into the low two bits of each byte of the personality. */
  method WriteFormNumber(personality: Word, number: nat) returns (p: Word)
    ensures p == Written(personality, number, 4)
  {
    p := personality;
    var i := 0;
    while i < 4
      invariant 0 <= i <= 4 && p == Written(personality, number, i)
    {
      WrittenNext(personality, number, i);
      var at, low, high := 8 * i, Bit(number, 2 * i), Bit(number, 2 * i + 1);
      p := p[at := false][at + 1 := false];
      p := p[at := p[at] || low][at + 1 := p[at + 1] || high];
      i := i + 1;
    }
  }

  method WriteForm(personality: Word, form: char) returns (p: Word)
    requires IsForm(form)
    ensures p == Written(personality, NumberOf(form), 4) && DecodedForm(p) == form
  {
    var number := if form == '?' then 26 else if form == '!' then 27 else form as int - 'A' as int;
    p := WriteFormNumber(personality, number);
    FormRoundTrip(personality, form);
  }

  lemma MarkingKeys(w: PackedByte)
    ensures MarkingsOf(w).Keys == GEN3_MARKINGS
  {
  }

  method StoreMarking(n: Native, marking: Marking, value: bool) returns (n': Native)
    requires marking in GEN3_MARKINGS
    ensures n' == n.(markings := n.markings[MarkingAt(marking) := value])
    ensures MarkingsOf(n'.markings) == MarkingsOf(n.markings)[marking := value]
  {
    n' := n.(markings := n.markings[MarkingAt(marking) := value]);
    MarkingsAfterMarking(n.markings, marking, value);
  }

  method StoreEv(n: Native, stat: Stat, value: Byte) returns (n': Native)
    requires stat in MODERN_STATS
    ensures n' == n.(effort := WithEv(n.effort, stat, value))
    ensures EvsOf(n'.effort) == EvsOf(n.effort)[stat := value]
  {
    var e := n.effort;
    match stat {
      case Hp => e := e.(hp := value);
      case Attack => e := e.(atk := value);
      case Defense => e := e.(def := value);
      case Speed => e := e.(spd := value);
      case SpecialAttack => e := e.(spAtk := value);
      case SpecialDefense => e := e.(spDef := value);
      case Special => assert false;
    }
    n' := n.(effort := e);
    StoredEv(n.effort, stat, value);
  }

  method StoreContestStat(n: Native, stat: ContestStat, value: Byte) returns (n': Native)
    requires stat in GEN3_CONTEST_STATS
    ensures n' == n.(contest := WithContestStat(n.contest, stat, value))
    ensures ContestStatsOf(n'.contest) == ContestStatsOf(n.contest)[stat := value]
  {
    var c := n.contest;
    match stat {
      case CoolStat => c := c.(cool := value);
      case BeautyStat => c := c.(beauty := value);
      case CuteStat => c := c.(cute := value);
      case SmartStat => c := c.(smart := value);
      case ToughStat => c := c.(tough := value);
      case Feel => c := c.(feel := value);
      case Sheen => assert false;
    }
    n' := n.(contest := c);
    StoredContestStat(n.contest, stat, value);
  }

  /** The two bits of one move get the first number of PP Ups that is enough. */
  method StorePpUps(ppUp: PackedByte, dex: Movedex, move: nat, index: nat, pp: int) returns (bits: PackedByte)
    requires index < SLOTS && pp <= dex.pp(move, 3)
    ensures bits == Stored(ppUp, 2 * index, PP_UP_BITS, LeastUps(dex, move, pp))
  {
    bits := WithoutField(ppUp, 2 * index, PP_UP_BITS);
    var ups := 0;
    while ups < 4
      invariant 0 <= ups < 4
      invariant LeastUps(dex, move, pp) == LeastUps(dex, move, pp, ups)
    {
      if pp <= dex.pp(move, ups) {
        bits := Ored(bits, 2 * index, ups);
        return;
      }
      ups := ups + 1;
    }
  }

  method StorePp(n: Native, dex: Movedex, move: nat, index: nat, pp: nat) returns (n': Native)
    requires index < SLOTS && pp <= dex.pp(move, 3) < 0x100
    ensures n' == n.(movePps := n.movePps[index := pp],
                     ppUp := Stored(n.ppUp, 2 * index, PP_UP_BITS, LeastUps(dex, move, pp)))
    ensures MovesOf(n'.moves, n'.movePps) == MovesOf(n.moves, n.movePps)[index := MoveSlot(n.moves[index], pp)]
  {
    var bits := StorePpUps(n.ppUp, dex, move, index, pp);
    n' := n.(movePps := n.movePps[index := pp % 0x100], ppUp := bits);
  }

  method StoreMove(n: Native, move: nat, index: nat, pp: nat) returns (n': Native)
    requires index < SLOTS && move < 0x1_0000 && pp < 0x100
    ensures n' == n.(moves := n.moves[index := move], movePps := n.movePps[index := pp])
    ensures MovesOf(n'.moves, n'.movePps) == MovesOf(n.moves, n.movePps)[index := MoveSlot(move, pp)]
  {
    n' := n.(moves := n.moves[index := move % 0x1_0000], movePps := n.movePps[index := pp % 0x100]);
  }

  /** Replaces the level of one contest in the ribbon word. */
  method StoreContestRibbon(word: Word, contest: Contest, rank: Rank, value: bool) returns (w: Word)
    ensures w == WithContestRibbon(word, contest, rank, value)
  {
    var at := ContestAt(contest);
    var level := NamedLevel(rank);
    var current := Field(word, at, CONTEST_BITS);
    if value {
      if level == 0 {
        level := level + 1;
      }
      level := if level < current then current else level;
    } else {
      if level > 0 {
        level := level - 1;
      }
      level := if level > current then current else level;
    }
    w := Ored(WithoutField(word, at, CONTEST_BITS), at, level);
  }

  /** First and last entry of the window of default moves. Needs, as the program asserts, that the
      first entry is not above the level. */
  method DefaultWindow(level: int, moves: seq<LevelupMove>) returns (first: nat, last: nat)
    requires moves != [] && moves[0].level <= level
    ensures first == Start(Eligible(moves, level), |moves|) && last == Eligible(moves, level) - 1
  {
    var found := 0;
    while found < |moves| && moves[found].level <= level
      invariant 0 <= found <= |moves|
      invariant Eligible(moves, level) == found + Eligible(moves[found..], level)
    {
      assert moves[found..][1..] == moves[found + 1..];
      found := found + 1;
    }
    first, last := 0, |moves| - 1;
    if found == |moves| {
      if |moves| > 4 {
        first := |moves| - 4;
      }
    } else {
      last := found - 1;
      if last > 3 {
        first := last - 4;
      }
    }
  }

  class GbaPokemon {
    const dex: Movedex
    const isUnown: bool
    const forms: seq<string>
    const firstAbility: nat
    const secondAbility: nat
    var native: Native
    /** The form that the native species index stands for, and the form shown. */
    var nativeForm: string
    var form: string

    var ivs: map<Stat, int>
    var evs: map<Stat, int>
    var markings: map<Marking, bool>
    var ribbons: map<Ribbon, bool>
    var contestStats: map<ContestStat, int>
    var moveSlots: seq<MoveSlot>

    ghost predicate Shaped()
      reads this
    {
      && Sensible(dex)
      && |moveSlots| == SLOTS
      && HasForms(isUnown, forms)
      && (isUnown ==> IsFormName(form) && IsFormName(nativeForm))
    }

    /** Every cached map equals a fresh decode of the native structure. */
    ghost predicate ViewsAgree()
      requires Shaped()
      reads this
    {
      && ivs == IvsOf(native.ivEggAbility)
      && evs == EvsOf(native.effort)
      && markings == MarkingsOf(native.markings)
      && ribbons == RibbonsOf(native.ribbonsObedience)
      && contestStats == ContestStatsOf(native.contest)
      && moveSlots == MovesOf(native.moves, native.movePps)
    }

    ghost predicate Valid()
      reads this
    {
      Shaped() && ViewsAgree()
    }

    ghost predicate FormAgrees()
      reads this
    {
      isUnown ==> form == [DecodedForm(native.personality)]
    }

    /** What the form calls of an Unown work on, and what they find fixed. */
    ghost function UnownState(): UnownForms.Unown
      reads this
    {
      UnownForms.Unown(native.personality, form, nativeForm)
    }

    ghost function Setting(): UnownForms.Setting
      reads this
    {
      UnownForms.Setting(native.otId, firstAbility, secondAbility)
    }

    /** An object over native memory. An Unown takes its form from the native species index and
        rewrites its personality to match. */
    constructor (dex: Movedex, isUnown: bool, forms: seq<string>, abilities: (nat, nat),
                 native: Native, nativeForm: string)
      requires Sensible(dex)
      requires HasForms(isUnown, forms) && (isUnown ==> IsFormName(nativeForm))
      ensures Valid() && FormAgrees()
      ensures this.dex == dex && this.isUnown == isUnown && this.forms == forms
      ensures (firstAbility, secondAbility) == abilities
      ensures form == this.nativeForm == nativeForm
      ensures this.native ==
              if isUnown then native.(personality := Written(native.personality, NumberOf(nativeForm[0]), 4))
              else native
    {
      this.dex, this.isUnown, this.forms := dex, isUnown, forms;
      firstAbility, secondAbility := abilities.0, abilities.1;
      this.native, this.nativeForm, form := native, nativeForm, nativeForm;
      ivs, evs := IvsOf(native.ivEggAbility), EvsOf(native.effort);
      markings, ribbons := MarkingsOf(native.markings), RibbonsOf(native.ribbonsObedience);
      contestStats, moveSlots := ContestStatsOf(native.contest), MovesOf(native.moves, native.movePps);
      new;
      if isUnown {
        SetUnownPersonalityFromForm();
      }
    }

    // -------------------------------------------------------------- Unown

    method SetUnownPersonalityFromForm()
      requires Valid() && IsFormName(form)
      modifies this`native
      ensures Valid()
      ensures native == old(native).(personality := Written(old(native.personality), NumberOf(form[0]), 4))
      ensures form == [DecodedForm(native.personality)]
    {
      var personality := WriteForm(native.personality, form[0]);
      native := native.(personality := personality);
    }

    /** What every container and every load makes of a Pokémon: an object from its native data. It
        shows the same form exactly if that is the one stored, and has the same native data exactly
        if the personality of an Unown carries the number of the stored form. */
    static method Copy(p: GbaPokemon) returns (q: GbaPokemon)
      requires p.Valid()
      ensures fresh(q) && q.Valid() && q.FormAgrees()
      ensures p.isUnown ==> q.UnownState() == UnownForms.Reloaded(p.UnownState())
      ensures q.form == p.form <==> p.nativeForm == p.form
      ensures q.native == p.native <==> (p.isUnown ==> Code(p.native.personality) == NumberOf(p.nativeForm[0]))
    {
      q := new GbaPokemon(p.dex, p.isUnown, p.forms, (p.firstAbility, p.secondAbility), p.native, p.nativeForm);
      if p.isUnown {
        RewriteKeepsIff(p.native.personality, p.nativeForm[0]);
      }
    }

    /** An empty name stands for the standard form, which comes first. */
    method SetForm(name: string) returns (outcome: Outcome)
      requires Valid()
      modifies this`native, this`nativeForm, this`form
      ensures Valid()
      ensures outcome == if name == "" || name in forms then Success else InvalidArgument
      ensures outcome == Success ==> form == nativeForm == (if name == "" then forms[0] else name)
      ensures outcome == Success ==> FormAgrees()
      ensures native == if outcome == Success && isUnown
                        then old(native).(personality := Written(old(native.personality), NumberOf(form[0]), 4))
                        else old(native)
      ensures outcome != Success ==> form == old(form) && nativeForm == old(nativeForm)
      ensures isUnown ==> UnownState() == UnownForms.Apply(Setting(), old(UnownState()), UnownForms.SetForm(name))
    {
      if name == "" {
        form := forms[0];
      } else if name in forms {
        form := name;
      } else {
        return InvalidArgument;
      }
      nativeForm := form;
      if isUnown {
        SetUnownPersonalityFromForm();
      }
      return Success;
    }

    method SetUnownFormFromPersonality()
      requires isUnown
      modifies this`form
      ensures form == [DecodedForm(native.personality)] && IsFormName(form)
    {
      var letter := FormOf(Code(native.personality) % FORM_COUNT);
      FormsAreNumbered(letter, Code(native.personality) % FORM_COUNT);
      form := [letter];
    }

    /** The form stored in the species index is left alone. */
    method SetShininess(value: bool)
      requires Valid()
      modifies this`native, this`form
      ensures Valid() && (isUnown ==> FormAgrees())
      ensures var p, t := old(native.personality), native.otId;
              native == old(native).(personality := if value then MadeShiny(p, t) else Cleared(p, t))
      ensures nativeForm == old(nativeForm) && (!isUnown ==> form == old(form))
      ensures isUnown ==>
                UnownState() == UnownForms.Apply(Setting(), old(UnownState()), UnownForms.SetShininess(value))
    {
      var personality := SetModernShininess(native.personality, native.otId, value);
      native := native.(personality := personality);
      if isUnown {
        SetUnownFormFromPersonality();
      }
    }

    method IsShiny() returns (r: bool)
      requires Shaped()
      ensures r <==> Shiny(native.personality, native.otId)
    {
      var p, t := native.personality, native.otId;
      var i := 3;
      while i < 16
        invariant 3 <= i <= 16
        invariant forall k: nat | 3 <= k < i :: Ones(p, t, k) % 2 == 0
      {
        var numOnes := CountOnes(p, t, i);
        if numOnes % 2 == 1 {
          return false;
        }
        i := i + 1;
      }
      return true;
    }

    /** An ability of 0 is none. */
    method SetAbilityBit(ability: nat) returns (outcome: Outcome)
      requires Valid()
      modifies this`native
      ensures Valid()
      ensures outcome == if ability != 0 && (ability == firstAbility || ability == secondAbility) then Success
                         else InvalidArgument
      ensures native == if outcome == Success then WithAbility(old(native), ability != firstAbility)
                        else old(native)
    {
      if ability == 0 {
        return InvalidArgument;
      } else if ability == firstAbility {
        native := native.(ivEggAbility := native.ivEggAbility[ABILITY_BIT := false]);
        FlagKeepsIvs(old(native.ivEggAbility), ABILITY_BIT, false);
      } else if ability == secondAbility {
        native := native.(ivEggAbility := native.ivEggAbility[ABILITY_BIT := true]);
        FlagKeepsIvs(old(native.ivEggAbility), ABILITY_BIT, true);
      } else {
        return InvalidArgument;
      }
      return Success;
    }

    /** The form stored in the species index is left alone. A refusal comes after the personality has
        been written. */
    method SetPersonality(personality: Word) returns (outcome: Outcome)
      requires Valid()
      modifies this`native, this`form
      ensures Valid() && nativeForm == old(nativeForm)
      ensures outcome == if firstAbility == 0 && (secondAbility == 0 || !personality[0]) then InvalidArgument
                         else Success
      ensures outcome == Success ==> FormAgrees()
      ensures native ==
              var written := old(native).(personality := personality);
              if outcome != Success then written
              else WithAbility(written, secondAbility != 0 && personality[0] && secondAbility != firstAbility)
      ensures outcome != Success || !isUnown ==> form == old(form)
      ensures isUnown ==>
                UnownState() == UnownForms.Apply(Setting(), old(UnownState()), UnownForms.SetPersonality(personality))
    {
      native := native.(personality := personality);
      if secondAbility != 0 && personality[0] {
        outcome := SetAbilityBit(secondAbility);
      } else {
        outcome := SetAbilityBit(firstAbility);
      }
      if outcome != Success {
        return;
      }
      if isUnown {
        SetUnownFormFromPersonality();
      }
    }

    /** Replaces the personality by what the search for one came up with, and leaves the form alone.
        `odd` is the ability slot that the search was told, which it looks up for itself. If it
        refuses its request, the ability bit has been written and the personality stays. */
    method SetAbility(ability: nat, generated: Option<Word>, odd: bool, gender: Gender) returns (outcome: Outcome)
      requires Valid() && (isUnown ==> gender.Genderless?)
      requires generated.Some? ==>
                 Admissible(generated.value, native.otId, Shiny(native.personality, native.otId),
                            Number(native.personality) % NATURES, odd, gender)
      modifies this`native
      ensures Valid() && nativeForm == old(nativeForm) && form == old(form)
      ensures var known := ability != 0 && (ability == firstAbility || ability == secondAbility);
              && outcome == (if known && generated.Some? then Success else InvalidArgument)
              && native == if !known then old(native)
                           else if generated.None? then WithAbility(old(native), ability != firstAbility)
                           else WithAbility(old(native), ability != firstAbility).(personality := generated.value)
      ensures Shiny(native.personality, native.otId) == old(Shiny(native.personality, native.otId))
      ensures Number(native.personality) % NATURES == old(Number(native.personality) % NATURES)
      ensures isUnown ==>
                var result := if outcome == Success then generated else None;
                UnownState() == UnownForms.Apply(Setting(), old(UnownState()), UnownForms.SetAbility(result))
    {
      outcome := SetAbilityBit(ability);
      if outcome != Success {
        return;
      }
      if generated.None? {
        return InvalidArgument;
      }
      native := native.(personality := generated.value);
    }

    // -------------------------------------------------------------- packed fields and their maps

    method SetIV(stat: Stat, value: int) returns (outcome: Outcome)
      requires Valid()
      modifies this`native, this`ivs
      ensures Valid()
      ensures outcome == if stat !in MODERN_STATS then InvalidArgument
                         else if 0 <= value <= 31 then Success
                         else OutOfRange
      ensures ivs == if outcome == Success then old(ivs)[stat := value] else old(ivs)
      ensures native == if outcome == Success then Apply(old(native), SetIv(stat, value)) else old(native)
    {
      if stat !in MODERN_STATS {
        return InvalidArgument;
      }
      if !(0 <= value <= 31) {
        return OutOfRange;
      }
      native := native.(ivEggAbility := Stored(native.ivEggAbility, IvAt(stat), IV_BITS, value));
      ivs := ivs[stat := value];
      StoredIv(old(native.ivEggAbility), stat, value);
      return Success;
    }

    method SetEV(stat: Stat, value: int) returns (outcome: Outcome)
      requires Valid()
      modifies this`native, this`evs
      ensures Valid()
      ensures outcome == if stat !in MODERN_STATS then InvalidArgument
                         else if 0 <= value <= 255 then Success
                         else OutOfRange
      ensures evs == if outcome == Success then old(evs)[stat := value] else old(evs)
      ensures native == if outcome == Success then old(native).(effort := WithEv(old(native.effort), stat, value))
                        else old(native)
    {
      if stat !in MODERN_STATS {
        return InvalidArgument;
      }
      if !(0 <= value <= 255) {
        return OutOfRange;
      }
      native := StoreEv(native, stat, value);
      evs := EvsOf(native.effort);
      return Success;
    }

    method SetContestStat(stat: ContestStat, value: int) returns (outcome: Outcome)
      requires Valid()
      modifies this`native, this`contestStats
      ensures Valid()
      ensures outcome == if stat !in GEN3_CONTEST_STATS then InvalidArgument
                         else if 0 <= value <= 255 then Success
                         else OutOfRange
      ensures contestStats == if outcome == Success then old(contestStats)[stat := value] else old(contestStats)
      ensures native == if outcome == Success
                        then old(native).(contest := WithContestStat(old(native.contest), stat, value))
                        else old(native)
    {
      if stat !in contestStats {
        return InvalidArgument;
      }
      if !(0 <= value <= 255) {
        return OutOfRange;
      }
      native := StoreContestStat(native, stat, value);
      contestStats := contestStats[stat := value];
      return Success;
    }

    method SetMarking(marking: Marking, value: bool) returns (outcome: Outcome)
      requires Valid()
      modifies this`native, this`markings
      ensures Valid()
      ensures outcome == if marking in GEN3_MARKINGS then Success else InvalidArgument
      ensures markings == if outcome == Success then old(markings)[marking := value] else old(markings)
      ensures native == if outcome == Success
                        then old(native).(markings := old(native.markings)[MarkingAt(marking) := value])
                        else old(native)
    {
      MarkingKeys(native.markings);
      if marking !in markings {
        return InvalidArgument;
      }
      native := StoreMarking(native, marking, value);
      markings := markings[marking := value];
      return Success;
    }

    /** A name that is no ribbon's is refused. */
    method SetRibbon(named: Option<Ribbon>, value: bool) returns (outcome: Outcome)
      requires Valid()
      modifies this`native, this`ribbons
      ensures Valid()
      ensures outcome == if named.None? then InvalidArgument else Success
      ensures native.ribbonsObedience ==
              match named
              case None => old(native.ribbonsObedience)
              case Some(ContestRibbon(contest, rank)) =>
                WithContestRibbon(old(native.ribbonsObedience), contest, rank, value)
              case Some(AwardRibbon(award)) => old(native.ribbonsObedience)[AwardAt(award) := value]
      ensures native == old(native).(ribbonsObedience := native.ribbonsObedience)
    {
      if named.None? {
        return InvalidArgument;
      }
      match named.value {
        case AwardRibbon(award) =>
          native := native.(ribbonsObedience := native.ribbonsObedience[AwardAt(award) := value]);
        case ContestRibbon(contest, rank) =>
          var word := StoreContestRibbon(native.ribbonsObedience, contest, rank, value);
          native := native.(ribbonsObedience := word);
      }
      ribbons := RibbonsOf(native.ribbonsObedience);
      return Success;
    }

    method SetMove(move: nat, index: int) returns (outcome: Outcome)
      requires Valid()
      modifies this`native, this`moveSlots
      ensures Valid()
      ensures outcome == if !(0 <= index < SLOTS) then OutOfRange
                         else if dex.known(move) then Success
                         else InvalidArgument
      ensures moveSlots == if outcome == Success then old(moveSlots)[index := MoveSlot(move, dex.pp(move, 0))]
                           else old(moveSlots)
      ensures native == if outcome == Success
                        then old(native).(moves := old(native.moves)[index := move],
                                          movePps := old(native.movePps)[index := dex.pp(move, 0)])
                        else old(native)
    {
      if !(0 <= index < SLOTS) {
        return OutOfRange;
      }
      if !dex.known(move) {
        return InvalidArgument;
      }
      moveSlots := moveSlots[index := MoveSlot(move, dex.pp(move, 0))];
      native := StoreMove(native, move, index, moveSlots[index].pp);
      return Success;
    }

    /** Sets the PP and the fewest PP Ups that allow them, in the two bits of this move alone. */
    method SetMovePP(index: int, pp: int) returns (outcome: Outcome)
      requires Valid()
      modifies this`native, this`moveSlots
      ensures Valid()
      ensures outcome == Success <==> 0 <= index < SLOTS && 0 <= pp <= dex.pp(old(moveSlots)[index].move, 3)
      ensures outcome == Success ==>
                var move := old(moveSlots)[index].move;
                && moveSlots == old(moveSlots)[index := MoveSlot(move, pp)]
                && native == old(native).(
                     movePps := old(native.movePps)[index := pp],
                     ppUp := Stored(old(native.ppUp), 2 * index, PP_UP_BITS, LeastUps(dex, move, pp)))
      ensures outcome != Success ==> native == old(native) && moveSlots == old(moveSlots) && outcome == OutOfRange
    {
      if !(0 <= index < SLOTS) {
        return OutOfRange;
      }
      var move := moveSlots[index].move;
      if !(0 <= pp <= dex.pp(move, 3)) {
        return OutOfRange;
      }
      moveSlots := moveSlots[index := MoveSlot(move, pp)];
      native := StorePp(native, dex, move, index, pp);
      return Success;
    }

    /** `female` is none for a gender that trainers do not have. */
    method SetOriginalTrainerGender(female: Option<bool>) returns (outcome: Outcome)
      requires Valid()
      modifies this`native
      ensures Valid() && outcome == if female.None? then InvalidArgument else Success
      ensures native == if female.None? then old(native) else Apply(old(native), SetOtFemale(female.value))
      ensures female.Some? ==> native.originInfo[OTGENDER_BIT] == female.value
    {
      if female.None? {
        return InvalidArgument;
      }
      native := native.(originInfo := native.originInfo[OTGENDER_BIT := female.value]);
      return Success;
    }

    method SetIsEgg(egg: bool)
      requires Valid()
      modifies this`native
      ensures Valid() && native == Apply(old(native), SetEgg(egg)) && native.ivEggAbility[EGG_BIT] == egg
    {
      native := native.(ivEggAbility := native.ivEggAbility[EGG_BIT := egg]);
      FlagKeepsIvs(old(native.ivEggAbility), EGG_BIT, egg);
    }

    /** The obedience flag shares its word with the ribbons. */
    method SetIsObedient(obedient: bool)
      requires Valid()
      modifies this`native
      ensures Valid() && native == Apply(old(native), SetObedient(obedient))
      ensures native.ribbonsObedience[OBEDIENCE_BIT] == obedient
    {
      FlagKeepsRibbons(native.ribbonsObedience, obedient);
      native := native.(ribbonsObedience := native.ribbonsObedience[OBEDIENCE_BIT := obedient]);
    }

    /** `gameIndex` is the native number of a Generation III game; other games have none here. */
    method SetOriginalGame(gameIndex: Option<nat>) returns (outcome: Outcome)
      requires Valid() && (gameIndex.Some? ==> gameIndex.value < 16)
      modifies this`native
      ensures Valid() && outcome == if gameIndex.None? then InvalidArgument else Success
      ensures native == if gameIndex.None? then old(native) else Apply(old(native), SetGame(gameIndex.value))
      ensures gameIndex.Some? ==> Field(native.originInfo, GAME_AT, GAME_BITS) == gameIndex.value
    {
      if gameIndex.None? {
        return InvalidArgument;
      }
      native := native.(originInfo :=
        Ored(WithoutField(native.originInfo, GAME_AT, GAME_BITS), GAME_AT, gameIndex.value));
      OriginIsRead(old(native.originInfo), GAME_AT, GAME_BITS, gameIndex.value);
      return Success;
    }

    /** The database has no ball above 12 in these games. */
    method SetBall(ball: nat) returns (outcome: Outcome)
      requires Valid()
      modifies this`native
      ensures Valid() && outcome == if ball <= 12 then Success else InvalidArgument
      ensures native == if outcome == Success then Apply(old(native), GbaLayout.SetBall(ball)) else old(native)
      ensures outcome == Success ==> Field(native.originInfo, BALL_AT, BALL_BITS) == ball
    {
      if ball > 12 {
        return InvalidArgument;
      }
      native := native.(originInfo := Ored(WithoutField(native.originInfo, BALL_AT, BALL_BITS), BALL_AT, ball));
      OriginIsRead(old(native.originInfo), BALL_AT, BALL_BITS, ball);
      return Success;
    }

    method SetLevelMet(level: int) returns (outcome: Outcome)
      requires Valid()
      modifies this`native
      ensures Valid() && outcome == if 0 <= level <= 100 then Success else OutOfRange
      ensures native == if outcome == Success then Apply(old(native), GbaLayout.SetLevelMet(level)) else old(native)
      ensures outcome == Success ==> Field(native.originInfo, LEVEL_MET_AT, LEVEL_MET_BITS) == level
    {
      if !(0 <= level <= 100) {
        return OutOfRange;
      }
      native := native.(originInfo :=
        Ored(WithoutField(native.originInfo, LEVEL_MET_AT, LEVEL_MET_BITS), LEVEL_MET_AT, level));
      OriginIsRead(old(native.originInfo), LEVEL_MET_AT, LEVEL_MET_BITS, level);
      return Success;
    }

    // -------------------------------------------------------------- default moves

    /** A move with its basic PP. */
    function FullMove(move: nat): MoveSlot {
      MoveSlot(move, dex.pp(move, 0))
    }

    method ClearMoves()
      requires Valid()
      modifies this`native, this`moveSlots
      ensures Valid()
      ensures forall slot: nat | slot < SLOTS :: moveSlots[slot] == FullMove(NO_MOVE)
      ensures native == old(native).(moves := native.moves, movePps := native.movePps)
    {
      var i := 0;
      while i < SLOTS
        invariant 0 <= i <= SLOTS && Valid()
        invariant native == old(native).(moves := native.moves, movePps := native.movePps)
        invariant forall slot: nat | slot < i :: moveSlots[slot] == FullMove(NO_MOVE)
      {
        var _ := SetMove(NO_MOVE, i);
        i := i + 1;
      }
    }

    /** Copies entries `first` to `last` into the slots, as far as they go. */
    method FillMoves(levelupMoves: seq<LevelupMove>, first: nat, last: nat)
      requires Valid()
      requires first <= last < |levelupMoves|
      requires forall i | 0 <= i < |levelupMoves| :: dex.known(levelupMoves[i].move)
      modifies this`native, this`moveSlots
      ensures Valid()
      ensures forall slot: nat | slot < SLOTS ::
                moveSlots[slot] == if first + slot <= last then FullMove(levelupMoves[first + slot].move)
                                   else old(moveSlots)[slot]
      ensures native == old(native).(moves := native.moves, movePps := native.movePps)
    {
      var i := 0;
      while i < SLOTS && first + i <= last
        invariant 0 <= i <= SLOTS && first + i <= last + 1 && Valid()
        invariant native == old(native).(moves := native.moves, movePps := native.movePps)
        invariant forall slot: nat | slot < i :: moveSlots[slot] == FullMove(levelupMoves[first + slot].move)
        invariant forall slot: nat | i <= slot < SLOTS :: moveSlots[slot] == old(moveSlots)[slot]
      {
        var _ := SetMove(levelupMoves[first + i].move, i);
        i := i + 1;
      }
    }

    method InitDefaultMoves(level: int, levelupMoves: seq<LevelupMove>)
      requires Valid()
      requires levelupMoves != [] ==> levelupMoves[0].level <= level
      requires forall i | 0 <= i < |levelupMoves| :: dex.known(levelupMoves[i].move)
      modifies this`native, this`moveSlots
      ensures Valid()
      ensures forall slot: nat | slot < SLOTS :: moveSlots[slot] == FullMove(DefaultMove(levelupMoves, level, slot))
      ensures native == old(native).(moves := native.moves, movePps := native.movePps)
    {
      ClearMoves();
      if levelupMoves == [] {
        return;
      }
      var first, last := DefaultWindow(level, levelupMoves);
      FillMoves(levelupMoves, first, last);
    }
  }
}
