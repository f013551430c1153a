/**
 The packed Game Boy Advance Pokémon and what its bits mean. `View` is the same data
 unpacked; every setter on the packed form has a plain update of the view as its meaning,
 and the theorem is that packing never gets in the way, over any run of setters.
 */
module GbaLayout {
  import opened Common
  import opened Words
  import opened BitFields

  // ---------------------------------------------------------------- names

  const MODERN_STATS: set<Stat> := {Hp, Attack, Defense, Speed, SpecialAttack, SpecialDefense}

  datatype Marking = Circle | Triangle | Square | Heart | Star | Diamond

  const GEN3_MARKINGS: set<Marking> := {Circle, Triangle, Square, Heart}

  datatype ContestStat = CoolStat | BeautyStat | CuteStat | SmartStat | ToughStat | Feel | Sheen

  const GEN3_CONTEST_STATS: set<ContestStat> := {CoolStat, BeautyStat, CuteStat, SmartStat, ToughStat, Feel}

  datatype Contest = Cool | Beauty | Cute | Smart | Tough

  datatype Rank = Normal | Super | Hyper | Master

  datatype Award =
    | Champion | Winning | Victory | Artist | Effort | Marine
    | Land | Sky | Country | National | Earth | World

  datatype Ribbon = ContestRibbon(contest: Contest, rank: Rank) | AwardRibbon(award: Award)

  function AllRibbons(): set<Ribbon> {
    (set c: Contest, r: Rank | true :: ContestRibbon(c, r)) + (set a: Award | true :: AwardRibbon(a))
  }

  // ---------------------------------------------------------------- bit positions

  function IvAt(stat: Stat): nat
    requires stat in MODERN_STATS
  {
    match stat
    case Hp => 0
    case Attack => 5
    case Defense => 10
    case Speed => 15
    case SpecialAttack => 20
    case SpecialDefense => 25
  }

  const IV_BITS := 5
  const EGG_BIT := 30
  const ABILITY_BIT := 31

  function ContestAt(contest: Contest): nat {
    match contest
    case Cool => 0
    case Beauty => 3
    case Cute => 6
    case Smart => 9
    case Tough => 12
  }

  const CONTEST_BITS := 3

  function AwardAt(award: Award): nat {
    match award
    case Champion => 15
    case Winning => 16
    case Victory => 17
    case Artist => 18
    case Effort => 19
    case Marine => 20
    case Land => 21
    case Sky => 22
    case Country => 23
    case National => 24
    case Earth => 25
    case World => 26
  }

  const OBEDIENCE_BIT := 31

  const LEVEL_MET_AT := 0
  const LEVEL_MET_BITS := 7
  const GAME_AT := 7
  const GAME_BITS := 4
  const BALL_AT := 11
  const BALL_BITS := 4
  const OTGENDER_BIT := 15

  function MarkingAt(marking: Marking): nat {
    match marking
    case Circle => 0
    case Triangle => 1
    case Square => 2
    case Heart => 3
    case Star => 4
    case Diamond => 5
  }

  const PP_UP_BITS := 2

  // ---------------------------------------------------------------- the packed structure

  type HalfWord = w: seq<bool> | |w| == 16 witness seq(16, _ => false)
  type Four = s: seq<nat> | |s| == 4 witness [0, 0, 0, 0]
  type PackedByte = w: seq<bool> | |w| == 8 witness seq(8, _ => false)

  datatype EffortBlock = EffortBlock(hp: Byte, atk: Byte, def: Byte, spd: Byte, spAtk: Byte, spDef: Byte)

  datatype ContestBlock = ContestBlock(cool: Byte, beauty: Byte, cute: Byte, smart: Byte, tough: Byte, feel: Byte)

  datatype Native = Native(
    personality: Word,
    otId: Word,
    ivEggAbility: Word,
    ribbonsObedience: Word,
    originInfo: HalfWord,
    markings: PackedByte,
    ppUp: PackedByte,
    effort: EffortBlock,
    contest: ContestBlock,
    moves: Four,
    movePps: Four)

  function IvsOf(w: Word): map<Stat, int> {
    map stat | stat in MODERN_STATS :: Field(w, IvAt(stat), IV_BITS)
  }

  function EvsOf(e: EffortBlock): map<Stat, int> {
    map[Hp := e.hp, Attack := e.atk, Defense := e.def, Speed := e.spd,
        SpecialAttack := e.spAtk, SpecialDefense := e.spDef]
  }

  function ContestStatsOf(c: ContestBlock): map<ContestStat, int> {
    map[CoolStat := c.cool, BeautyStat := c.beauty, CuteStat := c.cute,
        SmartStat := c.smart, ToughStat := c.tough, Feel := c.feel]
  }

  function MarkingsOf(w: PackedByte): map<Marking, bool> {
    map m | m in GEN3_MARKINGS :: w[MarkingAt(m)]
  }

  function LevelsOf(w: Word): map<Contest, nat> {
    map c: Contest | true :: Field(w, ContestAt(c), CONTEST_BITS)
  }

  function AwardsOf(w: Word): map<Award, bool> {
    map a: Award | true :: w[AwardAt(a)]
  }

  function RankNumber(rank: Rank): nat {
    match rank
    case Normal => 1
    case Super => 2
    case Hyper => 3
    case Master => 4
  }

  predicate Held(w: Word, ribbon: Ribbon) {
    match ribbon
    case ContestRibbon(c, rank) => Field(w, ContestAt(c), CONTEST_BITS) >= RankNumber(rank)
    case AwardRibbon(a) => w[AwardAt(a)]
  }

  function RibbonsOf(w: Word): map<Ribbon, bool> {
    map r | r in AllRibbons() :: Held(w, r)
  }

  function PpUpsOf(w: PackedByte): Four {
    [Field(w, 0, PP_UP_BITS), Field(w, 2, PP_UP_BITS), Field(w, 4, PP_UP_BITS), Field(w, 6, PP_UP_BITS)]
  }

  // ---------------------------------------------------------------- the view

  datatype View = View(
    personality: Word,
    ivs: map<Stat, int>, egg: bool, secondAbility: bool,
    levels: map<Contest, nat>, awards: map<Award, bool>, obedient: bool,
    levelMet: nat, game: nat, ball: nat, otFemale: bool,
    markings: map<Marking, bool>, ppUps: Four,
    evs: map<Stat, int>, contestStats: map<ContestStat, int>, moves: Four, movePps: Four)

  function ViewOf(n: Native): View {
    View(
      n.personality,
      IvsOf(n.ivEggAbility), n.ivEggAbility[EGG_BIT], n.ivEggAbility[ABILITY_BIT],
      LevelsOf(n.ribbonsObedience), AwardsOf(n.ribbonsObedience), n.ribbonsObedience[OBEDIENCE_BIT],
      Field(n.originInfo, LEVEL_MET_AT, LEVEL_MET_BITS), Field(n.originInfo, GAME_AT, GAME_BITS),
      Field(n.originInfo, BALL_AT, BALL_BITS), n.originInfo[OTGENDER_BIT],
      MarkingsOf(n.markings), PpUpsOf(n.ppUp),
      EvsOf(n.effort), ContestStatsOf(n.contest), n.moves, n.movePps)
  }

  function WithEv(e: EffortBlock, stat: Stat, value: Byte): EffortBlock
    requires stat in MODERN_STATS
  {
    match stat
    case Hp => e.(hp := value)
    case Attack => e.(atk := value)
    case Defense => e.(def := value)
    case Speed => e.(spd := value)
    case SpecialAttack => e.(spAtk := value)
    case SpecialDefense => e.(spDef := value)
  }

  function WithContestStat(c: ContestBlock, stat: ContestStat, value: Byte): ContestBlock
    requires stat in GEN3_CONTEST_STATS
  {
    match stat
    case CoolStat => c.(cool := value)
    case BeautyStat => c.(beauty := value)
    case CuteStat => c.(cute := value)
    case SmartStat => c.(smart := value)
    case ToughStat => c.(tough := value)
    case Feel => c.(feel := value)
  }

  function WithAbility(n: Native, second: bool): Native {
    n.(ivEggAbility := n.ivEggAbility[ABILITY_BIT := second])
  }

  /** The setters, with values that passed their checks. */
  datatype Op =
    | SetIv(stat: Stat, value: nat)
    | SetEgg(egg: bool)
    | SetSecondAbility(second: bool)
    | SetLevel(contest: Contest, level: nat)
    | SetAward(award: Award, held: bool)
    | SetObedient(obedient: bool)
    | SetLevelMet(levelMet: nat)
    | SetGame(game: nat)
    | SetBall(ball: nat)
    | SetOtFemale(female: bool)
    | SetMarking(marking: Marking, marked: bool)
    | SetMoveSlot(slot: nat, move: nat, pp: nat)
    | SetSlotPp(slot: nat, pp: nat, ups: nat)
    | SetEffort(stat: Stat, value: nat)
    | SetContest(contestStat: ContestStat, value: nat)
    | SetPersonalityWord(personality: Word)

  predicate Fits(op: Op) {
    match op
    case SetIv(stat, value) => stat in MODERN_STATS && value < 32
    case SetLevel(_, level) => level < 8
    case SetLevelMet(level) => level < 128
    case SetGame(game) => game < 16
    case SetBall(ball) => ball < 16
    case SetMarking(marking, _) => marking in GEN3_MARKINGS
    case SetMoveSlot(slot, _, _) => slot < 4
    case SetSlotPp(slot, _, ups) => slot < 4 && ups < 4
    case SetEffort(stat, value) => stat in MODERN_STATS && value < 0x100
    case SetContest(stat, value) => stat in GEN3_CONTEST_STATS && value < 0x100
    case _ => true
  }

  function Apply(n: Native, op: Op): Native
    requires Fits(op)
  {
    match op
    case SetIv(stat, value) => n.(ivEggAbility := Stored(n.ivEggAbility, IvAt(stat), IV_BITS, value))
    case SetEgg(egg) => n.(ivEggAbility := n.ivEggAbility[EGG_BIT := egg])
    case SetSecondAbility(second) => WithAbility(n, second)
    case SetLevel(c, level) => n.(ribbonsObedience := Stored(n.ribbonsObedience, ContestAt(c), CONTEST_BITS, level))
    case SetAward(a, held) => n.(ribbonsObedience := n.ribbonsObedience[AwardAt(a) := held])
    case SetObedient(obedient) => n.(ribbonsObedience := n.ribbonsObedience[OBEDIENCE_BIT := obedient])
    case SetLevelMet(level) => n.(originInfo := Stored(n.originInfo, LEVEL_MET_AT, LEVEL_MET_BITS, level))
    case SetGame(game) => n.(originInfo := Stored(n.originInfo, GAME_AT, GAME_BITS, game))
    case SetBall(ball) => n.(originInfo := Stored(n.originInfo, BALL_AT, BALL_BITS, ball))
    case SetOtFemale(female) => n.(originInfo := n.originInfo[OTGENDER_BIT := female])
    case SetMarking(m, marked) => n.(markings := n.markings[MarkingAt(m) := marked])
    case SetMoveSlot(slot, move, pp) => n.(moves := n.moves[slot := move], movePps := n.movePps[slot := pp])
    case SetSlotPp(slot, pp, ups) =>
      n.(movePps := n.movePps[slot := pp], ppUp := Stored(n.ppUp, 2 * slot, PP_UP_BITS, ups))
    case SetEffort(stat, value) => n.(effort := WithEv(n.effort, stat, value))
    case SetContest(stat, value) => n.(contest := WithContestStat(n.contest, stat, value))
    case SetPersonalityWord(personality) => n.(personality := personality)
  }

  function ApplyToView(v: View, op: Op): View
    requires Fits(op)
  {
    match op
    case SetIv(stat, value) => v.(ivs := v.ivs[stat := value])
    case SetEgg(egg) => v.(egg := egg)
    case SetSecondAbility(second) => v.(secondAbility := second)
    case SetLevel(c, level) => v.(levels := v.levels[c := level])
    case SetAward(a, held) => v.(awards := v.awards[a := held])
    case SetObedient(obedient) => v.(obedient := obedient)
    case SetLevelMet(level) => v.(levelMet := level)
    case SetGame(game) => v.(game := game)
    case SetBall(ball) => v.(ball := ball)
    case SetOtFemale(female) => v.(otFemale := female)
    case SetMarking(m, marked) => v.(markings := v.markings[m := marked])
    case SetMoveSlot(slot, move, pp) => v.(moves := v.moves[slot := move], movePps := v.movePps[slot := pp])
    case SetSlotPp(slot, pp, ups) => v.(movePps := v.movePps[slot := pp], ppUps := v.ppUps[slot := ups])
    case SetEffort(stat, value) => v.(evs := v.evs[stat := value])
    case SetContest(stat, value) => v.(contestStats := v.contestStats[stat := value])
    case SetPersonalityWord(personality) => v.(personality := personality)
  }

  lemma FlagKeepsField(w: seq<bool>, i: nat, flag: bool, at: nat, n: nat)
    requires i < |w| && at + n <= |w| && !(at <= i < at + n)
    ensures Field(w[i := flag], at, n) == Field(w, at, n)
  {
  }

  lemma StoredIvReads(w: Word, stat: Stat, value: nat, other: Stat)
    requires stat in MODERN_STATS && other in MODERN_STATS && value < 32
    ensures Field(Stored(w, IvAt(stat), IV_BITS, value), IvAt(other), IV_BITS) ==
            if other == stat then value else Field(w, IvAt(other), IV_BITS)
  {
    SmallLimits();
    if other == stat {
      StoredIsRead(w, IvAt(stat), IV_BITS, value);
    } else {
      StoredKeepsOthers(w, IvAt(stat), IV_BITS, value, IvAt(other), IV_BITS);
    }
  }

  lemma StoredIvMap(w: Word, stat: Stat, value: nat)
    requires stat in MODERN_STATS && value < 32
    ensures IvsOf(Stored(w, IvAt(stat), IV_BITS, value)) == IvsOf(w)[stat := value]
  {
    var w': Word := Stored(w, IvAt(stat), IV_BITS, value);
    forall other | other in MODERN_STATS ensures IvsOf(w')[other] == IvsOf(w)[stat := value][other] {
      StoredIvReads(w, stat, value, other);
    }
  }

  lemma StoredIv(w: Word, stat: Stat, value: nat)
    requires stat in MODERN_STATS && value < 32
    ensures var w' := Stored(w, IvAt(stat), IV_BITS, value);
            IvsOf(w') == IvsOf(w)[stat := value] && w'[EGG_BIT] == w[EGG_BIT] && w'[ABILITY_BIT] == w[ABILITY_BIT]
  {
    StoredIvMap(w, stat, value);
    SmallLimits();
    StoredElsewhere(w, IvAt(stat), IV_BITS, value, EGG_BIT);
    StoredElsewhere(w, IvAt(stat), IV_BITS, value, ABILITY_BIT);
  }

  lemma FlagKeepsIvs(w: Word, i: nat, flag: bool)
    requires 30 <= i < 32
    ensures IvsOf(w[i := flag]) == IvsOf(w)
  {
  }

  lemma StoredLevel(w: Word, contest: Contest, level: nat, c: Contest)
    requires level < 8
    ensures Field(Stored(w, ContestAt(contest), CONTEST_BITS, level), ContestAt(c), CONTEST_BITS) ==
            if c == contest then level else Field(w, ContestAt(c), CONTEST_BITS)
  {
    SmallLimits();
    if c == contest {
      StoredIsRead(w, ContestAt(contest), CONTEST_BITS, level);
    } else {
      StoredKeepsOthers(w, ContestAt(contest), CONTEST_BITS, level, ContestAt(c), CONTEST_BITS);
    }
  }

  lemma StoredLevelKeepsFlag(w: Word, contest: Contest, level: nat, i: nat)
    requires level < 8 && 15 <= i < 32
    ensures Stored(w, ContestAt(contest), CONTEST_BITS, level)[i] == w[i]
  {
    SmallLimits();
    StoredElsewhere(w, ContestAt(contest), CONTEST_BITS, level, i);
  }

  lemma FlagKeepsLevels(w: Word, i: nat, flag: bool)
    requires 15 <= i < 32
    ensures LevelsOf(w[i := flag]) == LevelsOf(w)
  {
  }

  lemma StoredOrigin(w: HalfWord, at: nat, n: nat, value: nat)
    requires (at, n) in {(LEVEL_MET_AT, LEVEL_MET_BITS), (GAME_AT, GAME_BITS), (BALL_AT, BALL_BITS)}
    requires value < Limit(n)
    ensures var w' := Stored(w, at, n, value);
            && Field(w', at, n) == value && w'[OTGENDER_BIT] == w[OTGENDER_BIT]
            && (at != LEVEL_MET_AT ==>
                  Field(w', LEVEL_MET_AT, LEVEL_MET_BITS) == Field(w, LEVEL_MET_AT, LEVEL_MET_BITS))
            && (at != GAME_AT ==> Field(w', GAME_AT, GAME_BITS) == Field(w, GAME_AT, GAME_BITS))
            && (at != BALL_AT ==> Field(w', BALL_AT, BALL_BITS) == Field(w, BALL_AT, BALL_BITS))
  {
    StoredIsRead(w, at, n, value);
    StoredElsewhere(w, at, n, value, OTGENDER_BIT);
    if at != LEVEL_MET_AT { StoredKeepsOthers(w, at, n, value, LEVEL_MET_AT, LEVEL_MET_BITS); }
    if at != GAME_AT { StoredKeepsOthers(w, at, n, value, GAME_AT, GAME_BITS); }
    if at != BALL_AT { StoredKeepsOthers(w, at, n, value, BALL_AT, BALL_BITS); }
  }

  lemma StoredPpUps(w: PackedByte, slot: nat, ups: nat)
    requires slot < 4 && ups < 4
    ensures PpUpsOf(Stored(w, 2 * slot, PP_UP_BITS, ups)) == PpUpsOf(w)[slot := ups]
  {
    var w': PackedByte := Stored(w, 2 * slot, PP_UP_BITS, ups);
    forall k: nat | k < 4
      ensures Field(w', 2 * k, PP_UP_BITS) == if k == slot then ups else Field(w, 2 * k, PP_UP_BITS)
    {
      if k == slot {
        StoredIsRead(w, 2 * slot, PP_UP_BITS, ups);
      } else {
        StoredKeepsOthers(w, 2 * slot, PP_UP_BITS, ups, 2 * k, PP_UP_BITS);
      }
    }
    assert Field(w', 2 * 0, 2) == PpUpsOf(w')[0] && Field(w', 2 * 1, 2) == PpUpsOf(w')[1]
           && Field(w', 2 * 2, 2) == PpUpsOf(w')[2] && Field(w', 2 * 3, 2) == PpUpsOf(w')[3];
  }

  lemma StoredEv(e: EffortBlock, stat: Stat, value: Byte)
    requires stat in MODERN_STATS
    ensures EvsOf(WithEv(e, stat, value)) == EvsOf(e)[stat := value]
  {
  }

  /** Each stat goes to the field of its name. */
  lemma EvNames(e: EffortBlock, v: Byte)
    ensures WithEv(e, Hp, v) == e.(hp := v) && WithEv(e, Attack, v) == e.(atk := v)
            && WithEv(e, Defense, v) == e.(def := v) && WithEv(e, Speed, v) == e.(spd := v)
            && WithEv(e, SpecialAttack, v) == e.(spAtk := v) && WithEv(e, SpecialDefense, v) == e.(spDef := v)
  {
  }

  lemma ContestStatNames(c: ContestBlock, v: Byte)
    ensures WithContestStat(c, CoolStat, v) == c.(cool := v) && WithContestStat(c, BeautyStat, v) == c.(beauty := v)
            && WithContestStat(c, CuteStat, v) == c.(cute := v) && WithContestStat(c, SmartStat, v) == c.(smart := v)
            && WithContestStat(c, ToughStat, v) == c.(tough := v) && WithContestStat(c, Feel, v) == c.(feel := v)
  {
  }

  lemma StoredContestStat(c: ContestBlock, stat: ContestStat, value: Byte)
    requires stat in GEN3_CONTEST_STATS
    ensures ContestStatsOf(WithContestStat(c, stat, value)) == ContestStatsOf(c)[stat := value]
  {
  }

  lemma IvSetterRefines(n: Native, op: Op)
    requires Fits(op) && (op.SetIv? || op.SetEgg? || op.SetSecondAbility?)
    ensures ViewOf(Apply(n, op)) == ApplyToView(ViewOf(n), op)
  {
    match op
    case SetIv(stat, value) => StoredIv(n.ivEggAbility, stat, value);
    case SetEgg(egg) => FlagKeepsIvs(n.ivEggAbility, EGG_BIT, egg);
    case SetSecondAbility(second) => FlagKeepsIvs(n.ivEggAbility, ABILITY_BIT, second);
  }

  lemma AwardsDiffer(a: Award, b: Award)
    requires a != b
    ensures AwardAt(a) != AwardAt(b)
  {
  }

  lemma LevelsAfterLevel(w: Word, contest: Contest, level: nat)
    requires level < 8
    ensures LevelsOf(Stored(w, ContestAt(contest), CONTEST_BITS, level)) == LevelsOf(w)[contest := level]
  {
    forall c: Contest
      ensures LevelsOf(Stored(w, ContestAt(contest), CONTEST_BITS, level))[c] == LevelsOf(w)[contest := level][c]
    {
      StoredLevel(w, contest, level, c);
    }
  }

  lemma AwardAfterLevel(w: Word, contest: Contest, level: nat, a: Award)
    requires level < 8
    ensures Stored(w, ContestAt(contest), CONTEST_BITS, level)[AwardAt(a)] == w[AwardAt(a)]
  {
    StoredLevelKeepsFlag(w, contest, level, AwardAt(a));
  }

  lemma AwardsAfterLevel(w: Word, contest: Contest, level: nat)
    requires level < 8
    ensures AwardsOf(Stored(w, ContestAt(contest), CONTEST_BITS, level)) == AwardsOf(w)
  {
    forall a: Award
      ensures AwardsOf(Stored(w, ContestAt(contest), CONTEST_BITS, level))[a] == AwardsOf(w)[a]
    {
      AwardAfterLevel(w, contest, level, a);
    }
  }

  lemma AwardAfterAward(w: Word, award: Award, held: bool, a: Award)
    ensures w[AwardAt(award) := held][AwardAt(a)] == if a == award then held else w[AwardAt(a)]
  {
    if a != award {
      AwardsDiffer(a, award);
    }
  }

  lemma AwardsAfterAward(w: Word, award: Award, held: bool)
    ensures AwardsOf(w[AwardAt(award) := held]) == AwardsOf(w)[award := held]
  {
    var before, after := AwardsOf(w), AwardsOf(w[AwardAt(award) := held]);
    forall a: Award ensures after[a] == before[award := held][a] {
      AwardAfterAward(w, award, held, a);
    }
    assert after.Keys == before[award := held].Keys;
  }

  lemma MarkingsAfterMarking(w: PackedByte, marking: Marking, marked: bool)
    requires marking in GEN3_MARKINGS
    ensures MarkingsOf(w[MarkingAt(marking) := marked]) == MarkingsOf(w)[marking := marked]
  {
  }

  lemma RibbonSetterRefines(n: Native, op: Op)
    requires Fits(op) && (op.SetLevel? || op.SetAward?)
    ensures ViewOf(Apply(n, op)) == ApplyToView(ViewOf(n), op)
  {
    match op
    case SetLevel(contest, level) =>
      LevelsAfterLevel(n.ribbonsObedience, contest, level);
      AwardsAfterLevel(n.ribbonsObedience, contest, level);
      StoredLevelKeepsFlag(n.ribbonsObedience, contest, level, OBEDIENCE_BIT);
    case SetAward(award, held) =>
      FlagKeepsLevels(n.ribbonsObedience, AwardAt(award), held);
      AwardsAfterAward(n.ribbonsObedience, award, held);
  }

  lemma FlagKeepsRibbon(w: Word, obedient: bool, r: Ribbon)
    ensures Held(w[OBEDIENCE_BIT := obedient], r) == Held(w, r)
  {
  }

  lemma FlagKeepsRibbons(w: Word, obedient: bool)
    ensures RibbonsOf(w[OBEDIENCE_BIT := obedient]) == RibbonsOf(w)
  {
    forall r | r in AllRibbons() ensures Held(w[OBEDIENCE_BIT := obedient], r) == Held(w, r) {
      FlagKeepsRibbon(w, obedient, r);
    }
  }

  lemma ObedienceSetterRefines(n: Native, obedient: bool)
    ensures ViewOf(Apply(n, SetObedient(obedient))) == ApplyToView(ViewOf(n), SetObedient(obedient))
  {
    FlagKeepsLevels(n.ribbonsObedience, OBEDIENCE_BIT, obedient);
    assert AwardsOf(n.ribbonsObedience[OBEDIENCE_BIT := obedient]) == AwardsOf(n.ribbonsObedience);
  }

  lemma OriginSetterRefines(n: Native, op: Op)
    requires Fits(op) && (op.SetLevelMet? || op.SetGame? || op.SetBall? || op.SetOtFemale?)
    ensures ViewOf(Apply(n, op)) == ApplyToView(ViewOf(n), op)
  {
    SmallLimits();
    match op
    case SetLevelMet(level) => StoredOrigin(n.originInfo, LEVEL_MET_AT, LEVEL_MET_BITS, level);
    case SetGame(game) => StoredOrigin(n.originInfo, GAME_AT, GAME_BITS, game);
    case SetBall(ball) => StoredOrigin(n.originInfo, BALL_AT, BALL_BITS, ball);
    case SetOtFemale(female) =>
      FlagKeepsField(n.originInfo, OTGENDER_BIT, female, LEVEL_MET_AT, LEVEL_MET_BITS);
      FlagKeepsField(n.originInfo, OTGENDER_BIT, female, GAME_AT, GAME_BITS);
      FlagKeepsField(n.originInfo, OTGENDER_BIT, female, BALL_AT, BALL_BITS);
  }

  lemma MarkingSetterRefines(n: Native, marking: Marking, marked: bool)
    requires marking in GEN3_MARKINGS
    ensures ViewOf(Apply(n, SetMarking(marking, marked))) == ApplyToView(ViewOf(n), SetMarking(marking, marked))
  {
    MarkingsAfterMarking(n.markings, marking, marked);
  }

  /** A setter on the packed form does to the view what the plain update does: it changes its own
      field and no other. */
  lemma SetterRefinesView(n: Native, op: Op)
    requires Fits(op)
    ensures ViewOf(Apply(n, op)) == ApplyToView(ViewOf(n), op)
  {
    match op
    case SetLevel(_, _) => RibbonSetterRefines(n, op);
    case SetAward(_, _) => RibbonSetterRefines(n, op);
    case SetObedient(obedient) => ObedienceSetterRefines(n, obedient);
    case SetMarking(marking, marked) => MarkingSetterRefines(n, marking, marked);
    case SetSlotPp(slot, _, ups) => StoredPpUps(n.ppUp, slot, ups);
    case SetMoveSlot(_, _, _) =>
    case SetEffort(stat, value) => StoredEv(n.effort, stat, value);
    case SetContest(stat, value) => StoredContestStat(n.contest, stat, value);
    case SetPersonalityWord(_) =>
    case SetIv(_, _) => IvSetterRefines(n, op);
    case SetEgg(_) => IvSetterRefines(n, op);
    case SetSecondAbility(_) => IvSetterRefines(n, op);
    case SetLevelMet(_) => OriginSetterRefines(n, op);
    case SetGame(_) => OriginSetterRefines(n, op);
    case SetBall(_) => OriginSetterRefines(n, op);
    case SetOtFemale(_) => OriginSetterRefines(n, op);
  }

  function Run(n: Native, ops: seq<Op>): Native
    requires forall i | 0 <= i < |ops| :: Fits(ops[i])
    decreases |ops|
  {
    if ops == [] then n else Run(Apply(n, ops[0]), ops[1..])
  }

  function RunOnView(v: View, ops: seq<Op>): View
    requires forall i | 0 <= i < |ops| :: Fits(ops[i])
    decreases |ops|
  {
    if ops == [] then v else RunOnView(ApplyToView(v, ops[0]), ops[1..])
  }

  /** After any run of setters the packed form reads as the unpacked record would. */
  lemma {:induction false} RunRefinesView(n: Native, ops: seq<Op>)
    requires forall i | 0 <= i < |ops| :: Fits(ops[i])
    ensures ViewOf(Run(n, ops)) == RunOnView(ViewOf(n), ops)
    decreases |ops|
  {
    if ops == [] {
    } else {
      SetterRefinesView(n, ops[0]);
      RunRefinesView(Apply(n, ops[0]), ops[1..]);
    }
  }

  // ---------------------------------------------------------------- the contest ladder

  /** The level of a contest is how many of its ribbons are held, from the normal one upwards. */
  lemma LevelIs(w: Word, contest: Contest)
    ensures var level := Field(w, ContestAt(contest), CONTEST_BITS);
            && (Held(w, ContestRibbon(contest, Normal)) <==> level >= 1)
            && (Held(w, ContestRibbon(contest, Super)) <==> level >= 2)
            && (Held(w, ContestRibbon(contest, Hyper)) <==> level >= 3)
            && (Held(w, ContestRibbon(contest, Master)) <==> level >= 4)
  {
  }

  /** The level that the name of a contest ribbon stands for: the lowest one has no suffix. */
  function NamedLevel(rank: Rank): nat {
    if rank == Normal then 0 else RankNumber(rank)
  }

  /** Giving a ribbon raises the level to it, taking it away lowers the level below it. */
  function LadderLevel(current: nat, rank: Rank, value: bool): nat {
    var level := NamedLevel(rank);
    if value then
      var least := if level == 0 then level + 1 else level;
      if least < current then current else least
    else
      var most := if level > 0 then level - 1 else level;
      if most > current then current else most
  }

  function WithContestRibbon(w: Word, contest: Contest, rank: Rank, value: bool): (w': Word)
  {
    var current := Field(w, ContestAt(contest), CONTEST_BITS);
    Stored(w, ContestAt(contest), CONTEST_BITS, LadderLevel(current, rank, value))
  }

  lemma LevelFits(w: Word, contest: Contest, rank: Rank, value: bool)
    ensures LadderLevel(Field(w, ContestAt(contest), CONTEST_BITS), rank, value) < 8
  {
    BitsOfNumber(w[ContestAt(contest)..ContestAt(contest) + CONTEST_BITS]);
    SmallLimits();
  }

  /** Granting rank k leaves the old ribbons of the contest and all ranks up to k; revoking it
      leaves the old ribbons below k. Every other ribbon stays as it was. */
  lemma LadderLaw(w: Word, contest: Contest, rank: Rank, value: bool, ribbon: Ribbon)
    ensures Held(WithContestRibbon(w, contest, rank, value), ribbon) <==>
            if ribbon.ContestRibbon? && ribbon.contest == contest then
              if value then Held(w, ribbon) || RankNumber(ribbon.rank) <= RankNumber(rank)
              else Held(w, ribbon) && RankNumber(ribbon.rank) < RankNumber(rank)
            else Held(w, ribbon)
  {
    var level := LadderLevel(Field(w, ContestAt(contest), CONTEST_BITS), rank, value);
    LevelFits(w, contest, rank, value);
    match ribbon
    case ContestRibbon(c, _) => StoredLevel(w, contest, level, c);
    case AwardRibbon(a) => AwardAfterLevel(w, contest, level, a);
  }

  /** The ribbons held in one contest are downward closed, whatever the word holds. */
  lemma LadderIsClosed(w: Word, contest: Contest, lower: Rank, higher: Rank)
    requires RankNumber(lower) <= RankNumber(higher) && Held(w, ContestRibbon(contest, higher))
    ensures Held(w, ContestRibbon(contest, lower))
  {
  }

  /** Taking back a ribbon that was just given restores the word exactly when the contest's level
      was one below it. */
  lemma RevokeUndoesGrantIff(w: Word, contest: Contest, rank: Rank)
    ensures WithContestRibbon(WithContestRibbon(w, contest, rank, true), contest, rank, false) == w
            <==> Field(w, ContestAt(contest), CONTEST_BITS) == RankNumber(rank) - 1
  {
    var at, n := ContestAt(contest), CONTEST_BITS;
    var current := Field(w, at, n);
    var granted := LadderLevel(current, rank, true);
    var w' := WithContestRibbon(w, contest, rank, true);
    LevelFits(w, contest, rank, true);
    LevelFits(w', contest, rank, false);
    SmallLimits();
    StoredIsRead(w, at, n, granted);
    StoredIsRead(w', at, n, LadderLevel(granted, rank, false));
    if current == RankNumber(rank) - 1 {
      StoredTwice(w, at, n, granted, current);
      StoredBack(w, at, n);
    }
  }

  lemma StoredTwice(w: seq<bool>, at: nat, n: nat, first: nat, second: nat)
    requires at + n <= |w| && first < Limit(n) && second < Limit(n)
    ensures Stored(Stored(w, at, n, first), at, n, second) == Stored(w, at, n, second)
  {
    forall i | 0 <= i < |w|
      ensures Stored(Stored(w, at, n, first), at, n, second)[i] == Stored(w, at, n, second)[i]
    {
      if !(at <= i < at + n) {
        StoredElsewhere(w, at, n, first, i);
        StoredElsewhere(w, at, n, second, i);
        StoredElsewhere(Stored(w, at, n, first), at, n, second, i);
      }
    }
  }
}
