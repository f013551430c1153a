/**
 A Generation III Unown over a run of calls: the personality, the form shown, and the form that
 its species index stands for. The three are meant to agree. The setters keep the first two
 together, but only `set_form` writes the index, and a copy is made from the index.
 */
module UnownForms {
  import opened Common
  import opened Words
  import opened BitFields
  import opened Shininess
  import opened UnownBits
  import opened Personalities

  datatype Unown = Unown(personality: Word, form: string, nativeForm: string)

  /** What the calls do not change. An ability of 0 is none. */
  datatype Setting = Setting(trainer: Word, firstAbility: nat, secondAbility: nat)

  /** `set_ability` replaces the personality by a generated one, or is refused. */
  datatype Op =
    | SetForm(name: string)
    | SetPersonality(personality: Word)
    | SetShininess(shiny: bool)
    | SetAbility(generated: Option<Word>)

  const STANDARD_FORM := "A"

  /** Without an ability to set, `set_personality` throws after it has written the personality. */
  predicate Throws(c: Setting, personality: Word) {
    c.firstAbility == 0 && (c.secondAbility == 0 || !personality[0])
  }

  function NamedForm(name: string): string {
    if name == "" then STANDARD_FORM else name
  }

  predicate Accepted(name: string) {
    name == "" || IsFormName(name)
  }

  function ShininessSet(c: Setting, personality: Word, shiny: bool): Word {
    if shiny then MadeShiny(personality, c.trainer) else Cleared(personality, c.trainer)
  }

  function Shown(personality: Word): string {
    [DecodedForm(personality)]
  }

  function Apply(c: Setting, u: Unown, op: Op): Unown {
    match op
    case SetForm(name) =>
      if !Accepted(name) then u
      else Unown(Written(u.personality, NumberOf(NamedForm(name)[0]), 4), NamedForm(name), NamedForm(name))
    case SetPersonality(p) =>
      if Throws(c, p) then u.(personality := p) else u.(personality := p, form := Shown(p))
    case SetShininess(shiny) =>
      var p := ShininessSet(c, u.personality, shiny);
      u.(personality := p, form := Shown(p))
    case SetAbility(generated) =>
      if generated.None? then u else u.(personality := generated.value)
  }

  function Run(c: Setting, u: Unown, ops: seq<Op>): Unown {
    if ops == [] then u else Apply(c, Run(c, u, ops[..|ops| - 1]), ops[|ops| - 1])
  }

  /** The form shown is the one that the personality encodes. */
  predicate Agrees(u: Unown) {
    u.form == Shown(u.personality)
  }

  /** The form shown is the one stored. */
  predicate IndexAgrees(u: Unown) {
    u.form == u.nativeForm
  }

  // ---------------------------------------------------------------- form and personality

  /** The calls that leave the form in step with the personality. */
  predicate Refreshes(c: Setting, op: Op) {
    match op
    case SetForm(name) => Accepted(name)
    case SetPersonality(p) => !Throws(c, p)
    case SetShininess(_) => true
    case SetAbility(_) => false
  }

  /** The personality left by a call that writes it and not the form. */
  function Leaves(c: Setting, op: Op): Option<Word> {
    match op
    case SetPersonality(p) => if Throws(c, p) then Some(p) else None
    case SetAbility(generated) => generated
    case _ => None
  }

  /** The last call of a run that touches the personality. */
  function LastTouch(c: Setting, ops: seq<Op>): (last: Option<Op>)
    ensures last.Some? ==> Refreshes(c, last.value) || Leaves(c, last.value).Some?
  {
    if ops == [] then None
    else if Refreshes(c, ops[|ops| - 1]) || Leaves(c, ops[|ops| - 1]).Some? then Some(ops[|ops| - 1])
    else LastTouch(c, ops[..|ops| - 1])
  }

  lemma RefreshAgrees(c: Setting, u: Unown, op: Op)
    requires Refreshes(c, op)
    ensures Agrees(Apply(c, u, op))
  {
    if op.SetForm? {
      FormRoundTrip(u.personality, NamedForm(op.name)[0]);
    }
  }

  lemma {:induction false} LastTouchDecides(c: Setting, u: Unown, ops: seq<Op>)
    ensures Agrees(Run(c, u, ops)) <==>
            match LastTouch(c, ops)
            case None => Agrees(u)
            case Some(op) => Refreshes(c, op) || Run(c, u, ops).form == Shown(Leaves(c, op).value)
  {
    if ops == [] {
    } else {
      var front, op := ops[..|ops| - 1], ops[|ops| - 1];
      if Refreshes(c, op) {
        RefreshAgrees(c, Run(c, u, front), op);
      } else if Leaves(c, op).None? {
        LastTouchDecides(c, u, front);
      }
    }
  }

  /** With an ability to set, as Unown has, the three setters alone always keep them together. */
  lemma {:induction false} SettersKeepAgreement(c: Setting, u: Unown, ops: seq<Op>)
    requires c.firstAbility != 0 && Agrees(u)
    requires forall i | 0 <= i < |ops| :: !ops[i].SetAbility?
    ensures Agrees(Run(c, u, ops))
  {
    if ops == [] {
    } else {
      var front, op := ops[..|ops| - 1], ops[|ops| - 1];
      SettersKeepAgreement(c, u, front);
      if Refreshes(c, op) {
        RefreshAgrees(c, Run(c, u, front), op);
      }
    }
  }

  // ---------------------------------------------------------------- the stored form

  /** The form named by the last `set_form` that was accepted. */
  function LastNamed(ops: seq<Op>, start: string): string {
    if ops == [] then start
    else
      var op := ops[|ops| - 1];
      if op.SetForm? && Accepted(op.name) then NamedForm(op.name) else LastNamed(ops[..|ops| - 1], start)
  }

  /** How many calls there are up to the last that wrote the form. */
  function UpToRefresh(c: Setting, ops: seq<Op>): (n: nat)
    ensures n <= |ops|
    ensures n > 0 ==> Refreshes(c, ops[n - 1])
  {
    if ops == [] then 0
    else if Refreshes(c, ops[|ops| - 1]) then |ops|
    else UpToRefresh(c, ops[..|ops| - 1])
  }

  /** The form shown after a run is that of the last refresh; the form stored is the last one named. */
  lemma {:induction false} RunShowsAndStores(c: Setting, u: Unown, ops: seq<Op>)
    ensures Run(c, u, ops).nativeForm == LastNamed(ops, u.nativeForm)
    ensures var n := UpToRefresh(c, ops);
            Run(c, u, ops).form == if n == 0 then u.form else Run(c, u, ops[..n]).form
  {
    if ops == [] {
    } else {
      var front, op := ops[..|ops| - 1], ops[|ops| - 1];
      RunShowsAndStores(c, u, front);
      if Refreshes(c, op) {
        assert ops[..|ops|] == ops;
      } else {
        var n := UpToRefresh(c, front);
        assert ops[..n] == front[..n];
      }
    }
  }

  /** Whether the last refresh of a run leaves the form shown equal to the form last named: always
      if it was `set_form`; otherwise if the personality it left encodes that form. */
  predicate LastRefreshStores(c: Setting, u: Unown, ops: seq<Op>) {
    var n := UpToRefresh(c, ops);
    if n == 0 then IndexAgrees(u)
    else ops[n - 1].SetForm? || Shown(PersonalityAt(c, u, ops, n)) == LastNamed(ops, u.nativeForm)
  }

  /** The personality after the first `n` calls, which for `set_personality` is the one it was given. */
  function PersonalityAt(c: Setting, u: Unown, ops: seq<Op>, n: nat): Word
    requires 0 < n <= |ops|
  {
    match ops[n - 1]
    case SetPersonality(p) => p
    case _ => Run(c, u, ops[..n]).personality
  }

  lemma RefreshShows(c: Setting, u: Unown, ops: seq<Op>, n: nat)
    requires 0 < n <= |ops| && Refreshes(c, ops[n - 1])
    ensures Run(c, u, ops[..n]).form ==
            match ops[n - 1]
            case SetForm(name) => NamedForm(name)
            case _ => Shown(PersonalityAt(c, u, ops, n))
  {
    assert ops[..n][..n - 1] == ops[..n - 1];
  }

  /** The form shown after a run: the one before it, the one last named, or the one that the
      personality encoded at the last refresh. */
  function FormAfter(c: Setting, u: Unown, ops: seq<Op>): string {
    var n := UpToRefresh(c, ops);
    if n == 0 then u.form
    else if ops[n - 1].SetForm? then LastNamed(ops, u.nativeForm)
    else Shown(PersonalityAt(c, u, ops, n))
  }

  lemma FormAfterRun(c: Setting, u: Unown, ops: seq<Op>)
    ensures Run(c, u, ops).form == FormAfter(c, u, ops)
  {
    var n := UpToRefresh(c, ops);
    RunShowsAndStores(c, u, ops);
    if n > 0 {
      RefreshShows(c, u, ops, n);
      if ops[n - 1].SetForm? {
        LastNamedIs(c, ops, u.nativeForm, n);
      }
    }
  }

  /** After any run, form and personality agree exactly when the last call that touched the
      personality was one of the three form-aware setters; or when the personality that another call
      left encodes the form named or encoded at the last refresh. */
  lemma RunAgreesIff(c: Setting, u: Unown, ops: seq<Op>)
    ensures Agrees(Run(c, u, ops)) <==>
            match LastTouch(c, ops)
            case None => Agrees(u)
            case Some(op) => Refreshes(c, op) || Shown(Leaves(c, op).value) == FormAfter(c, u, ops)
  {
    LastTouchDecides(c, u, ops);
    FormAfterRun(c, u, ops);
  }

  lemma {:induction false} WithoutRefreshNothingIsNamed(c: Setting, ops: seq<Op>, start: string)
    requires UpToRefresh(c, ops) == 0
    ensures LastNamed(ops, start) == start
  {
    if ops == [] {
    } else {
      WithoutRefreshNothingIsNamed(c, ops[..|ops| - 1], start);
    }
  }

  /** After any run, the stored form is the one shown exactly as the last refresh decides; and just
      then a copy made from the native data shows the same form. */
  lemma RunStoresIff(c: Setting, u: Unown, ops: seq<Op>)
    requires IsFormName(u.nativeForm)
    ensures IndexAgrees(Run(c, u, ops)) <==> LastRefreshStores(c, u, ops)
    ensures IsFormName(Run(c, u, ops).nativeForm)
    ensures Reloaded(Run(c, u, ops)).form == Run(c, u, ops).form <==> LastRefreshStores(c, u, ops)
  {
    RunShowsAndStores(c, u, ops);
    FormAfterRun(c, u, ops);
    NamedIsForm(ops, u.nativeForm);
    if UpToRefresh(c, ops) == 0 {
      WithoutRefreshNothingIsNamed(c, ops, u.nativeForm);
    }
  }

  lemma {:induction false} NamedIsForm(ops: seq<Op>, start: string)
    requires IsFormName(start)
    ensures IsFormName(LastNamed(ops, start))
  {
    if ops == [] {
    } else {
      NamedIsForm(ops[..|ops| - 1], start);
    }
  }

  lemma {:induction false} LastNamedIs(c: Setting, ops: seq<Op>, start: string, n: nat)
    requires n == UpToRefresh(c, ops) && n > 0 && ops[n - 1].SetForm?
    ensures LastNamed(ops, start) == NamedForm(ops[n - 1].name)
  {
    if n == |ops| {
    } else {
      LastNamedIs(c, ops[..|ops| - 1], start, n);
    }
  }

  // ---------------------------------------------------------------- one call on a consistent Unown

  /** From a consistent Unown, the calls that leave the stored form right. `set_shininess` does so
      exactly when it has nothing to change in the columns that hold form bits. */
  lemma StepStoresIff(c: Setting, u: Unown, op: Op)
    requires Agrees(u) && IndexAgrees(u)
    ensures IndexAgrees(Apply(c, u, op)) <==>
            match op
            case SetForm(_) => true
            case SetPersonality(p) => Throws(c, p) || Shown(p) == u.form
            case SetShininess(shiny) => ShininessKeepsForm(c, u.personality, shiny)
            case SetAbility(_) => true
  {
    if op.SetShininess? {
      ShininessKeepsFormIff(c, u.personality, op.shiny);
    }
  }

  predicate ShininessKeepsForm(c: Setting, p: Word, shiny: bool) {
    if shiny then Ones(p, c.trainer, 8) % 2 == 0 && Ones(p, c.trainer, 9) % 2 == 0
    else Ones(p, c.trainer, 0) % 2 == 1
  }

  lemma FormWithTwoBits(p: Word, q: Word)
    requires p[0] == q[0] && p[1] == q[1]
    requires p[16] == q[16] && p[17] == q[17] && p[24] == q[24] && p[25] == q[25]
    ensures DecodedForm(p) == DecodedForm(q) <==> p[8] == q[8] && p[9] == q[9]
  {
    SameFormIff(p, q);
    CodeInBits(p);
    CodeInBits(q);
    TwoBitsMoveForm(Code(p), p[8], p[9], q[8], q[9]);
  }

  lemma FormWithOneBit(p: Word, q: Word)
    requires p[1] == q[1] && p[8] == q[8] && p[9] == q[9]
    requires p[16] == q[16] && p[17] == q[17] && p[24] == q[24] && p[25] == q[25]
    ensures DecodedForm(p) == DecodedForm(q) <==> p[0] == q[0]
  {
    SameFormIff(p, q);
    CodeInBits(p);
    CodeInBits(q);
    assert Code(q) == Code(p) - One(p[0]) + One(q[0]);
    OneBitMovesForm(Code(p), p[0], q[0]);
  }

  lemma MadeShinyKeepsFormIff(p: Word, t: Word)
    ensures Shown(MadeShiny(p, t)) == Shown(p) <==> Ones(p, t, 8) % 2 == 0 && Ones(p, t, 9) % 2 == 0
  {
    FormWithTwoBits(p, MadeShiny(p, t));
  }

  lemma ClearedKeepsFormIff(p: Word, t: Word)
    ensures Shown(Cleared(p, t)) == Shown(p) <==> Ones(p, t, 0) % 2 == 1
  {
    FormWithOneBit(p, Cleared(p, t));
  }

  lemma ShininessKeepsFormIff(c: Setting, p: Word, shiny: bool)
    ensures Shown(ShininessSet(c, p, shiny)) == Shown(p) <==> ShininessKeepsForm(c, p, shiny)
  {
    MadeShinyKeepsFormIff(p, c.trainer);
    ClearedKeepsFormIff(p, c.trainer);
  }

  lemma TwoBitsMoveForm(code: nat, a: bool, b: bool, a': bool, b': bool)
    requires code >= 4 * One(a) + 8 * One(b)
    ensures var code' := code - 4 * One(a) - 8 * One(b) + 4 * One(a') + 8 * One(b');
            code % FORM_COUNT == code' % FORM_COUNT <==> a == a' && b == b'
  {
    var code' := code - 4 * One(a) - 8 * One(b) + 4 * One(a') + 8 * One(b');
    if code % FORM_COUNT == code' % FORM_COUNT {
      var turns := Turns(code, code');
      assert turns == 0;
    }
  }

  lemma OneBitMovesForm(code: nat, a: bool, a': bool)
    requires code >= One(a)
    ensures code % FORM_COUNT == (code - One(a) + One(a')) % FORM_COUNT <==> a == a'
  {
    if code % FORM_COUNT == (code - One(a) + One(a')) % FORM_COUNT {
      var turns := Turns(code, code - One(a) + One(a'));
      assert turns == 0;
    }
  }

  // ---------------------------------------------------------------- copies

  /** An object made from native data takes its form from the species index and rewrites the
      personality to match: every copy into a party or a box, and every load. */
  function Reloaded(u: Unown): Unown
    requires IsFormName(u.nativeForm)
  {
    Unown(Written(u.personality, NumberOf(u.nativeForm[0]), 4), u.nativeForm, u.nativeForm)
  }

  /** The copy shows the same form exactly if that form was stored, and has the same personality
      exactly if it carries the number of the stored form. A copy of the copy is the copy. */
  lemma ReloadIff(u: Unown)
    requires IsFormName(u.nativeForm)
    ensures Reloaded(u).form == u.form <==> IndexAgrees(u)
    ensures Reloaded(u).personality == u.personality <==> Code(u.personality) == NumberOf(u.nativeForm[0])
    ensures Agrees(Reloaded(u)) && IndexAgrees(Reloaded(u)) && Reloaded(Reloaded(u)) == Reloaded(u)
  {
    RewriteKeepsIff(u.personality, u.nativeForm[0]);
    FormRoundTrip(u.personality, u.nativeForm[0]);
    FormsAreNumbered(u.nativeForm[0], 0);
    WrittenIsRead(u.personality, NumberOf(u.nativeForm[0]));
    RewriteKeepsIff(Reloaded(u).personality, u.nativeForm[0]);
  }

  lemma WrittenZero()
    ensures Written(ZERO[0 := true], 0, 4) == ZERO
  {
    forall i | 0 <= i < 32 ensures Written(ZERO[0 := true], 0, 4)[i] == ZERO[i] {
      HighBitsAreClear(0, 0, 2 * (i / 8) + i % 8);
    }
  }

  lemma FormsOfZeroAndOne()
    ensures DecodedForm(ZERO) == 'A' && DecodedForm(ZERO[0 := true]) == 'B'
  {
    CodeInBits(ZERO);
    CodeInBits(ZERO[0 := true]);
  }

  /** An A is given the personality 1, shows B, and is an A with personality 0 when it is copied. */
  lemma CopyLosesForm(c: Setting)
    requires c.firstAbility != 0
    ensures var u := Unown(ZERO, "A", "A");
            var u' := Apply(c, u, SetPersonality(ZERO[0 := true]));
            && Agrees(u) && IndexAgrees(u)
            && u' == Unown(ZERO[0 := true], "B", "A") && Agrees(u')
            && Reloaded(u') == u
  {
    FormsOfZeroAndOne();
    WrittenZero();
  }

  // ---------------------------------------------------------------- form and shininess

  lemma WrittenColumn8(p: Word, t: Word, number: nat)
    requires number < FORM_COUNT
    ensures Ones(Written(p, number, 4), t, 8) % 2 == 0 <==> Bit(number, 2) == (t[8] != t[24])
  {
    HighFormBits(number);
    EvenIff(Written(p, number, 4), t, 8);
  }

  lemma WrittenColumn9(p: Word, t: Word, number: nat)
    requires number < FORM_COUNT
    ensures Ones(Written(p, number, 4), t, 9) % 2 == 0 <==> Bit(number, 3) == (t[9] != t[25])
  {
    HighFormBits(number);
    EvenIff(Written(p, number, 4), t, 9);
  }

  lemma WrittenColumn(p: Word, t: Word, number: nat, i: nat)
    requires 3 <= i < 16 && i != 8 && i != 9
    ensures Ones(Written(p, number, 4), t, i) == Ones(p, t, i)
  {
    assert HalfBit(Written(p, number, 4), 0, i) == HalfBit(p, 0, i);
    assert HalfBit(Written(p, number, 4), 1, i) == HalfBit(p, 1, i);
  }

  /** Writing a form decides columns 8 and 9 anew: an Unown is shiny afterwards exactly if the other
      columns were even, and bits 2 and 3 of the form's number are what the trainer ID asks for. */
  lemma FormIsShinyIff(p: Word, t: Word, number: nat)
    requires number < FORM_COUNT
    ensures Shiny(Written(p, number, 4), t) <==>
            && (forall i: nat | 3 <= i < 16 && i != 8 && i != 9 :: Ones(p, t, i) % 2 == 0)
            && Bit(number, 2) == (t[8] != t[24]) && Bit(number, 3) == (t[9] != t[25])
  {
    WrittenColumn8(p, t, number);
    WrittenColumn9(p, t, number);
    forall i: nat | 3 <= i < 16 && i != 8 && i != 9
      ensures Ones(Written(p, number, 4), t, i) == Ones(p, t, i)
    {
      WrittenColumn(p, t, number, i);
    }
  }

  lemma HighFormBits(number: nat)
    requires number < FORM_COUNT
    ensures !Bit(number, 6) && !Bit(number, 7)
  {
    SmallLimits();
    HighBitsAreClear(number, 5, 6);
    HighBitsAreClear(number, 5, 7);
  }

  /** So a shiny Unown stays shiny exactly if bits 8, 9, 24 and 25 of its personality say so. */
  lemma SetFormKeepsShinyIff(p: Word, t: Word, number: nat)
    requires number < FORM_COUNT && Shiny(p, t)
    ensures Shiny(Written(p, number, 4), t) <==>
            Bit(number, 2) == (p[8] != p[24]) && Bit(number, 3) == (p[9] != p[25])
  {
    FormIsShinyIff(p, t, number);
    EvenIff(p, t, 8);
    EvenIff(p, t, 9);
  }

  /** Personality and trainer 0 make a shiny A; written as E it is not shiny. */
  lemma FormLosesShininess()
    ensures Shiny(ZERO, ZERO) && !Shiny(Written(ZERO, NumberOf('E'), 4), ZERO)
  {
    SetFormKeepsShinyIff(ZERO, ZERO, 4);
    assert Bit(4, 2) by {
      assert Bit(4, 2) == Bit(2, 1) == Bit(1, 0);
    }
  }
}
