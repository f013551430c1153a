/**
 Shininess in Generation III: a column is one bit position of the two halves of the
 personality and of the trainer ID, and a Pokémon is shiny if columns 3 to 15 all hold an
 even number of ones.
 */
module Shininess {
  import opened Words

  function Ones(p: Word, t: Word, i: nat): nat
    requires i < 16
  {
    One(HalfBit(p, 0, i)) + One(HalfBit(p, 1, i)) + One(HalfBit(t, 0, i)) + One(HalfBit(t, 1, i))
  }

  predicate Shiny(p: Word, t: Word) {
    forall i: nat | 3 <= i < 16 :: Ones(p, t, i) % 2 == 0
  }

  lemma EvenIff(p: Word, t: Word, i: nat)
    requires i < 16
    ensures Ones(p, t, i) % 2 == 0 <==>
            ((HalfBit(p, 0, i) != HalfBit(p, 1, i)) <==> (HalfBit(t, 0, i) != HalfBit(t, 1, i)))
  {
  }

  /** `p` with the low half put right in columns 3 to `n - 1`. */
  function Repaired(p: Word, t: Word, n: nat): Word
    requires n <= 16
  {
    seq(32, i requires 0 <= i < 32 => if 3 <= i < n && Ones(p, t, i) % 2 == 1 then !p[i] else p[i])
  }

  lemma RepairedNext(p: Word, t: Word, n: nat)
    requires 3 <= n < 16
    ensures var r := Repaired(p, t, n);
            && Ones(r, t, n) == Ones(p, t, n)
            && Repaired(p, t, n + 1) == if Ones(p, t, n) % 2 == 1 then r[n := !r[n]] else r
  {
  }

  function MadeShiny(p: Word, t: Word): Word {
    Repaired(p, t, 16)
  }

  function Cleared(p: Word, t: Word): Word {
    if Ones(p, t, 0) % 2 == 0 then p[0 := !p[0]] else p
  }

  lemma MadeShinyIsShiny(p: Word, t: Word)
    ensures Shiny(MadeShiny(p, t), t)
  {
  }

  /** The closed form of the loop: bits 0 to 2 and the high half stay, bits 3 to 15 become the
      exclusive or of the other three half words. */
  lemma MadeShinyClosedForm(p: Word, t: Word, i: nat)
    requires i < 32
    ensures MadeShiny(p, t)[i] ==
            if 3 <= i < 16 then (HalfBit(p, 1, i) != HalfBit(t, 0, i)) != HalfBit(t, 1, i) else p[i]
  {
  }

  /** It changes nothing on a shiny Pokémon, and only there; so doing it twice is doing it once. */
  lemma MadeShinyChangesIff(p: Word, t: Word)
    ensures MadeShiny(p, t) == p <==> Shiny(p, t)
    ensures MadeShiny(MadeShiny(p, t), t) == MadeShiny(p, t)
  {
  }

  /** Clearing shininess never changes whether a Pokémon is shiny: column 0, which it makes odd,
      is not one of the columns that decide. */
  lemma ClearedKeepsShininess(p: Word, t: Word)
    ensures Shiny(Cleared(p, t), t) <==> Shiny(p, t)
    ensures Ones(Cleared(p, t), t, 0) % 2 == 1
  {
    forall i: nat | 3 <= i < 16 ensures Ones(Cleared(p, t), t, i) == Ones(p, t, i) {
      assert HalfBit(Cleared(p, t), 0, i) == HalfBit(p, 0, i) && HalfBit(Cleared(p, t), 1, i) == HalfBit(p, 1, i);
    }
  }

  /** Only bit 0 can change, and it becomes the one value that makes column 0 odd. */
  lemma ClearedClosedForm(p: Word, t: Word, i: nat)
    requires i < 32
    ensures Cleared(p, t)[i] == if i == 0 then !((p[16] != t[0]) != t[16]) else p[i]
  {
    EvenIff(p, t, 0);
  }

  /** So `set_shininess` does what it is asked exactly when it is asked for a shiny Pokémon, or
      the Pokémon was not shiny before. */
  lemma SetShininessWorksIff(p: Word, t: Word, value: bool)
    ensures var p' := if value then MadeShiny(p, t) else Cleared(p, t);
            (Shiny(p', t) <==> value) <==> value || !Shiny(p, t)
  {
    MadeShinyIsShiny(p, t);
    ClearedKeepsShininess(p, t);
  }
}
