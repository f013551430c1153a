/**
 What a Game Boy Advance Pokémon makes of its copy of packed data: an Unown, and no other, has its
 personality rewritten for the letter that its species index stands for. So the assumption that
 parties and boxes make about their members is met, and copies are those of `UnownForms`.
 */
module UnownStorage {
  import opened Common
  import opened Words
  import opened UnownBits
  import opened StorageRules
  import UnownForms

  /** The letter of a species index, if it is one of Unown's. */
  type Letters = nat -> Option<char>

  ghost predicate AllForms(letters: Letters) {
    forall index :: letters(index).Some? ==> IsForm(letters(index).value)
  }

  function Rewritten(letters: Letters, packed: Packed): Packed {
    var letter := letters(packed.index);
    if letter.Some? && IsForm(letter.value)
    then packed.(personality := Written(packed.personality, NumberOf(letter.value), 4))
    else packed
  }

  lemma RewrittenOnce(letters: Letters, packed: Packed)
    ensures Rewritten(letters, Rewritten(letters, packed)) == Rewritten(letters, packed)
  {
    var letter := letters(packed.index);
    if letter.Some? && IsForm(letter.value) {
      var written := Rewritten(letters, packed).personality;
      FormsAreNumbered(letter.value, 0);
      WrittenIsRead(packed.personality, NumberOf(letter.value));
      RewriteKeepsIff(written, letter.value);
    }
  }

  /** The members of parties and boxes settle. */
  lemma GbaMembersSettle(w: World, letters: Letters)
    requires forall packed :: w.settled(packed) == Rewritten(letters, packed)
    ensures Settles(w)
  {
    forall packed ensures w.settled(w.settled(packed)) == w.settled(packed) {
      RewrittenOnce(letters, packed);
    }
  }

  /** Asking for the native data leaves a slot as it is exactly if it holds no Unown, or one whose
      personality carries the number of its own letter. */
  lemma SettledIff(letters: Letters, packed: Packed)
    requires AllForms(letters)
    ensures Rewritten(letters, packed) == packed <==>
            (letters(packed.index).Some? ==>
               Code(packed.personality) == NumberOf(letters(packed.index).value))
  {
    if letters(packed.index).Some? {
      RewriteKeepsIff(packed.personality, letters(packed.index).value);
    }
  }

  /** A stored Unown is the copy that the form rules speak of. */
  lemma SettledIsReloaded(letters: Letters, packed: Packed, form: string)
    requires AllForms(letters) && letters(packed.index).Some?
    ensures var name := [letters(packed.index).value];
            UnownForms.Reloaded(UnownForms.Unown(packed.personality, form, name))
            == UnownForms.Unown(Rewritten(letters, packed).personality, name, name)
  {
  }
}
