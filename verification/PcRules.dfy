/**
 The Game Boy PC. The boxes sit in an array, but the current box lives in a buffer of its
 own: the array slot with its number is stale and must be neither read nor written.

 `Load` and `Flush` form a lens from the physical storage to the list of logical boxes.
 The laws hold for any number of boxes, any content and any current box number `c`, in range
 or not, so for both generations' ways of reading the current-box byte.
 */
module PcRules {
  import opened Common

  datatype Storage<B> = Storage(boxes: seq<B>, current: B, number: Byte)

  /** Generation I keeps a flag in the top bit of the current-box byte. */
  function Gen1Number(number: Byte): nat {
    number % 0x80
  }

  /** The flag says nothing about which box is the current one. */
  lemma FlagIsIgnored(number: Byte)
    ensures number < 128 ==> Gen1Number(number) == number && Gen1Number(number + 128) == number
    ensures Gen1Number(number) < 128
  {
  }

  predicate Redirected<B>(s: Storage<B>, c: nat, i: nat) {
    c < |s.boxes| && i == c
  }

  function Load<B>(s: Storage<B>, c: nat): (logical: seq<B>)
    ensures |logical| == |s.boxes|
    ensures forall i | 0 <= i < |s.boxes| :: logical[i] == if Redirected(s, c, i) then s.current else s.boxes[i]
  {
    seq(|s.boxes|, i requires 0 <= i < |s.boxes| => if Redirected(s, c, i) then s.current else s.boxes[i])
  }

  function Flush<B>(s: Storage<B>, c: nat, logical: seq<B>): (s': Storage<B>)
    requires |logical| == |s.boxes|
    ensures |s'.boxes| == |s.boxes| && s'.number == s.number
    ensures forall i | 0 <= i < |s.boxes| :: s'.boxes[i] == if Redirected(s, c, i) then s.boxes[i] else logical[i]
  {
    Storage(seq(|s.boxes|, i requires 0 <= i < |s.boxes| => if Redirected(s, c, i) then s.boxes[i] else logical[i]),
            if c < |s.boxes| then logical[c] else s.current,
            s.number)
  }

  lemma FlushOfLoad<B>(s: Storage<B>, c: nat)
    ensures Flush(s, c, Load(s, c)) == s
  {
  }

  lemma LoadOfFlush<B>(s: Storage<B>, c: nat, logical: seq<B>)
    requires |logical| == |s.boxes|
    ensures Load(Flush(s, c, logical), c) == logical
  {
  }

  lemma FlushOfFlush<B>(s: Storage<B>, c: nat, first: seq<B>, second: seq<B>)
    requires |first| == |second| == |s.boxes|
    ensures Flush(Flush(s, c, first), c, second) == Flush(s, c, second)
  {
  }

  /** A flush touches exactly the places that the logical boxes come from: never the shadowed
      slot, and the current-box buffer only if its number is in range. */
  lemma FlushKeepsShadow<B>(s: Storage<B>, c: nat, logical: seq<B>)
    requires |logical| == |s.boxes|
    ensures var s' := Flush(s, c, logical);
            if c < |s.boxes| then s'.boxes[c] == s.boxes[c] && s'.current == logical[c]
                                  && s'.boxes == logical[c := s.boxes[c]]
            else s'.current == s.current && s'.boxes == logical
  {
  }

  /** Editing one logical box writes one physical place, and no other logical box changes. */
  lemma EditIsLocal<B>(s: Storage<B>, c: nat, i: nat, content: B)
    requires i < |s.boxes|
    ensures var s' := Flush(s, c, Load(s, c)[i := content]);
            && Load(s', c) == Load(s, c)[i := content]
            && s' == if Redirected(s, c, i) then s.(current := content) else s.(boxes := s.boxes[i := content])
  {
  }

  // ---------------------------------------------------------------- box names

  /** Native text ends at the first terminator, or where its field ends. */
  const TERMINATOR: bv8 := 0x50

  /** The native character set: a character for every byte, a byte for every character. */
  datatype Charset = Charset(charOf: bv8 -> char, byteOf: char -> bv8)

  function TextLength(name: seq<bv8>): (n: nat)
    ensures n <= |name|
    ensures forall i | 0 <= i < n :: name[i] != TERMINATOR
    ensures n < |name| ==> name[n] == TERMINATOR
  {
    if name == [] || name[0] == TERMINATOR then 0 else 1 + TextLength(name[1..])
  }

  lemma {:induction false} TextLengthIs(name: seq<bv8>, n: nat)
    requires n <= |name| && forall i | 0 <= i < n :: name[i] != TERMINATOR
    requires n < |name| ==> name[n] == TERMINATOR
    ensures TextLength(name) == n
  {
    if n == 0 {
    } else {
      TextLengthIs(name[1..], n - 1);
    }
  }

  function Imported(c: Charset, name: seq<bv8>): (text: string)
    ensures |text| == TextLength(name)
  {
    seq(TextLength(name), i requires 0 <= i < TextLength(name) => c.charOf(name[i]))
  }

  /** What does not fit is cut, what is left of the field is filled with terminators. */
  function Exported(c: Charset, text: string, length: nat): (name: seq<bv8>)
    ensures |name| == length
  {
    seq(length, i requires 0 <= i < length => if i < |text| then c.byteOf(text[i]) else TERMINATOR)
  }

  function AllImported(c: Charset, names: seq<seq<bv8>>): (texts: seq<string>)
    ensures |texts| == |names| && forall i | 0 <= i < |names| :: texts[i] == Imported(c, names[i])
  {
    seq(|names|, i requires 0 <= i < |names| => Imported(c, names[i]))
  }

  function AllExported(c: Charset, texts: seq<string>, length: nat): (names: seq<seq<bv8>>)
    ensures |names| == |texts| && forall i | 0 <= i < |texts| :: names[i] == Exported(c, texts[i], length)
  {
    seq(|texts|, i requires 0 <= i < |texts| => Exported(c, texts[i], length))
  }

  /** Bytes that have a character of their own, then nothing but terminators. */
  predicate Clean(c: Charset, name: seq<bv8>) {
    && (forall i | 0 <= i < TextLength(name) :: c.byteOf(c.charOf(name[i])) == name[i])
    && (forall i | TextLength(name) <= i < |name| :: name[i] == TERMINATOR)
  }

  lemma NameSurvivesIff(c: Charset, name: seq<bv8>)
    ensures Exported(c, Imported(c, name), |name|) == name <==> Clean(c, name)
  {
    var again := Exported(c, Imported(c, name), |name|);
    forall i | 0 <= i < |name|
      ensures again[i] == if i < TextLength(name) then c.byteOf(c.charOf(name[i])) else TERMINATOR
    {
    }
  }

  /** Every flush rewrites all names, edited or not. The untouched ones survive exactly when each is
      clean: bytes after the first terminator, and bytes without a character, are lost. */
  lemma NamesSurviveIff(c: Charset, names: seq<seq<bv8>>, length: nat)
    requires forall i | 0 <= i < |names| :: |names[i]| == length
    ensures AllExported(c, AllImported(c, names), length) == names
            <==> forall i | 0 <= i < |names| :: Clean(c, names[i])
  {
    var again := AllExported(c, AllImported(c, names), length);
    forall i | 0 <= i < |names| ensures again[i] == names[i] <==> Clean(c, names[i]) {
      NameSurvivesIff(c, names[i]);
    }
    assert again == names ==> forall i | 0 <= i < |names| :: again[i] == names[i];
  }

  /** A name that fits is read back exactly when each of its characters has a byte of its own that
      is not the terminator. */
  lemma TextSurvivesIff(c: Charset, text: string, length: nat)
    requires |text| <= length
    ensures Imported(c, Exported(c, text, length)) == text
            <==> forall i | 0 <= i < |text| :: c.byteOf(text[i]) != TERMINATOR && c.charOf(c.byteOf(text[i])) == text[i]
  {
    var name := Exported(c, text, length);
    if Imported(c, name) == text {
      forall i | 0 <= i < |text| ensures c.byteOf(text[i]) != TERMINATOR && c.charOf(c.byteOf(text[i])) == text[i] {
        assert name[i] == c.byteOf(text[i]) && Imported(c, name)[i] == c.charOf(name[i]);
      }
    }
    if forall i | 0 <= i < |text| :: c.byteOf(text[i]) != TERMINATOR && c.charOf(c.byteOf(text[i])) == text[i] {
      TextLengthIs(name, |text|);
    }
  }

  /** A game leaves the end of a longer name behind a shorter one; the flush wipes it. */
  lemma OldTailIsLost(c: Charset, letter: bv8)
    requires letter != TERMINATOR && c.byteOf(c.charOf(letter)) == letter
    ensures var name := [letter, TERMINATOR, letter];
            Exported(c, Imported(c, name), 3) == [letter, TERMINATOR, TERMINATOR] != name
  {
    var name := [letter, TERMINATOR, letter];
    TextLengthIs(name, 1);
    assert Exported(c, Imported(c, name), 3)[2] == TERMINATOR != name[2];
  }
}
