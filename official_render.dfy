/**
 * Writing sounds in Polish spelling.  Most sounds have one spelling; three
 * rules look ahead: the soft consonant ś, ź, ń, ć or dź before a vowel is
 * written s, z, n, c or dz plus `i` (the `i` is dropped when the vowel is
 * itself i), w, k, m or g before the glide j and a vowel is written with `i`
 * instead of the j, and rz is always written rz.
 */
module OfficialRender {
  import opened Sounds
  import opened Seqs

  /** `naive_to_string`: the spelling of one sound on its own. */
  function NaiveToString(s: Sound): string {
    match s
    case A => "a"
    case B => "b"
    case C => "c"
    case D => "d"
    case E => "e"
    case F => "f"
    case G => "g"
    case H => "ch"
    case I => "i"
    case J => "j"
    case K => "k"
    case L => "l"
    case Lx => "ł"
    case M => "m"
    case N => "n"
    case Nx => "ń"
    case O => "o"
    case Ou => "ó"
    case Ox => "ą"
    case P => "p"
    case R => "r"
    case Rx => "rz"
    case S => "s"
    case Sx => "ś"
    case Sh => "sz"
    case T => "t"
    case Tx => "ć"
    case U => "u"
    case W => "w"
    case Y => "y"
    case Z => "z"
    case Zx => "ź"
    case Zh => "ż"
    case Ch => "cz"
    case Dz => "dz"
    case Dx => "dź"
    case Dh => "dż"
    case Ex => "ę"
  }

  /** The sounds the soft-consonant rule applies to: ś, ź, ń, ć and dź. */
  predicate SoftConsonant(s: Sound) {
    IsSoftened(s) && s != I && s != L && s != Rx
  }

  /**
   * The letters a soft consonant is written with before a vowel.  The source
   * panics on any other sound; the rule only reaches the five listed.
   */
  function SoftBase(s: Sound): string
    requires SoftConsonant(s)
  {
    match s
    case Sx => "s"
    case Zx => "z"
    case Nx => "n"
    case Tx => "c"
    case Dx => "dz"
  }

  /** The consonants written with `i` in place of a following j: w, k, m, g. */
  predicate TakesIForJ(s: Sound) {
    s == W || s == K || s == M || s == G
  }

  /** The letter of w, k, m or g.  The source panics on any other sound; the rule only reaches these four. */
  function IForJLetter(s: Sound): string
    requires TakesIForJ(s)
  {
    if s == W then "w" else if s == K then "k" else if s == M then "m" else "g"
  }

  /** What one round of `to_official_utf8` writes, and how many sounds it uses. */
  datatype Spelled = Spelled(text: string, consumed: nat)

  /** One round of `to_official_utf8`'s loop at position `at`. */
  function SpellStep(input: seq<Sound>, at: nat): (r: Spelled)
    requires at < |input|
    ensures 1 <= r.consumed <= |input| - at
  {
    var c0 := input[at];
    if c0 == Rx then Spelled("rz", 1)
    else if |input| - at > 1 && SoftConsonant(c0) && IsSoftenableVowel(input[at + 1]) then
      Spelled(SoftBase(c0) + (if input[at + 1] != I then "i" else ""), 1)
    else if |input| - at > 2 && TakesIForJ(c0) && input[at + 1] == J
      && IsSoftenableVowel(input[at + 2]) && input[at + 2] != I then
      Spelled(IForJLetter(c0) + "i", 2)
    else Spelled(NaiveToString(c0), 1)
  }

  /** `to_official_utf8` on the sounds from `at`. */
  function SpellFrom(input: seq<Sound>, at: nat): string
    requires at <= |input|
    decreases |input| - at
  {
    if at == |input| then ""
    else
      var step := SpellStep(input, at);
      step.text + SpellFrom(input, at + step.consumed)
  }

  /** `to_official_utf8`, as a function of the sounds. */
  function ToOfficial(input: seq<Sound>): string {
    SpellFrom(input, 0)
  }

  /** One round of `to_official_utf8`, as the source writes it. */
  method SpellOne(input: seq<Sound>, i: nat) returns (text: string, step: nat)
    requires i < |input|
    ensures Spelled(text, step) == SpellStep(input, i)
  {
    var c0 := input[i];
    if c0 == Rx {
      return "rz", 1;
    }
    if |input| - i > 1 {
      var i1 := input[i + 1];
      // A, Ox, E, Ex, O, Ou, U and I: exactly the softenable vowels
      if IsSoftened(c0) && c0 != I && c0 != L && IsSoftenableVowel(i1) {
        assert SoftConsonant(c0);
        text := SoftBase(c0);
        if i1 != I {
          text := text + "i";
        }
        return text, 1;
      }
      if TakesIForJ(c0) && i1 == J && |input| - i > 2 {
        var i2 := input[i + 2];
        if IsSoftenableVowel(i2) && i2 != I {
          return IForJLetter(c0) + "i", 2;
        }
      }
    }
    return NaiveToString(c0), 1;
  }

  /**
   * One round with its bookkeeping: what is written so far plus what is
   * left is still the whole spelling, and the round moves forward.
   */
  method SpellRound(input: seq<Sound>, i: nat, res: string) returns (res': string, i': nat)
    requires i < |input|
    requires res + SpellFrom(input, i) == ToOfficial(input)
    ensures i < i' <= |input|
    ensures res' + SpellFrom(input, i') == ToOfficial(input)
  {
    var text, step := SpellOne(input, i);
    Advance(ToOfficial(input), res, text, SpellFrom(input, i), SpellFrom(input, i + step));
    res', i' := res + text, i + step;
  }

  /** `to_official_utf8`: spell the sounds one round after another. */
  method ToOfficialUtf8(input: seq<Sound>) returns (res: string)
    ensures res == ToOfficial(input)
  {
    res := "";
    var i := 0;
    while i < |input|
      invariant i <= |input|
      invariant res + SpellFrom(input, i) == ToOfficial(input)
      decreases |input| - i
    {
      res, i := SpellRound(input, i, res);
    }
  }

  /** The spelling from `at` is what the round at `at` writes, then the spelling after it. */
  lemma {:induction false} SpellFromRound(input: seq<Sound>, at: nat, text: string, n: nat)
    requires at < |input| && SpellStep(input, at) == Spelled(text, n)
    ensures at + n <= |input|
    ensures SpellFrom(input, at) == text + SpellFrom(input, at + n)
  {
    assert SpellStep(input, at).text == text && SpellStep(input, at).consumed == n;
  }

  /** A round at a sound no look-ahead rule applies to writes that sound's own spelling. */
  lemma {:induction false} NaiveRound(input: seq<Sound>, at: nat)
    requires at < |input| && input[at] != Rx
    requires !(|input| - at > 1 && SoftConsonant(input[at]) && IsSoftenableVowel(input[at + 1]))
    requires !(|input| - at > 2 && TakesIForJ(input[at]) && input[at + 1] == J
      && IsSoftenableVowel(input[at + 2]) && input[at + 2] != I)
    ensures SpellStep(input, at) == Spelled(NaiveToString(input[at]), 1)
  {
  }

  /** A sound no look-ahead rule applies to is written with its own spelling, and the rest follows. */
  lemma {:induction false} SpellNaiveAt(input: seq<Sound>, at: nat)
    requires at < |input| && input[at] != Rx
    requires !(|input| - at > 1 && SoftConsonant(input[at]) && IsSoftenableVowel(input[at + 1]))
    requires !(|input| - at > 2 && TakesIForJ(input[at]) && input[at + 1] == J
      && IsSoftenableVowel(input[at + 2]) && input[at + 2] != I)
    ensures SpellFrom(input, at) == NaiveToString(input[at]) + SpellFrom(input, at + 1)
  {
    NaiveRound(input, at);
    SpellFromRound(input, at, NaiveToString(input[at]), 1);
  }

  /** A soft consonant before a softenable vowel is written with its base letters, then `i` unless the vowel is i. */
  lemma {:induction false} SpellSoftAt(input: seq<Sound>, at: nat)
    requires at + 1 < |input| && SoftConsonant(input[at]) && IsSoftenableVowel(input[at + 1])
    ensures SpellFrom(input, at) == SoftBase(input[at]) + (if input[at + 1] == I then "" else "i") + SpellFrom(input, at + 1)
  {
    assert SpellStep(input, at) == Spelled(SoftBase(input[at]) + (if input[at + 1] == I then "" else "i"), 1);
  }

  /** w, k, m or g before j and a vowel other than i: the j is written `i`. */
  lemma {:induction false} SpellIForJAt(input: seq<Sound>, at: nat)
    requires at + 2 < |input| && TakesIForJ(input[at]) && input[at + 1] == J
    requires IsSoftenableVowel(input[at + 2]) && input[at + 2] != I
    ensures SpellFrom(input, at) == IForJLetter(input[at]) + "i" + SpellFrom(input, at + 2)
  {
    assert SpellStep(input, at) == Spelled(IForJLetter(input[at]) + "i", 2);
  }
}
