/**
 * The phoneme alphabet shared by all four transducers: 38 Polish sound units.
 * An `x` suffix marks the palatalised ("softened") variant of a consonant,
 * `Ch`/`Sh`/`Zh`/`Dh` are the postalveolars written cz, sz, ż, dż, and
 * `Ox`/`Ex`/`Ou` are the vowels written ą, ę, ó.
 */
module Sounds {
  datatype Sound =
    | A | B | C | Ch | D | Dx | Dz | Dh | E | Ex | F | G | H | I | J | K | L | Lx | M
    | N | Nx | O | Ox | Ou | P | R | Rx | S | Sx | Sh | T | Tx | U | W | Y | Z | Zx | Zh

  /** Sounds that carry softening: i and the palatalised consonants (soft l is `L`, hard ł is `Lx`). */
  predicate IsSoftened(s: Sound) {
    match s
    case I | Sx | Zx | L | Nx | Tx | Rx | Dx => true
    case _ => false
  }

  predicate IsVowel(s: Sound) {
    match s
    case A | E | Ex | I | Y | O | Ox | U | Ou => true
    case _ => false
  }

  /** The vowels that a softening may be carried onto (every vowel but `Y`). */
  predicate IsSoftenableVowel(s: Sound) {
    IsVowel(s) && s != Y
  }

  /** `I` is the only sound that is both softened and a vowel. */
  lemma {:induction false} SoftenedVowelIsI(s: Sound)
    ensures IsSoftened(s) && IsVowel(s) <==> s == I
  {
  }
}
