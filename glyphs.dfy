/**
 * The Greek glyph alphabet: 24 plain letters, 7 accented vowels and two
 * markers that are not letters: `Acute` (softening with no vowel to carry it,
 * written ') and `Break` (blocks a spurious softening, written \).
 */
module Glyphs {
  import opened Wrappers

  datatype Greek =
    | Alpha | AlphaAcute | Beta | Gamma | Delta | Epsilon | EpsilonAcute | Zeta | Eta | EtaAcute
    | Theta | Iota | IotaAcute | Kappa | Lambda | Mu | Nu | Xi | Omicron | OmicronAcute | Pi
    | Rho | Sigma | Tau | Upsilon | UpsilonAcute | Phi | Chi | Psi | Omega | OmegaAcute
    | Acute | Break

  /** Glyphs that carry softening: the bare acute and every accented vowel. */
  predicate IsSoftening(g: Greek) {
    match g
    case Acute | AlphaAcute | EpsilonAcute | EtaAcute | IotaAcute | OmicronAcute | UpsilonAcute | OmegaAcute => true
    case _ => false
  }

  /** Consonant letters that have a palatalised reading when a softening glyph follows. */
  predicate CanBeSoftened(g: Greek) {
    match g
    case Rho | Nu | Zeta | Sigma | Delta | Tau | Lambda => true
    case _ => false
  }

  /** The character a glyph is written as; `CharToGreek` reads it back. */
  function ToChar(g: Greek): (c: char)
    ensures CharToGreek(c) == Some(g)
  {
    match g
    case Alpha => 'α'
    case Beta => 'β'
    case Gamma => 'γ'
    case Delta => 'δ'
    case Epsilon => 'ε'
    case Zeta => 'ζ'
    case Eta => 'η'
    case EtaAcute => 'ή'
    case Theta => 'θ'
    case Iota => 'ι'
    case Kappa => 'κ'
    case Lambda => 'λ'
    case Mu => 'μ'
    case Nu => 'ν'
    case Xi => 'ξ'
    case Omicron => 'ο'
    case Pi => 'π'
    case Rho => 'ρ'
    case Sigma => 'σ'
    case Tau => 'τ'
    case Upsilon => 'υ'
    case Phi => 'φ'
    case Chi => 'χ'
    case Psi => 'ψ'
    case Omega => 'ω'
    case AlphaAcute => 'ά'
    case EpsilonAcute => 'έ'
    case IotaAcute => 'ί'
    case OmicronAcute => 'ό'
    case UpsilonAcute => 'ύ'
    case OmegaAcute => 'ώ'
    case Acute => '\''
    case Break => '\\'
  }

  function CharToGreek(c: char): Option<Greek> {
    match c
    case 'α' => Some(Alpha)
    case 'β' => Some(Beta)
    case 'γ' => Some(Gamma)
    case 'δ' => Some(Delta)
    case 'ε' => Some(Epsilon)
    case 'ζ' => Some(Zeta)
    case 'η' => Some(Eta)
    case 'ή' => Some(EtaAcute)
    case 'θ' => Some(Theta)
    case 'ι' => Some(Iota)
    case 'κ' => Some(Kappa)
    case 'λ' => Some(Lambda)
    case 'μ' => Some(Mu)
    case 'ν' => Some(Nu)
    case 'ξ' => Some(Xi)
    case 'ο' => Some(Omicron)
    case 'π' => Some(Pi)
    case 'ρ' => Some(Rho)
    case 'σ' => Some(Sigma)
    case 'τ' => Some(Tau)
    case 'υ' => Some(Upsilon)
    case 'φ' => Some(Phi)
    case 'χ' => Some(Chi)
    case 'ψ' => Some(Psi)
    case 'ω' => Some(Omega)
    case 'ά' => Some(AlphaAcute)
    case 'έ' => Some(EpsilonAcute)
    case 'ί' => Some(IotaAcute)
    case 'ό' => Some(OmicronAcute)
    case 'ύ' => Some(UpsilonAcute)
    case 'ώ' => Some(OmegaAcute)
    case '\'' => Some(Acute)
    case '\\' => Some(Break)
    case _ => None
  }

  /** The two tables are mutually inverse: every recognised character is the rendering of its glyph. */
  lemma {:induction false} CharToGreekInverse(c: char)
    ensures CharToGreek(c).Some? ==> ToChar(CharToGreek(c).value) == c
  {
  }

  lemma {:induction false} ToCharInjective(g: Greek, h: Greek)
    ensures ToChar(g) == ToChar(h) ==> g == h
  {
    assert CharToGreek(ToChar(g)) == Some(g);
  }

  /** No glyph is both a softening mark and a softenable consonant. */
  lemma {:induction false} SofteningDisjoint(g: Greek)
    ensures !(IsSoftening(g) && CanBeSoftened(g))
  {
  }
}
