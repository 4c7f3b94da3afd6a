/**
 * The source's tests of `greek_vec_to_sound`, each glyph sequence read step
 * by step from its end: which position starts a run, which a digraph, which
 * is read alone.  Each word is stated over any glyph sequence with the
 * word's letters, so that the reading is built from the per-step lemmas of
 * `GreekParse` rather than by evaluating the parser on a literal.
 */
module GreekParseExamples {
  import opened Sounds
  import opened Glyphs
  import opened GreekParse
  import opened GreekParseSteps

  // δομπρο: δ and ρ before ο close no run, and μπ is b

  /** From the ρ on, δ, ο, μ, π, ρ, ο reads as r, o. */
  lemma {:induction false} DecodeRo(w: seq<Greek>)
    requires |w| == 6 && w[4] == Rho && w[5] == Omicron
    ensures DecodeFrom(w, 4) == [R] + ([O] + [])
  {
    DecodeEnd(w);
    NoRunAt(w, 5);
    DecodeNaiveAt(w, 5, [O]);
    ShortRunAt(w, 4);
    DecodeNaiveAt(w, 4, [R]);
  }

  /** From the μ on, δ, ο, μ, π, ρ, ο reads as b, r, o. */
  lemma {:induction false} DecodeMpro(w: seq<Greek>)
    requires |w| == 6 && w[2] == Mu && w[3] == Pi && w[4] == Rho && w[5] == Omicron
    ensures DecodeFrom(w, 2) == [B] + ([R] + ([O] + []))
  {
    DecodeRo(w);
    NoRunAt(w, 2);
    DecodeDigraphAt(w, 2, [B]);
  }

  /** From the ο on, δ, ο, μ, π, ρ, ο reads as o, b, r, o. */
  lemma {:induction false} DecodeOmpro(w: seq<Greek>)
    requires |w| == 6 && w[1] == Omicron && w[2] == Mu && w[3] == Pi && w[4] == Rho && w[5] == Omicron
    ensures DecodeFrom(w, 1) == [O] + ([B] + ([R] + ([O] + [])))
  {
    DecodeMpro(w);
    NoRunAt(w, 1);
    DecodeNaiveAt(w, 1, [O]);
  }

  /** The sounds d, o, b, r, o, read one step at a time. */
  lemma {:induction false} DobroSounds()
    ensures [D] + ([O] + ([B] + ([R] + ([O] + [])))) == [D, O, B, R, O]
  {
  }

  /** δ, ο, μ, π, ρ, ο reads as d, o, b, r, o. */
  lemma {:induction false} DecodeDobro(w: seq<Greek>)
    requires |w| == 6 && w[0] == Delta && w[1] == Omicron && w[2] == Mu && w[3] == Pi && w[4] == Rho && w[5] == Omicron
    ensures Decode(w) == [D, O, B, R, O]
  {
    DecodeOmpro(w);
    ShortRunAt(w, 0);
    DecodeNaiveAt(w, 0, [D]);
    DobroSounds();
  }

  // δάμ'ρίνί: a run of one closed by ά, a bare acute read as j, and a rho run

  /** From the ρ on, δ, ά, μ, ', ρ, ί, ν, ί reads as rz and y, then ń and i: accented iota after rho reads y. */
  lemma {:induction false} DecodeRini(w: seq<Greek>)
    requires |w| == 8 && w[4] == Rho && w[5] == IotaAcute && w[6] == Nu && w[7] == IotaAcute
    ensures DecodeFrom(w, 4) == [Rx, Y] + ([Nx, I] + [])
  {
    DecodeEnd(w);
    DecodeRunOfOneAt(w, 6, [Nx, I]);
    DecodeRunOfOneAt(w, 4, [Rx, Y]);
  }

  /** From the μ on, δ, ά, μ, ', ρ, ί, ν, ί reads as m, then j for the bare acute, then rz, y, ń, i. */
  lemma {:induction false} DecodeMjrini(w: seq<Greek>)
    requires |w| == 8 && w[2] == Mu && w[3] == Acute && w[4] == Rho && w[5] == IotaAcute && w[6] == Nu && w[7] == IotaAcute
    ensures DecodeFrom(w, 2) == [M] + ([J] + ([Rx, Y] + ([Nx, I] + [])))
  {
    DecodeRini(w);
    NoRunAt(w, 3);
    DecodeNaiveAt(w, 3, [J]);
    NoRunAt(w, 2);
    DecodeNaiveAt(w, 2, [M]);
  }

  /** From the start, δ, ά, μ, ', ρ, ί, ν, ί reads as dź and a, then m, j, rz, y, ń, i. */
  lemma {:induction false} DecodeDamjrini(w: seq<Greek>)
    requires |w| == 8 && w[0] == Delta && w[1] == AlphaAcute
    requires DecodeFrom(w, 2) == [M] + ([J] + ([Rx, Y] + ([Nx, I] + [])))
    ensures DecodeFrom(w, 0) == [Dx, A] + ([M] + ([J] + ([Rx, Y] + ([Nx, I] + []))))
  {
    DecodeRunOfOneAt(w, 0, [Dx, A]);
  }

  /** The sounds dź, a, m, j, rz, y, ń, i, read one step at a time. */
  lemma {:induction false} DamjriniSounds()
    ensures [Dx, A] + ([M] + ([J] + ([Rx, Y] + ([Nx, I] + [])))) == [Dx, A, M, J, Rx, Y, Nx, I]
  {
  }

  /** δ, ά, μ, ', ρ, ί, ν, ί reads as dź, a, m, j, rz, y, ń, i. */
  lemma {:induction false} DecodeRhoRun(w: seq<Greek>)
    requires |w| == 8 && w[0] == Delta && w[1] == AlphaAcute && w[2] == Mu && w[3] == Acute
    requires w[4] == Rho && w[5] == IotaAcute && w[6] == Nu && w[7] == IotaAcute
    ensures Decode(w) == [Dx, A, M, J, Rx, Y, Nx, I]
  {
    DecodeMjrini(w);
    DecodeDamjrini(w);
    DamjriniSounds();
  }

  //ματσκί: τσ is a run of two that no softening glyph closes, so it is the digraph c

  /** From the κ on, μ, α, τ, σ, κ, ί reads as k, i: κ cannot be softened, so ί is read alone. */
  lemma {:induction false} DecodeKi(w: seq<Greek>)
    requires |w| == 6 && w[4] == Kappa && w[5] == IotaAcute
    ensures DecodeFrom(w, 4) == [K] + ([I] + [])
  {
    DecodeEnd(w);
    NoRunAt(w, 5);
    DecodeNaiveAt(w, 5, [I]);
    NoRunAt(w, 4);
    DecodeNaiveAt(w, 4, [K]);
  }

  /** From the τ on, μ, α, τ, σ, κ, ί reads as c, k, i. */
  lemma {:induction false} DecodeTski(w: seq<Greek>)
    requires |w| == 6 && w[2] == Tau && w[3] == Sigma && w[4] == Kappa && w[5] == IotaAcute
    ensures DecodeFrom(w, 2) == [C] + ([K] + ([I] + []))
  {
    DecodeKi(w);
    UnclosedPairAt(w, 2);
    DecodeDigraphAt(w, 2, [C]);
  }

  /** From the α on, μ, α, τ, σ, κ, ί reads as a, c, k, i. */
  lemma {:induction false} DecodeAtski(w: seq<Greek>)
    requires |w| == 6 && w[1] == Alpha && w[2] == Tau && w[3] == Sigma && w[4] == Kappa && w[5] == IotaAcute
    ensures DecodeFrom(w, 1) == [A] + ([C] + ([K] + ([I] + [])))
  {
    DecodeTski(w);
    NoRunAt(w, 1);
    DecodeNaiveAt(w, 1, [A]);
  }

  /** The sounds m, a, c, k, i, read one step at a time. */
  lemma {:induction false} MackiSounds()
    ensures [M] + ([A] + ([C] + ([K] + ([I] + [])))) == [M, A, C, K, I]
  {
  }

  /** μ, α, τ, σ, κ, ί reads as m, a, c, k, i. */
  lemma {:induction false} DecodeMacki(w: seq<Greek>)
    requires |w| == 6 && w[0] == Mu && w[1] == Alpha && w[2] == Tau && w[3] == Sigma && w[4] == Kappa && w[5] == IotaAcute
    ensures Decode(w) == [M, A, C, K, I]
  {
    DecodeAtski(w);
    NoRunAt(w, 0);
    DecodeNaiveAt(w, 0, [M]);
    MackiSounds();
  }

  // τέπλύτκο: two runs of one, closed by έ and ύ, then τ before κ, which closes no run

  /** From the κ on, τ, έ, π, λ, ύ, τ, κ, ο reads as k, o. */
  lemma {:induction false} DecodeKo(w: seq<Greek>)
    requires |w| == 8 && w[6] == Kappa && w[7] == Omicron
    ensures DecodeFrom(w, 6) == [K] + ([O] + [])
  {
    DecodeEnd(w);
    NoRunAt(w, 7);
    DecodeNaiveAt(w, 7, [O]);
    NoRunAt(w, 6);
    DecodeNaiveAt(w, 6, [K]);
  }

  /** From the τ after ύ on, τ, έ, π, λ, ύ, τ, κ, ο reads as t, k, o: τ before κ closes no run. */
  lemma {:induction false} DecodeTko(w: seq<Greek>)
    requires |w| == 8 && w[5] == Tau && w[6] == Kappa && w[7] == Omicron
    ensures DecodeFrom(w, 5) == [T] + ([K] + ([O] + []))
  {
    DecodeKo(w);
    ShortRunAt(w, 5);
    DecodeNaiveAt(w, 5, [T]);
  }

  /** From the π on, τ, έ, π, λ, ύ, τ, κ, ο reads as p, then λ closed by ύ as l, u, then t, k, o. */
  lemma {:induction false} DecodePlutko(w: seq<Greek>)
    requires |w| == 8 && w[2] == Pi && w[3] == Lambda && w[4] == UpsilonAcute && w[5] == Tau && w[6] == Kappa && w[7] == Omicron
    ensures DecodeFrom(w, 2) == [P] + ([L, U] + ([T] + ([K] + ([O] + []))))
  {
    DecodeTko(w);
    DecodeRunOfOneAt(w, 3, [L, U]);
    NoRunAt(w, 2);
    DecodeNaiveAt(w, 2, [P]);
  }

  /** From the start, τ, έ, π, λ, ύ, τ, κ, ο reads as ć and e, then p, l, u, t, k, o. */
  lemma {:induction false} DecodeTeplutko(w: seq<Greek>)
    requires |w| == 8 && w[0] == Tau && w[1] == EpsilonAcute
    requires DecodeFrom(w, 2) == [P] + ([L, U] + ([T] + ([K] + ([O] + []))))
    ensures DecodeFrom(w, 0) == [Tx, E] + ([P] + ([L, U] + ([T] + ([K] + ([O] + [])))))
  {
    DecodeRunOfOneAt(w, 0, [Tx, E]);
  }

  /** The sounds ć, e, p, l, u, t, k, o, read one step at a time. */
  lemma {:induction false} CieplutkoSounds()
    ensures [Tx, E] + ([P] + ([L, U] + ([T] + ([K] + ([O] + []))))) == [Tx, E, P, L, U, T, K, O]
  {
  }

  /** τ, έ, π, λ, ύ, τ, κ, ο reads as ć, e, p, l, u, t, k, o. */
  lemma {:induction false} DecodeCieplutko(w: seq<Greek>)
    requires |w| == 8 && w[0] == Tau && w[1] == EpsilonAcute && w[2] == Pi && w[3] == Lambda
    requires w[4] == UpsilonAcute && w[5] == Tau && w[6] == Kappa && w[7] == Omicron
    ensures Decode(w) == [Tx, E, P, L, U, T, K, O]
  {
    DecodePlutko(w);
    DecodeTeplutko(w);
    CieplutkoSounds();
  }

  // μπαρδέ': μπ is b, and ρ before δ is cut from the run δέ

  /** From the δ on, μ, π, α, ρ, δ, έ, ' reads as dź, e, then j for the bare acute. */
  lemma {:induction false} DecodeDej(w: seq<Greek>)
    requires |w| == 7 && w[4] == Delta && w[5] == EpsilonAcute && w[6] == Acute
    ensures DecodeFrom(w, 4) == [Dx, E] + ([J] + [])
  {
    DecodeEnd(w);
    NoRunAt(w, 6);
    DecodeNaiveAt(w, 6, [J]);
    DecodeRunOfOneAt(w, 4, [Dx, E]);
  }

  /** From the ρ on, μ, π, α, ρ, δ, έ, ' reads as r, then δ closed by έ as dź, e, then j for the bare acute. */
  lemma {:induction false} DecodeRdej(w: seq<Greek>)
    requires |w| == 7 && w[3] == Rho && w[4] == Delta && w[5] == EpsilonAcute && w[6] == Acute
    ensures DecodeFrom(w, 3) == [R] + ([Dx, E] + ([J] + []))
  {
    DecodeDej(w);
    RhoCutAt(w, 3);
    DecodeNaiveAt(w, 3, [R]);
  }

  /** From the α on, μ, π, α, ρ, δ, έ, ' reads as a, r, dź, e, j. */
  lemma {:induction false} DecodeArdej(w: seq<Greek>)
    requires |w| == 7 && w[2] == Alpha && w[3] == Rho && w[4] == Delta && w[5] == EpsilonAcute && w[6] == Acute
    ensures DecodeFrom(w, 2) == [A] + ([R] + ([Dx, E] + ([J] + [])))
  {
    DecodeRdej(w);
    NoRunAt(w, 2);
    DecodeNaiveAt(w, 2, [A]);
  }

  /** The sounds b, a, r, dź, e, j, read one step at a time. */
  lemma {:induction false} BardziejSounds()
    ensures [B] + ([A] + ([R] + ([Dx, E] + ([J] + [])))) == [B, A, R, Dx, E, J]
  {
  }

  /** μ, π, α, ρ, δ, έ, ' reads as b, a, r, dź, e, j. */
  lemma {:induction false} DecodeBardziej(w: seq<Greek>)
    requires |w| == 7 && w[0] == Mu && w[1] == Pi && w[2] == Alpha && w[3] == Rho
    requires w[4] == Delta && w[5] == EpsilonAcute && w[6] == Acute
    ensures Decode(w) == [B, A, R, Dx, E, J]
  {
    DecodeArdej(w);
    NoRunAt(w, 0);
    DecodeDigraphAt(w, 0, [B]);
    BardziejSounds();
  }

  // The tests themselves, on the glyph sequences as written

  /** The source's test: δ, ο, μ, π, ρ, ο reads as d, o, b, r, o. */
  lemma {:induction false} DobroDecoded()
    ensures Decode([Delta, Omicron, Mu, Pi, Rho, Omicron]) == [D, O, B, R, O]
  {
    DecodeDobro([Delta, Omicron, Mu, Pi, Rho, Omicron]);
  }

  /** The source's test: δ, ά, μ, ', ρ, ί, ν, ί reads as dź, a, m, j, rz, y, ń, i. */
  lemma {:induction false} RhoRunDecoded()
    ensures Decode([Delta, AlphaAcute, Mu, Acute, Rho, IotaAcute, Nu, IotaAcute]) == [Dx, A, M, J, Rx, Y, Nx, I]
  {
    DecodeRhoRun([Delta, AlphaAcute, Mu, Acute, Rho, IotaAcute, Nu, IotaAcute]);
  }

  /** The source's test: μ, α, τ, σ, κ, ί reads as m, a, c, k, i. */
  lemma {:induction false} MackiDecoded()
    ensures Decode([Mu, Alpha, Tau, Sigma, Kappa, IotaAcute]) == [M, A, C, K, I]
  {
    DecodeMacki([Mu, Alpha, Tau, Sigma, Kappa, IotaAcute]);
  }

  /** The source's test: τ, έ, π, λ, ύ, τ, κ, ο reads as ć, e, p, l, u, t, k, o. */
  lemma {:induction false} CieplutkoDecoded()
    ensures Decode([Tau, EpsilonAcute, Pi, Lambda, UpsilonAcute, Tau, Kappa, Omicron]) == [Tx, E, P, L, U, T, K, O]
  {
    DecodeCieplutko([Tau, EpsilonAcute, Pi, Lambda, UpsilonAcute, Tau, Kappa, Omicron]);
  }

  /** The source's test: μ, π, α, ρ, δ, έ, ' reads as b, a, r, dź, e, j. */
  lemma {:induction false} BardziejDecoded()
    ensures Decode([Mu, Pi, Alpha, Rho, Delta, EpsilonAcute, Acute]) == [B, A, R, Dx, E, J]
  {
    DecodeBardziej([Mu, Pi, Alpha, Rho, Delta, EpsilonAcute, Acute]);
  }
}
