/**
 * The source's tests of the Greek writer: single steps of `consume_greek`,
 * and whole sound sequences written out by `to_greek`, which uses the
 * source's break set.  Each rendering is built one step at a time, from the
 * end of the sequence, by lemmas over any sound sequence with the right
 * sounds; only the test itself names the sequence.
 */
module GreekRenderExamples {
  import opened Sounds
  import opened Glyphs
  import opened GreekRender
  import opened PipelineRoundTrips

  /**
   * The source's tests of single steps: c is τσ and ć is τ with an acute,
   * each alone; ą is ω; ś before a is a run of one closed by ά.
   */
  lemma {:induction false} ConsumeGreekExamples(breakers: set<Sound>)
    ensures Step([C], breakers) == Emitted([Tau, Sigma], 1)
    ensures Step([Tx], breakers) == Emitted([Tau, Acute], 1)
    ensures Step([Ox], breakers) == Emitted([Omega], 1)
    ensures Step([Sx, A], breakers) == Emitted([Sigma, AlphaAcute], 2)
  {
    assert SoftenedRun([Sx, A]) == 1;
    assert [Sx, A][..1] == [Sx];
  }

  /** A softened sound other than i before a vowel other than y is a run of one: its plain letter, then the accented vowel. */
  lemma {:induction false} RenderSoftenedVowelHead(input: seq<Sound>, breakers: set<Sound>)
    requires |input| >= 2 && IsSoftened(input[0]) && input[0] != I && IsSoftenableVowel(input[1])
    ensures Render(input, breakers) == [SoftenedSoundToBaseGreek(input[0])] + SoftenVowel(input[1]) + Render(input[2..], breakers)
  {
    assert SoftenedRun(input[1..]) == 0;
    assert SoftenedRun(input) == 1;
    assert input[..1] == [input[0]];
    RenderByStep(input, breakers, [SoftenedSoundToBaseGreek(input[0])] + SoftenVowel(input[1]), 2);
  }

  /** A softened sound other than i that neither a vowel nor another such sound follows is its plain letter and a bare acute. */
  lemma {:induction false} RenderSoftenedAloneHead(input: seq<Sound>, breakers: set<Sound>)
    requires |input| >= 1 && IsSoftened(input[0]) && input[0] != I
    requires |input| >= 2 ==> !IsVowel(input[1]) && !(IsSoftened(input[1]) && input[1] != I)
    ensures Render(input, breakers) == [SoftenedSoundToBaseGreek(input[0]), Acute] + Render(input[1..], breakers)
  {
    if |input| >= 2 {
      assert SoftenedRun(input[1..]) == 0;
      assert SoftenedRun(input) == 1;
      assert input[..1] == [input[0]];
    }
    RenderByStep(input, breakers, [SoftenedSoundToBaseGreek(input[0]), Acute], 1);
  }

  /** j before anything but a vowel other than y and i is a bare acute. */
  lemma {:induction false} RenderJBareHead(input: seq<Sound>, breakers: set<Sound>)
    requires |input| >= 1 && input[0] == J
    requires |input| >= 2 ==> !(IsVowel(input[1]) && input[1] != Y && input[1] != I)
    ensures Render(input, breakers) == [Acute] + Render(input[1..], breakers)
  {
    assert SoftenedRun(input) == 0;
    RenderByStep(input, breakers, [Acute], 1);
  }

  /** ł, o, ś, ć is rendered one step at a time. */
  lemma {:induction false} RenderTailLxOSxTx(t: seq<Sound>)
    requires |t| == 4 && t[0] == Lx && t[1] == O && t[2] == Sx && t[3] == Tx
    ensures Render(t, SourceBreakers) == [Lambda] + ([Omicron] + [Sigma, Tau, Acute])
  {
    RenderPlainHead(t, SourceBreakers);
    RenderOsc(t[1..]);
  }

  /** a, ł, o, ś, ć is rendered one step at a time. */
  lemma {:induction false} RenderTailALxOSxTx(t: seq<Sound>)
    requires |t| == 5 && t[0] == A && t[1] == Lx && t[2] == O && t[3] == Sx && t[4] == Tx
    ensures Render(t, SourceBreakers) == [Alpha] + ([Lambda] + ([Omicron] + [Sigma, Tau, Acute]))
  {
    RenderPlainHead(t, SourceBreakers);
    RenderTailLxOSxTx(t[1..]);
  }

  /** c, a, ł, o, ś, ć is rendered one step at a time. */
  lemma {:induction false} RenderCalosc(t: seq<Sound>)
    requires |t| == 6 && t[0] == C && t[1] == A && t[2] == Lx && t[3] == O && t[4] == Sx
    requires t[5] == Tx
    ensures Render(t, SourceBreakers) == [Tau, Sigma] + ([Alpha] + ([Lambda] + ([Omicron] + [Sigma, Tau, Acute])))
  {
    RenderPlainHead(t, SourceBreakers);
    RenderTailALxOSxTx(t[1..]);
  }

  /** The letters of "τσαλοστ'" are those of its rendering. */
  lemma {:induction false} CaloscLetters()
    ensures forall k :: 0 <= k < 8 ==> "τσαλοστ'"[k] == ToChar(([Tau, Sigma] + ([Alpha] + ([Lambda] + ([Omicron] + [Sigma, Tau, Acute]))))[k])
  {
  }

  /** The source's test: c, a, ł, o, ś, ć is written "τσαλοστ'". */
  lemma {:induction false} ToGreekCalosc()
    ensures ToGreek([C, A, Lx, O, Sx, Tx], SourceBreakers) == "τσαλοστ'"
  {
    RenderCalosc([C, A, Lx, O, Sx, Tx]);
    CaloscLetters();
    WrittenAs([C, A, Lx, O, Sx, Tx], SourceBreakers, [Tau, Sigma] + ([Alpha] + ([Lambda] + ([Omicron] + [Sigma, Tau, Acute]))), "τσαλοστ'");
  }

  /** ś, ć, i is rendered one step at a time. */
  lemma {:induction false} RenderTailSxTxI(t: seq<Sound>)
    requires |t| == 3 && t[0] == Sx && t[1] == Tx && t[2] == I
    ensures Render(t, SourceBreakers) == [Sigma, Tau, IotaAcute]
  {
    assert SoftenedRun(t[1..][1..]) == 0;
    assert SoftenedRun(t[1..]) == 1;
    assert SoftenedRun(t) == 2;
    assert t[..2] == [Sx, Tx];
    assert Step(t, SourceBreakers) == Emitted([Sigma, Tau, IotaAcute], 3);
    assert Render(t[3..], SourceBreakers) == [];
  }

  /** o, ś, ć, i is rendered one step at a time. */
  lemma {:induction false} RenderTailOSxTxI(t: seq<Sound>)
    requires |t| == 4 && t[0] == O && t[1] == Sx && t[2] == Tx && t[3] == I
    ensures Render(t, SourceBreakers) == [Omicron] + [Sigma, Tau, IotaAcute]
  {
    RenderPlainHead(t, SourceBreakers);
    RenderTailSxTxI(t[1..]);
  }

  /** d, o, ś, ć, i is rendered one step at a time. */
  lemma {:induction false} RenderTailDOSxTxI(t: seq<Sound>)
    requires |t| == 5 && t[0] == D && t[1] == O && t[2] == Sx && t[3] == Tx && t[4] == I
    ensures Render(t, SourceBreakers) == [Delta] + ([Omicron] + [Sigma, Tau, IotaAcute])
  {
    RenderPlainHead(t, SourceBreakers);
    RenderTailOSxTxI(t[1..]);
  }

  /** a, d, o, ś, ć, i is rendered one step at a time. */
  lemma {:induction false} RenderTailADOSxTxI(t: seq<Sound>)
    requires |t| == 6 && t[0] == A && t[1] == D && t[2] == O && t[3] == Sx && t[4] == Tx
    requires t[5] == I
    ensures Render(t, SourceBreakers) == [Alpha] + ([Delta] + ([Omicron] + [Sigma, Tau, IotaAcute]))
  {
    RenderPlainHead(t, SourceBreakers);
    RenderTailDOSxTxI(t[1..]);
  }

  /** r, a, d, o, ś, ć, i is rendered one step at a time. */
  lemma {:induction false} RenderRadosci(t: seq<Sound>)
    requires |t| == 7 && t[0] == R && t[1] == A && t[2] == D && t[3] == O && t[4] == Sx
    requires t[5] == Tx && t[6] == I
    ensures Render(t, SourceBreakers) == [Rho] + ([Alpha] + ([Delta] + ([Omicron] + [Sigma, Tau, IotaAcute])))
  {
    RenderPlainHead(t, SourceBreakers);
    RenderTailADOSxTxI(t[1..]);
  }

  /** The letters of "ραδοστί" are those of its rendering. */
  lemma {:induction false} RadosciLetters()
    ensures forall k :: 0 <= k < 7 ==> "ραδοστί"[k] == ToChar(([Rho] + ([Alpha] + ([Delta] + ([Omicron] + [Sigma, Tau, IotaAcute]))))[k])
  {
  }

  /** The source's test: r, a, d, o, ś, ć, i is written "ραδοστί". */
  lemma {:induction false} ToGreekRadosci()
    ensures ToGreek([R, A, D, O, Sx, Tx, I], SourceBreakers) == "ραδοστί"
  {
    RenderRadosci([R, A, D, O, Sx, Tx, I]);
    RadosciLetters();
    WrittenAs([R, A, D, O, Sx, Tx, I], SourceBreakers, [Rho] + ([Alpha] + ([Delta] + ([Omicron] + [Sigma, Tau, IotaAcute]))), "ραδοστί");
  }

  /** o is rendered one step at a time. */
  lemma {:induction false} RenderTailO(t: seq<Sound>)
    requires |t| == 1 && t[0] == O
    ensures Render(t, SourceBreakers) == [Omicron]
  {
    RenderPlainHead(t, SourceBreakers);
    assert Render(t[1..], SourceBreakers) == [];
  }

  /** w, o is rendered one step at a time. */
  lemma {:induction false} RenderTailWO(t: seq<Sound>)
    requires |t| == 2 && t[0] == W && t[1] == O
    ensures Render(t, SourceBreakers) == [Beta] + [Omicron]
  {
    RenderPlainHead(t, SourceBreakers);
    RenderTailO(t[1..]);
  }

  /** t, w, o is rendered one step at a time. */
  lemma {:induction false} RenderTailTWO(t: seq<Sound>)
    requires |t| == 3 && t[0] == T && t[1] == W && t[2] == O
    ensures Render(t, SourceBreakers) == [Tau] + ([Beta] + [Omicron])
  {
    RenderPlainHead(t, SourceBreakers);
    RenderTailWO(t[1..]);
  }

  /** l, i, t, w, o is rendered one step at a time. */
  lemma {:induction false} RenderLitwo(t: seq<Sound>)
    requires |t| == 5 && t[0] == L && t[1] == I && t[2] == T && t[3] == W && t[4] == O
    ensures Render(t, SourceBreakers) == [Lambda, IotaAcute] + ([Tau] + ([Beta] + [Omicron]))
  {
    RenderSoftenedVowelHead(t, SourceBreakers);
    RenderTailTWO(t[2..]);
  }

  /** The letters of "λίτβο" are those of its rendering. */
  lemma {:induction false} LitwoLetters()
    ensures forall k :: 0 <= k < 5 ==> "λίτβο"[k] == ToChar(([Lambda, IotaAcute] + ([Tau] + ([Beta] + [Omicron])))[k])
  {
  }

  /** The source's test: l, i, t, w, o is written "λίτβο". */
  lemma {:induction false} ToGreekLitwo()
    ensures ToGreek([L, I, T, W, O], SourceBreakers) == "λίτβο"
  {
    RenderLitwo([L, I, T, W, O]);
    LitwoLetters();
    WrittenAs([L, I, T, W, O], SourceBreakers, [Lambda, IotaAcute] + ([Tau] + ([Beta] + [Omicron])), "λίτβο");
  }

  /** n, o is rendered one step at a time. */
  lemma {:induction false} RenderTailNO(t: seq<Sound>)
    requires |t| == 2 && t[0] == N && t[1] == O
    ensures Render(t, SourceBreakers) == [Nu] + [Omicron]
  {
    RenderPlainHead(t, SourceBreakers);
    RenderTailO(t[1..]);
  }

  /** z, n, o is rendered one step at a time. */
  lemma {:induction false} RenderTailZNO(t: seq<Sound>)
    requires |t| == 3 && t[0] == Z && t[1] == N && t[2] == O
    ensures Render(t, SourceBreakers) == [Zeta] + ([Nu] + [Omicron])
  {
    RenderPlainHead(t, SourceBreakers);
    RenderTailNO(t[1..]);
  }

  /** y, z, n, o is rendered one step at a time. */
  lemma {:induction false} RenderTailYZNO(t: seq<Sound>)
    requires |t| == 4 && t[0] == Y && t[1] == Z && t[2] == N && t[3] == O
    ensures Render(t, SourceBreakers) == [Iota] + ([Zeta] + ([Nu] + [Omicron]))
  {
    RenderPlainHead(t, SourceBreakers);
    RenderTailZNO(t[1..]);
  }

  /** cz, y, z, n, o is rendered one step at a time. */
  lemma {:induction false} RenderTailChYZNO(t: seq<Sound>)
    requires |t| == 5 && t[0] == Ch && t[1] == Y && t[2] == Z && t[3] == N && t[4] == O
    ensures Render(t, SourceBreakers) == [Theta] + ([Iota] + ([Zeta] + ([Nu] + [Omicron])))
  {
    RenderPlainHead(t, SourceBreakers);
    RenderTailYZNO(t[1..]);
  }

  /** j, cz, y, z, n, o is rendered one step at a time. */
  lemma {:induction false} RenderTailJChYZNO(t: seq<Sound>)
    requires |t| == 6 && t[0] == J && t[1] == Ch && t[2] == Y && t[3] == Z && t[4] == N
    requires t[5] == O
    ensures Render(t, SourceBreakers) == [Acute] + ([Theta] + ([Iota] + ([Zeta] + ([Nu] + [Omicron]))))
  {
    RenderJBareHead(t, SourceBreakers);
    RenderTailChYZNO(t[1..]);
  }

  /** o, j, cz, y, z, n, o is rendered one step at a time. */
  lemma {:induction false} RenderOjczyzno(t: seq<Sound>)
    requires |t| == 7 && t[0] == O && t[1] == J && t[2] == Ch && t[3] == Y && t[4] == Z
    requires t[5] == N && t[6] == O
    ensures Render(t, SourceBreakers) == [Omicron] + ([Acute] + ([Theta] + ([Iota] + ([Zeta] + ([Nu] + [Omicron])))))
  {
    RenderPlainHead(t, SourceBreakers);
    RenderTailJChYZNO(t[1..]);
  }

  /** The letters of "ο'θιζνο" are those of its rendering. */
  lemma {:induction false} OjczyznoLetters()
    ensures forall k :: 0 <= k < 7 ==> "ο'θιζνο"[k] == ToChar(([Omicron] + ([Acute] + ([Theta] + ([Iota] + ([Zeta] + ([Nu] + [Omicron]))))))[k])
  {
  }

  /** The source's test: o, j, cz, y, z, n, o is written "ο'θιζνο". */
  lemma {:induction false} ToGreekOjczyzno()
    ensures ToGreek([O, J, Ch, Y, Z, N, O], SourceBreakers) == "ο'θιζνο"
  {
    RenderOjczyzno([O, J, Ch, Y, Z, N, O]);
    OjczyznoLetters();
    WrittenAs([O, J, Ch, Y, Z, N, O], SourceBreakers, [Omicron] + ([Acute] + ([Theta] + ([Iota] + ([Zeta] + ([Nu] + [Omicron]))))), "ο'θιζνο");
  }

  /** j, a is rendered one step at a time. */
  lemma {:induction false} RenderTailJA(t: seq<Sound>)
    requires |t| == 2 && t[0] == J && t[1] == A
    ensures Render(t, SourceBreakers) == [AlphaAcute]
  {
    RenderJVowelHead(t, SourceBreakers);
    assert Render(t[2..], SourceBreakers) == [];
  }

  /** o, j, a is rendered one step at a time. */
  lemma {:induction false} RenderTailOJA(t: seq<Sound>)
    requires |t| == 3 && t[0] == O && t[1] == J && t[2] == A
    ensures Render(t, SourceBreakers) == [Omicron] + [AlphaAcute]
  {
    RenderPlainHead(t, SourceBreakers);
    RenderTailJA(t[1..]);
  }

  /** m, o, j, a is rendered one step at a time. */
  lemma {:induction false} RenderMoja(t: seq<Sound>)
    requires |t| == 4 && t[0] == M && t[1] == O && t[2] == J && t[3] == A
    ensures Render(t, SourceBreakers) == [Mu] + ([Omicron] + [AlphaAcute])
  {
    RenderPlainHead(t, SourceBreakers);
    RenderTailOJA(t[1..]);
  }

  /** The letters of "μοά" are those of its rendering. */
  lemma {:induction false} MojaLetters()
    ensures forall k :: 0 <= k < 3 ==> "μοά"[k] == ToChar(([Mu] + ([Omicron] + [AlphaAcute]))[k])
  {
  }

  /** The source's test: m, o, j, a is written "μοά". */
  lemma {:induction false} ToGreekMoja()
    ensures ToGreek([M, O, J, A], SourceBreakers) == "μοά"
  {
    RenderMoja([M, O, J, A]);
    MojaLetters();
    WrittenAs([M, O, J, A], SourceBreakers, [Mu] + ([Omicron] + [AlphaAcute]), "μοά");
  }

  /** y is rendered one step at a time. */
  lemma {:induction false} RenderTailY(t: seq<Sound>)
    requires |t| == 1 && t[0] == Y
    ensures Render(t, SourceBreakers) == [Iota]
  {
    RenderPlainHead(t, SourceBreakers);
    assert Render(t[1..], SourceBreakers) == [];
  }

  /** t, y is rendered one step at a time. */
  lemma {:induction false} RenderTy(t: seq<Sound>)
    requires |t| == 2 && t[0] == T && t[1] == Y
    ensures Render(t, SourceBreakers) == [Tau] + [Iota]
  {
    RenderPlainHead(t, SourceBreakers);
    RenderTailY(t[1..]);
  }

  /** The letters of "τι" are those of its rendering. */
  lemma {:induction false} TyLetters()
    ensures forall k :: 0 <= k < 2 ==> "τι"[k] == ToChar(([Tau] + [Iota])[k])
  {
  }

  /** The source's test: t, y is written "τι". */
  lemma {:induction false} ToGreekTy()
    ensures ToGreek([T, Y], SourceBreakers) == "τι"
  {
    RenderTy([T, Y]);
    TyLetters();
    WrittenAs([T, Y], SourceBreakers, [Tau] + [Iota], "τι");
  }

  /** ś is rendered one step at a time. */
  lemma {:induction false} RenderTailSx(t: seq<Sound>)
    requires |t| == 1 && t[0] == Sx
    ensures Render(t, SourceBreakers) == [Sigma, Acute]
  {
    RenderSoftenedAloneHead(t, SourceBreakers);
    assert Render(t[1..], SourceBreakers) == [];
  }

  /** e, ś is rendered one step at a time. */
  lemma {:induction false} RenderTailESx(t: seq<Sound>)
    requires |t| == 2 && t[0] == E && t[1] == Sx
    ensures Render(t, SourceBreakers) == [Epsilon] + [Sigma, Acute]
  {
    RenderPlainHead(t, SourceBreakers);
    RenderTailSx(t[1..]);
  }

  /** t, e, ś is rendered one step at a time. */
  lemma {:induction false} RenderTailTESx(t: seq<Sound>)
    requires |t| == 3 && t[0] == T && t[1] == E && t[2] == Sx
    ensures Render(t, SourceBreakers) == [Tau] + ([Epsilon] + [Sigma, Acute])
  {
    RenderPlainHead(t, SourceBreakers);
    RenderTailESx(t[1..]);
  }

  /** s, t, e, ś is rendered one step at a time. */
  lemma {:induction false} RenderTailSTESx(t: seq<Sound>)
    requires |t| == 4 && t[0] == S && t[1] == T && t[2] == E && t[3] == Sx
    ensures Render(t, SourceBreakers) == [Sigma] + ([Tau] + ([Epsilon] + [Sigma, Acute]))
  {
    RenderPlainHead(t, SourceBreakers);
    RenderTailTESx(t[1..]);
  }

  /** j, e, s, t, e, ś is rendered one step at a time. */
  lemma {:induction false} RenderJestes(t: seq<Sound>)
    requires |t| == 6 && t[0] == J && t[1] == E && t[2] == S && t[3] == T && t[4] == E
    requires t[5] == Sx
    ensures Render(t, SourceBreakers) == [EpsilonAcute] + ([Sigma] + ([Tau] + ([Epsilon] + [Sigma, Acute])))
  {
    RenderJVowelHead(t, SourceBreakers);
    RenderTailSTESx(t[2..]);
  }

  /** The letters of "έστεσ'" are those of its rendering. */
  lemma {:induction false} JestesLetters()
    ensures forall k :: 0 <= k < 6 ==> "έστεσ'"[k] == ToChar(([EpsilonAcute] + ([Sigma] + ([Tau] + ([Epsilon] + [Sigma, Acute]))))[k])
  {
  }

  /** The source's test: j, e, s, t, e, ś is written "έστεσ'". */
  lemma {:induction false} ToGreekJestes()
    ensures ToGreek([J, E, S, T, E, Sx], SourceBreakers) == "έστεσ'"
  {
    RenderJestes([J, E, S, T, E, Sx]);
    JestesLetters();
    WrittenAs([J, E, S, T, E, Sx], SourceBreakers, [EpsilonAcute] + ([Sigma] + ([Tau] + ([Epsilon] + [Sigma, Acute]))), "έστεσ'");
  }

  /** k is rendered one step at a time. */
  lemma {:induction false} RenderTailK(t: seq<Sound>)
    requires |t| == 1 && t[0] == K
    ensures Render(t, SourceBreakers) == [Kappa]
  {
    RenderPlainHead(t, SourceBreakers);
    assert Render(t[1..], SourceBreakers) == [];
  }

  /** j, a, k is rendered one step at a time. */
  lemma {:induction false} RenderJak(t: seq<Sound>)
    requires |t| == 3 && t[0] == J && t[1] == A && t[2] == K
    ensures Render(t, SourceBreakers) == [AlphaAcute] + [Kappa]
  {
    RenderJVowelHead(t, SourceBreakers);
    RenderTailK(t[2..]);
  }

  /** The letters of "άκ" are those of its rendering. */
  lemma {:induction false} JakLetters()
    ensures forall k :: 0 <= k < 2 ==> "άκ"[k] == ToChar(([AlphaAcute] + [Kappa])[k])
  {
  }

  /** The source's test: j, a, k is written "άκ". */
  lemma {:induction false} ToGreekJak()
    ensures ToGreek([J, A, K], SourceBreakers) == "άκ"
  {
    RenderJak([J, A, K]);
    JakLetters();
    WrittenAs([J, A, K], SourceBreakers, [AlphaAcute] + [Kappa], "άκ");
  }

  /** j, e is rendered one step at a time. */
  lemma {:induction false} RenderTailJE(t: seq<Sound>)
    requires |t| == 2 && t[0] == J && t[1] == E
    ensures Render(t, SourceBreakers) == [EpsilonAcute]
  {
    RenderJVowelHead(t, SourceBreakers);
    assert Render(t[2..], SourceBreakers) == [];
  }

  /** w, j, e is rendered one step at a time. */
  lemma {:induction false} RenderTailWJE(t: seq<Sound>)
    requires |t| == 3 && t[0] == W && t[1] == J && t[2] == E
    ensures Render(t, SourceBreakers) == [Beta] + [EpsilonAcute]
  {
    RenderPlainHead(t, SourceBreakers);
    RenderTailJE(t[1..]);
  }

  /** o, w, j, e is rendered one step at a time. */
  lemma {:induction false} RenderTailOWJE(t: seq<Sound>)
    requires |t| == 4 && t[0] == O && t[1] == W && t[2] == J && t[3] == E
    ensures Render(t, SourceBreakers) == [Omicron] + ([Beta] + [EpsilonAcute])
  {
    RenderPlainHead(t, SourceBreakers);
    RenderTailWJE(t[1..]);
  }

  /** r, o, w, j, e is rendered one step at a time. */
  lemma {:induction false} RenderTailROWJE(t: seq<Sound>)
    requires |t| == 5 && t[0] == R && t[1] == O && t[2] == W && t[3] == J && t[4] == E
    ensures Render(t, SourceBreakers) == [Rho] + ([Omicron] + ([Beta] + [EpsilonAcute]))
  {
    RenderPlainHead(t, SourceBreakers);
    RenderTailOWJE(t[1..]);
  }

  /** d, r, o, w, j, e is rendered one step at a time. */
  lemma {:induction false} RenderTailDROWJE(t: seq<Sound>)
    requires |t| == 6 && t[0] == D && t[1] == R && t[2] == O && t[3] == W && t[4] == J
    requires t[5] == E
    ensures Render(t, SourceBreakers) == [Delta] + ([Rho] + ([Omicron] + ([Beta] + [EpsilonAcute])))
  {
    RenderPlainHead(t, SourceBreakers);
    RenderTailROWJE(t[1..]);
  }

  /** z, d, r, o, w, j, e is rendered one step at a time. */
  lemma {:induction false} RenderZdrowje(t: seq<Sound>)
    requires |t| == 7 && t[0] == Z && t[1] == D && t[2] == R && t[3] == O && t[4] == W
    requires t[5] == J && t[6] == E
    ensures Render(t, SourceBreakers) == [Zeta] + ([Delta] + ([Rho] + ([Omicron] + ([Beta] + [EpsilonAcute]))))
  {
    RenderPlainHead(t, SourceBreakers);
    RenderTailDROWJE(t[1..]);
  }

  /** The letters of "ζδροβέ" are those of its rendering. */
  lemma {:induction false} ZdrowjeLetters()
    ensures forall k :: 0 <= k < 6 ==> "ζδροβέ"[k] == ToChar(([Zeta] + ([Delta] + ([Rho] + ([Omicron] + ([Beta] + [EpsilonAcute])))))[k])
  {
  }

  /** The source's test: z, d, r, o, w, j, e is written "ζδροβέ". */
  lemma {:induction false} ToGreekZdrowje()
    ensures ToGreek([Z, D, R, O, W, J, E], SourceBreakers) == "ζδροβέ"
  {
    RenderZdrowje([Z, D, R, O, W, J, E]);
    ZdrowjeLetters();
    WrittenAs([Z, D, R, O, W, J, E], SourceBreakers, [Zeta] + ([Delta] + ([Rho] + ([Omicron] + ([Beta] + [EpsilonAcute])))), "ζδροβέ");
  }

  /** l, e is rendered one step at a time. */
  lemma {:induction false} RenderTailLE(t: seq<Sound>)
    requires |t| == 2 && t[0] == L && t[1] == E
    ensures Render(t, SourceBreakers) == [Lambda, EpsilonAcute]
  {
    RenderSoftenedVowelHead(t, SourceBreakers);
    assert Render(t[2..], SourceBreakers) == [];
  }

  /** i, l, e is rendered one step at a time. */
  lemma {:induction false} RenderIle(t: seq<Sound>)
    requires |t| == 3 && t[0] == I && t[1] == L && t[2] == E
    ensures Render(t, SourceBreakers) == [IotaAcute] + [Lambda, EpsilonAcute]
  {
    RenderPlainHead(t, SourceBreakers);
    RenderTailLE(t[1..]);
  }

  /** The letters of "ίλέ" are those of its rendering. */
  lemma {:induction false} IleLetters()
    ensures forall k :: 0 <= k < 3 ==> "ίλέ"[k] == ToChar(([IotaAcute] + [Lambda, EpsilonAcute])[k])
  {
  }

  /** The source's test: i, l, e is written "ίλέ". */
  lemma {:induction false} ToGreekIle()
    ensures ToGreek([I, L, E], SourceBreakers) == "ίλέ"
  {
    RenderIle([I, L, E]);
    IleLetters();
    WrittenAs([I, L, E], SourceBreakers, [IotaAcute] + [Lambda, EpsilonAcute], "ίλέ");
  }

  /** ć, ę is rendered one step at a time. */
  lemma {:induction false} RenderCie(t: seq<Sound>)
    requires |t| == 2 && t[0] == Tx && t[1] == Ex
    ensures Render(t, SourceBreakers) == [Tau, EtaAcute]
  {
    RenderSoftenedVowelHead(t, SourceBreakers);
    assert Render(t[2..], SourceBreakers) == [];
  }

  /** The letters of "τή" are those of its rendering. */
  lemma {:induction false} CieLetters()
    ensures forall k :: 0 <= k < 2 ==> "τή"[k] == ToChar(([Tau, EtaAcute])[k])
  {
  }

  /** The source's test: ć, ę is written "τή". */
  lemma {:induction false} ToGreekCie()
    ensures ToGreek([Tx, Ex], SourceBreakers) == "τή"
  {
    RenderCie([Tx, Ex]);
    CieLetters();
    WrittenAs([Tx, Ex], SourceBreakers, [Tau, EtaAcute], "τή");
  }

  /** a is rendered one step at a time. */
  lemma {:induction false} RenderTailA(t: seq<Sound>)
    requires |t| == 1 && t[0] == A
    ensures Render(t, SourceBreakers) == [Alpha]
  {
    RenderPlainHead(t, SourceBreakers);
    assert Render(t[1..], SourceBreakers) == [];
  }

  /** b, a is rendered one step at a time. */
  lemma {:induction false} RenderTailBA(t: seq<Sound>)
    requires |t| == 2 && t[0] == B && t[1] == A
    ensures Render(t, SourceBreakers) == [Mu, Pi] + [Alpha]
  {
    RenderPlainHead(t, SourceBreakers);
    RenderTailA(t[1..]);
  }

  /** rz, e, b, a is rendered one step at a time. */
  lemma {:induction false} RenderTailRxEBA(t: seq<Sound>)
    requires |t| == 4 && t[0] == Rx && t[1] == E && t[2] == B && t[3] == A
    ensures Render(t, SourceBreakers) == [Rho, EpsilonAcute] + ([Mu, Pi] + [Alpha])
  {
    RenderSoftenedVowelHead(t, SourceBreakers);
    RenderTailBA(t[2..]);
  }

  /** t, rz, e, b, a is rendered one step at a time. */
  lemma {:induction false} RenderTrzeba(t: seq<Sound>)
    requires |t| == 5 && t[0] == T && t[1] == Rx && t[2] == E && t[3] == B && t[4] == A
    ensures Render(t, SourceBreakers) == [Tau] + ([Rho, EpsilonAcute] + ([Mu, Pi] + [Alpha]))
  {
    RenderPlainHead(t, SourceBreakers);
    RenderTailRxEBA(t[1..]);
  }

  /** The letters of "τρέμπα" are those of its rendering. */
  lemma {:induction false} TrzebaLetters()
    ensures forall k :: 0 <= k < 6 ==> "τρέμπα"[k] == ToChar(([Tau] + ([Rho, EpsilonAcute] + ([Mu, Pi] + [Alpha])))[k])
  {
  }

  /** The source's test: t, rz, e, b, a is written "τρέμπα". */
  lemma {:induction false} ToGreekTrzeba()
    ensures ToGreek([T, Rx, E, B, A], SourceBreakers) == "τρέμπα"
  {
    RenderTrzeba([T, Rx, E, B, A]);
    TrzebaLetters();
    WrittenAs([T, Rx, E, B, A], SourceBreakers, [Tau] + ([Rho, EpsilonAcute] + ([Mu, Pi] + [Alpha])), "τρέμπα");
  }

  /** ć is rendered one step at a time. */
  lemma {:induction false} RenderTailTx(t: seq<Sound>)
    requires |t| == 1 && t[0] == Tx
    ensures Render(t, SourceBreakers) == [Tau, Acute]
  {
    RenderSoftenedAloneHead(t, SourceBreakers);
    assert Render(t[1..], SourceBreakers) == [];
  }

  /** ń, i, ć is rendered one step at a time. */
  lemma {:induction false} RenderTailNxITx(t: seq<Sound>)
    requires |t| == 3 && t[0] == Nx && t[1] == I && t[2] == Tx
    ensures Render(t, SourceBreakers) == [Nu, IotaAcute] + [Tau, Acute]
  {
    RenderSoftenedVowelHead(t, SourceBreakers);
    RenderTailTx(t[2..]);
  }

  /** e, ń, i, ć is rendered one step at a time. */
  lemma {:induction false} RenderTailENxITx(t: seq<Sound>)
    requires |t| == 4 && t[0] == E && t[1] == Nx && t[2] == I && t[3] == Tx
    ensures Render(t, SourceBreakers) == [Epsilon] + ([Nu, IotaAcute] + [Tau, Acute])
  {
    RenderPlainHead(t, SourceBreakers);
    RenderTailNxITx(t[1..]);
  }

  /** c, e, ń, i, ć is rendered one step at a time. */
  lemma {:induction false} RenderCenic(t: seq<Sound>)
    requires |t| == 5 && t[0] == C && t[1] == E && t[2] == Nx && t[3] == I && t[4] == Tx
    ensures Render(t, SourceBreakers) == [Tau, Sigma] + ([Epsilon] + ([Nu, IotaAcute] + [Tau, Acute]))
  {
    RenderPlainHead(t, SourceBreakers);
    RenderTailENxITx(t[1..]);
  }

  /** The letters of "τσενίτ'" are those of its rendering. */
  lemma {:induction false} CenicLetters()
    ensures forall k :: 0 <= k < 7 ==> "τσενίτ'"[k] == ToChar(([Tau, Sigma] + ([Epsilon] + ([Nu, IotaAcute] + [Tau, Acute])))[k])
  {
  }

  /** The source's test: c, e, ń, i, ć is written "τσενίτ'". */
  lemma {:induction false} ToGreekCenic()
    ensures ToGreek([C, E, Nx, I, Tx], SourceBreakers) == "τσενίτ'"
  {
    RenderCenic([C, E, Nx, I, Tx]);
    CenicLetters();
    WrittenAs([C, E, Nx, I, Tx], SourceBreakers, [Tau, Sigma] + ([Epsilon] + ([Nu, IotaAcute] + [Tau, Acute])), "τσενίτ'");
  }

  /** n is rendered one step at a time. */
  lemma {:induction false} RenderTailN(t: seq<Sound>)
    requires |t| == 1 && t[0] == N
    ensures Render(t, SourceBreakers) == [Nu]
  {
    RenderPlainHead(t, SourceBreakers);
    assert Render(t[1..], SourceBreakers) == [];
  }

  /** e, n is rendered one step at a time. */
  lemma {:induction false} RenderTailEN(t: seq<Sound>)
    requires |t| == 2 && t[0] == E && t[1] == N
    ensures Render(t, SourceBreakers) == [Epsilon] + [Nu]
  {
    RenderPlainHead(t, SourceBreakers);
    RenderTailN(t[1..]);
  }

  /** t, e, n is rendered one step at a time. */
  lemma {:induction false} RenderTen(t: seq<Sound>)
    requires |t| == 3 && t[0] == T && t[1] == E && t[2] == N
    ensures Render(t, SourceBreakers) == [Tau] + ([Epsilon] + [Nu])
  {
    RenderPlainHead(t, SourceBreakers);
    RenderTailEN(t[1..]);
  }

  /** The letters of "τεν" are those of its rendering. */
  lemma {:induction false} TenLetters()
    ensures forall k :: 0 <= k < 3 ==> "τεν"[k] == ToChar(([Tau] + ([Epsilon] + [Nu]))[k])
  {
  }

  /** The source's test: t, e, n is written "τεν". */
  lemma {:induction false} ToGreekTen()
    ensures ToGreek([T, E, N], SourceBreakers) == "τεν"
  {
    RenderTen([T, E, N]);
    TenLetters();
    WrittenAs([T, E, N], SourceBreakers, [Tau] + ([Epsilon] + [Nu]), "τεν");
  }

  /** k, o is rendered one step at a time. */
  lemma {:induction false} RenderTailKO(t: seq<Sound>)
    requires |t| == 2 && t[0] == K && t[1] == O
    ensures Render(t, SourceBreakers) == [Kappa] + [Omicron]
  {
    RenderPlainHead(t, SourceBreakers);
    RenderTailO(t[1..]);
  }

  /** l, k, o is rendered one step at a time. */
  lemma {:induction false} RenderTailLKO(t: seq<Sound>)
    requires |t| == 3 && t[0] == L && t[1] == K && t[2] == O
    ensures Render(t, SourceBreakers) == [Lambda, Acute] + ([Kappa] + [Omicron])
  {
    RenderSoftenedAloneHead(t, SourceBreakers);
    RenderTailKO(t[1..]);
  }

  /** y, l, k, o is rendered one step at a time. */
  lemma {:induction false} RenderTailYLKO(t: seq<Sound>)
    requires |t| == 4 && t[0] == Y && t[1] == L && t[2] == K && t[3] == O
    ensures Render(t, SourceBreakers) == [Iota] + ([Lambda, Acute] + ([Kappa] + [Omicron]))
  {
    RenderPlainHead(t, SourceBreakers);
    RenderTailLKO(t[1..]);
  }

  /** t, y, l, k, o is rendered one step at a time. */
  lemma {:induction false} RenderTylko(t: seq<Sound>)
    requires |t| == 5 && t[0] == T && t[1] == Y && t[2] == L && t[3] == K && t[4] == O
    ensures Render(t, SourceBreakers) == [Tau] + ([Iota] + ([Lambda, Acute] + ([Kappa] + [Omicron])))
  {
    RenderPlainHead(t, SourceBreakers);
    RenderTailYLKO(t[1..]);
  }

  /** The letters of "τιλ'κο" are those of its rendering. */
  lemma {:induction false} TylkoLetters()
    ensures forall k :: 0 <= k < 6 ==> "τιλ'κο"[k] == ToChar(([Tau] + ([Iota] + ([Lambda, Acute] + ([Kappa] + [Omicron]))))[k])
  {
  }

  /** The source's test: t, y, l, k, o is written "τιλ'κο". */
  lemma {:induction false} ToGreekTylko()
    ensures ToGreek([T, Y, L, K, O], SourceBreakers) == "τιλ'κο"
  {
    RenderTylko([T, Y, L, K, O]);
    TylkoLetters();
    WrittenAs([T, Y, L, K, O], SourceBreakers, [Tau] + ([Iota] + ([Lambda, Acute] + ([Kappa] + [Omicron]))), "τιλ'κο");
  }

  /** ś, ę is rendered one step at a time. */
  lemma {:induction false} RenderSie(t: seq<Sound>)
    requires |t| == 2 && t[0] == Sx && t[1] == Ex
    ensures Render(t, SourceBreakers) == [Sigma, EtaAcute]
  {
    RenderSoftenedVowelHead(t, SourceBreakers);
    assert Render(t[2..], SourceBreakers) == [];
  }

  /** The letters of "σή" are those of its rendering. */
  lemma {:induction false} SieLetters()
    ensures forall k :: 0 <= k < 2 ==> "σή"[k] == ToChar(([Sigma, EtaAcute])[k])
  {
  }

  /** The source's test: ś, ę is written "σή". */
  lemma {:induction false} ToGreekSie()
    ensures ToGreek([Sx, Ex], SourceBreakers) == "σή"
  {
    RenderSie([Sx, Ex]);
    SieLetters();
    WrittenAs([Sx, Ex], SourceBreakers, [Sigma, EtaAcute], "σή");
  }

  /** d, o, w, j, e is rendered one step at a time. */
  lemma {:induction false} RenderDowje(t: seq<Sound>)
    requires |t| == 5 && t[0] == D && t[1] == O && t[2] == W && t[3] == J && t[4] == E
    ensures Render(t, SourceBreakers) == [Delta] + ([Omicron] + ([Beta] + [EpsilonAcute]))
  {
    RenderPlainHead(t, SourceBreakers);
    RenderTailOWJE(t[1..]);
  }

  /** The letters of "δοβέ" are those of its rendering. */
  lemma {:induction false} DowjeLetters()
    ensures forall k :: 0 <= k < 4 ==> "δοβέ"[k] == ToChar(([Delta] + ([Omicron] + ([Beta] + [EpsilonAcute])))[k])
  {
  }

  /** The source's test: d, o, w, j, e is written "δοβέ". */
  lemma {:induction false} ToGreekDowje()
    ensures ToGreek([D, O, W, J, E], SourceBreakers) == "δοβέ"
  {
    RenderDowje([D, O, W, J, E]);
    DowjeLetters();
    WrittenAs([D, O, W, J, E], SourceBreakers, [Delta] + ([Omicron] + ([Beta] + [EpsilonAcute])), "δοβέ");
  }

  /** c, o is rendered one step at a time. */
  lemma {:induction false} RenderCo(t: seq<Sound>)
    requires |t| == 2 && t[0] == C && t[1] == O
    ensures Render(t, SourceBreakers) == [Tau, Sigma] + [Omicron]
  {
    RenderPlainHead(t, SourceBreakers);
    RenderTailO(t[1..]);
  }

  /** The letters of "τσο" are those of its rendering. */
  lemma {:induction false} CoLetters()
    ensures forall k :: 0 <= k < 3 ==> "τσο"[k] == ToChar(([Tau, Sigma] + [Omicron])[k])
  {
  }

  /** The source's test: c, o is written "τσο". */
  lemma {:induction false} ToGreekCo()
    ensures ToGreek([C, O], SourceBreakers) == "τσο"
  {
    RenderCo([C, O]);
    CoLetters();
    WrittenAs([C, O], SourceBreakers, [Tau, Sigma] + [Omicron], "τσο");
  }

  /** ł is rendered one step at a time. */
  lemma {:induction false} RenderTailLx(t: seq<Sound>)
    requires |t| == 1 && t[0] == Lx
    ensures Render(t, SourceBreakers) == [Lambda]
  {
    RenderPlainHead(t, SourceBreakers);
    assert Render(t[1..], SourceBreakers) == [];
  }

  /** ć, i, ł is rendered one step at a time. */
  lemma {:induction false} RenderTailTxILx(t: seq<Sound>)
    requires |t| == 3 && t[0] == Tx && t[1] == I && t[2] == Lx
    ensures Render(t, SourceBreakers) == [Tau, IotaAcute] + [Lambda]
  {
    RenderSoftenedVowelHead(t, SourceBreakers);
    RenderTailLx(t[2..]);
  }

  /** a, ć, i, ł is rendered one step at a time. */
  lemma {:induction false} RenderTailATxILx(t: seq<Sound>)
    requires |t| == 4 && t[0] == A && t[1] == Tx && t[2] == I && t[3] == Lx
    ensures Render(t, SourceBreakers) == [Alpha] + ([Tau, IotaAcute] + [Lambda])
  {
    RenderPlainHead(t, SourceBreakers);
    RenderTailTxILx(t[1..]);
  }

  /** r, a, ć, i, ł is rendered one step at a time. */
  lemma {:induction false} RenderTailRATxILx(t: seq<Sound>)
    requires |t| == 5 && t[0] == R && t[1] == A && t[2] == Tx && t[3] == I && t[4] == Lx
    ensures Render(t, SourceBreakers) == [Rho] + ([Alpha] + ([Tau, IotaAcute] + [Lambda]))
  {
    RenderPlainHead(t, SourceBreakers);
    RenderTailATxILx(t[1..]);
  }

  /** t, r, a, ć, i, ł is rendered one step at a time. */
  lemma {:induction false} RenderTailTRATxILx(t: seq<Sound>)
    requires |t| == 6 && t[0] == T && t[1] == R && t[2] == A && t[3] == Tx && t[4] == I
    requires t[5] == Lx
    ensures Render(t, SourceBreakers) == [Tau] + ([Rho] + ([Alpha] + ([Tau, IotaAcute] + [Lambda])))
  {
    RenderPlainHead(t, SourceBreakers);
    RenderTailRATxILx(t[1..]);
  }

  /** s, t, r, a, ć, i, ł is rendered one step at a time. */
  lemma {:induction false} RenderStracil(t: seq<Sound>)
    requires |t| == 7 && t[0] == S && t[1] == T && t[2] == R && t[3] == A && t[4] == Tx
    requires t[5] == I && t[6] == Lx
    ensures Render(t, SourceBreakers) == [Sigma] + ([Tau] + ([Rho] + ([Alpha] + ([Tau, IotaAcute] + [Lambda]))))
  {
    RenderPlainHead(t, SourceBreakers);
    RenderTailTRATxILx(t[1..]);
  }

  /** The letters of "στρατίλ" are those of its rendering. */
  lemma {:induction false} StracilLetters()
    ensures forall k :: 0 <= k < 7 ==> "στρατίλ"[k] == ToChar(([Sigma] + ([Tau] + ([Rho] + ([Alpha] + ([Tau, IotaAcute] + [Lambda])))))[k])
  {
  }

  /** The source's test: s, t, r, a, ć, i, ł is written "στρατίλ". */
  lemma {:induction false} ToGreekStracil()
    ensures ToGreek([S, T, R, A, Tx, I, Lx], SourceBreakers) == "στρατίλ"
  {
    RenderStracil([S, T, R, A, Tx, I, Lx]);
    StracilLetters();
    WrittenAs([S, T, R, A, Tx, I, Lx], SourceBreakers, [Sigma] + ([Tau] + ([Rho] + ([Alpha] + ([Tau, IotaAcute] + [Lambda])))), "στρατίλ");
  }

  /** d is rendered one step at a time. */
  lemma {:induction false} RenderTailD(t: seq<Sound>)
    requires |t| == 1 && t[0] == D
    ensures Render(t, SourceBreakers) == [Delta]
  {
    RenderPlainHead(t, SourceBreakers);
    assert Render(t[1..], SourceBreakers) == [];
  }

  /** j, u, d is rendered one step at a time. */
  lemma {:induction false} RenderTailJUD(t: seq<Sound>)
    requires |t| == 3 && t[0] == J && t[1] == U && t[2] == D
    ensures Render(t, SourceBreakers) == [UpsilonAcute] + [Delta]
  {
    RenderJVowelHead(t, SourceBreakers);
    RenderTailD(t[2..]);
  }

  /** m, j, u, d is rendered one step at a time. */
  lemma {:induction false} RenderMjud(t: seq<Sound>)
    requires |t| == 4 && t[0] == M && t[1] == J && t[2] == U && t[3] == D
    ensures Render(t, SourceBreakers) == [Mu] + ([UpsilonAcute] + [Delta])
  {
    RenderPlainHead(t, SourceBreakers);
    RenderTailJUD(t[1..]);
  }

  /** The letters of "μύδ" are those of its rendering. */
  lemma {:induction false} MjudLetters()
    ensures forall k :: 0 <= k < 3 ==> "μύδ"[k] == ToChar(([Mu] + ([UpsilonAcute] + [Delta]))[k])
  {
  }

  /** The source's test: m, j, u, d is written "μύδ". */
  lemma {:induction false} ToGreekMjud()
    ensures ToGreek([M, J, U, D], SourceBreakers) == "μύδ"
  {
    RenderMjud([M, J, U, D]);
    MjudLetters();
    WrittenAs([M, J, U, D], SourceBreakers, [Mu] + ([UpsilonAcute] + [Delta]), "μύδ");
  }
}
