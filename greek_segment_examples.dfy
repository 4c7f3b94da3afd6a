/**
 * The source's tests of `utf8_to_greek`, each text cut into parts step by
 * step from its end: where a word of glyph characters stops, where a run of
 * other characters stops, and which mode the word's first letter gives.
 * Each text is stated over any text with the same characters, so that the
 * parts are built from one-character steps of `GreekSegment` rather than by
 * evaluating the segmenter on a literal.
 */
module GreekSegmentExamples {
  import opened Wrappers
  import opened Glyphs
  import opened Casing
  import opened Parts
  import opened GreekSegment

  /** A glyph character adds its glyph to the front of the word read from the next position. */
  lemma {:induction false} GlyphStep(chars: string, at: nat, g: Greek)
    requires at < |chars| && CharToGreek(chars[at]) == Some(g)
    ensures WordAt(chars, at) == [g] + WordAt(chars, at + 1)
  {
  }

  /** The end of the text, or a character that is no glyph, ends the word. */
  lemma {:induction false} GlyphEnd(chars: string, at: nat)
    requires at <= |chars| && (at == |chars| || CharToGreek(chars[at]).None?)
    ensures WordAt(chars, at) == []
  {
  }

  /** A character that is no glyph adds one to the run of other characters read from the next position. */
  lemma {:induction false} OtherStep(chars: string, at: nat)
    requires at < |chars| && CharToGreek(chars[at]).None?
    ensures OtherRun(chars, at) == 1 + OtherRun(chars, at + 1)
  {
  }

  /** The end of the text, or a glyph character, ends the run of other characters. */
  lemma {:induction false} OtherEnd(chars: string, at: nat)
    requires at <= |chars| && (at == |chars| || CharToGreek(chars[at]).Some?)
    ensures OtherRun(chars, at) == 0
  {
  }

  /** A word whose first character is not uppercase is lowercase. */
  lemma {:induction false} LowerStart(word: string)
    requires |word| > 0 && !IsUpper(word[0])
    ensures DetectWith(SourceDetection, word) == Lowercase
  {
  }

  // ποζδραβάμ τέπλύτκο! :) — two words, a space between them and "! :)" after them

  /** From position 6 on, the run of ποζδραβάμ reads β, ά, μ. */
  lemma {:induction false} PozdrawiamFrom6(low: string)
    requires |low| == 22 && low[6] == 'β' && low[7] == 'ά' && low[8] == 'μ' && low[9] == ' '
    ensures WordAt(low, 6) == [Beta] + ([AlphaAcute] + [Mu])
  {
    GlyphEnd(low, 9);
    GlyphStep(low, 8, Mu);
    GlyphStep(low, 7, AlphaAcute);
    GlyphStep(low, 6, Beta);
  }

  /** From position 3 on, the run of ποζδραβάμ reads δ, ρ, α, β, ά, μ. */
  lemma {:induction false} PozdrawiamFrom3(low: string)
    requires |low| == 22 && low[3] == 'δ' && low[4] == 'ρ' && low[5] == 'α' && low[6] == 'β' && low[7] == 'ά' && low[8] == 'μ' && low[9] == ' '
    ensures WordAt(low, 3) == [Delta] + ([Rho] + ([Alpha] + ([Beta] + ([AlphaAcute] + [Mu]))))
  {
    PozdrawiamFrom6(low);
    GlyphStep(low, 5, Alpha);
    GlyphStep(low, 4, Rho);
    GlyphStep(low, 3, Delta);
  }

  /** From position 0 on, the run of ποζδραβάμ reads π, ο, ζ, δ, ρ, α, β, ά, μ. */
  lemma {:induction false} PozdrawiamFrom0(low: string)
    requires |low| == 22 && low[0] == 'π' && low[1] == 'ο' && low[2] == 'ζ' && low[3] == 'δ' && low[4] == 'ρ' && low[5] == 'α' && low[6] == 'β' && low[7] == 'ά' && low[8] == 'μ' && low[9] == ' '
    ensures WordAt(low, 0) == [Pi] + ([Omicron] + ([Zeta] + ([Delta] + ([Rho] + ([Alpha] + ([Beta] + ([AlphaAcute] + [Mu])))))))
  {
    PozdrawiamFrom3(low);
    GlyphStep(low, 2, Zeta);
    GlyphStep(low, 1, Omicron);
    GlyphStep(low, 0, Pi);
  }

  /** The glyphs of ποζδραβάμ, one at a time and all together. */
  lemma {:induction false} PozdrawiamGlyphs()
    ensures [Pi] + ([Omicron] + ([Zeta] + ([Delta] + ([Rho] + ([Alpha] + ([Beta] + ([AlphaAcute] + [Mu])))))))
      == [Pi, Omicron, Zeta, Delta, Rho, Alpha, Beta, AlphaAcute, Mu]
  {
  }

  /** The word at position 0 is ποζδραβάμ. */
  lemma {:induction false} PozdrawiamWord(low: string)
    requires |low| == 22 && low[0] == 'π' && low[1] == 'ο' && low[2] == 'ζ' && low[3] == 'δ' && low[4] == 'ρ' && low[5] == 'α' && low[6] == 'β' && low[7] == 'ά' && low[8] == 'μ' && low[9] == ' '
    ensures WordAt(low, 0) == [Pi, Omicron, Zeta, Delta, Rho, Alpha, Beta, AlphaAcute, Mu]
  {
    PozdrawiamFrom0(low);
    PozdrawiamGlyphs();
  }

  /** From position 15 on, the run of τέπλύτκο reads τ, κ, ο. */
  lemma {:induction false} TeplutkoFrom15(low: string)
    requires |low| == 22 && low[15] == 'τ' && low[16] == 'κ' && low[17] == 'ο' && low[18] == '!'
    ensures WordAt(low, 15) == [Tau] + ([Kappa] + [Omicron])
  {
    GlyphEnd(low, 18);
    GlyphStep(low, 17, Omicron);
    GlyphStep(low, 16, Kappa);
    GlyphStep(low, 15, Tau);
  }

  /** From position 12 on, the run of τέπλύτκο reads π, λ, ύ, τ, κ, ο. */
  lemma {:induction false} TeplutkoFrom12(low: string)
    requires |low| == 22 && low[12] == 'π' && low[13] == 'λ' && low[14] == 'ύ' && low[15] == 'τ' && low[16] == 'κ' && low[17] == 'ο' && low[18] == '!'
    ensures WordAt(low, 12) == [Pi] + ([Lambda] + ([UpsilonAcute] + ([Tau] + ([Kappa] + [Omicron]))))
  {
    TeplutkoFrom15(low);
    GlyphStep(low, 14, UpsilonAcute);
    GlyphStep(low, 13, Lambda);
    GlyphStep(low, 12, Pi);
  }

  /** From position 10 on, the run of τέπλύτκο reads τ, έ, π, λ, ύ, τ, κ, ο. */
  lemma {:induction false} TeplutkoFrom10(low: string)
    requires |low| == 22 && low[10] == 'τ' && low[11] == 'έ' && low[12] == 'π' && low[13] == 'λ' && low[14] == 'ύ' && low[15] == 'τ' && low[16] == 'κ' && low[17] == 'ο' && low[18] == '!'
    ensures WordAt(low, 10) == [Tau] + ([EpsilonAcute] + ([Pi] + ([Lambda] + ([UpsilonAcute] + ([Tau] + ([Kappa] + [Omicron]))))))
  {
    TeplutkoFrom12(low);
    GlyphStep(low, 11, EpsilonAcute);
    GlyphStep(low, 10, Tau);
  }

  /** The glyphs of τέπλύτκο, one at a time and all together. */
  lemma {:induction false} TeplutkoGlyphs()
    ensures [Tau] + ([EpsilonAcute] + ([Pi] + ([Lambda] + ([UpsilonAcute] + ([Tau] + ([Kappa] + [Omicron]))))))
      == [Tau, EpsilonAcute, Pi, Lambda, UpsilonAcute, Tau, Kappa, Omicron]
  {
  }

  /** The word at position 10 is τέπλύτκο. */
  lemma {:induction false} TeplutkoWord(low: string)
    requires |low| == 22 && low[10] == 'τ' && low[11] == 'έ' && low[12] == 'π' && low[13] == 'λ' && low[14] == 'ύ' && low[15] == 'τ' && low[16] == 'κ' && low[17] == 'ο' && low[18] == '!'
    ensures WordAt(low, 10) == [Tau, EpsilonAcute, Pi, Lambda, UpsilonAcute, Tau, Kappa, Omicron]
  {
    TeplutkoFrom10(low);
    TeplutkoGlyphs();
  }

  /** The last part: "! :)", none of them a glyph, up to the end of the text. */
  lemma {:induction false} GreetingFrom18(orig: string, low: string)
    requires |orig| == |low| == 22 && low[18] == '!' && low[19] == ' ' && low[20] == ':' && low[21] == ')'
    ensures SegmentFrom(SourceDetection, orig, low, 18) == [Arbitrary("! :)")]
  {
    GlyphEnd(low, 18);
    OtherEnd(low, 22);
    OtherStep(low, 21);
    OtherStep(low, 20);
    OtherStep(low, 19);
    OtherStep(low, 18);
    assert low[18..22] == "! :)";
    assert SegmentFrom(SourceDetection, orig, low, 22) == [];
  }

  /** From the τ on: the word τέπλύτκο, then "! :)". */
  lemma {:induction false} GreetingFrom10(orig: string, low: string)
    requires |orig| == |low| == 22 && !IsUpper(orig[10])
    requires low[10] == 'τ' && low[11] == 'έ' && low[12] == 'π' && low[13] == 'λ' && low[14] == 'ύ' && low[15] == 'τ' && low[16] == 'κ' && low[17] == 'ο'
    requires low[18] == '!' && low[19] == ' ' && low[20] == ':' && low[21] == ')'
    ensures SegmentFrom(SourceDetection, orig, low, 10) == [Word([Tau, EpsilonAcute, Pi, Lambda, UpsilonAcute, Tau, Kappa, Omicron], Lowercase)] + [Arbitrary("! :)")]
  {
    GreetingFrom18(orig, low);
    TeplutkoWord(low);
    LowerStart(orig[10..18]);
  }

  /** From the space on: the space, then τέπλύτκο and "! :)". */
  lemma {:induction false} GreetingFrom9(orig: string, low: string)
    requires |orig| == |low| == 22 && !IsUpper(orig[10])
    requires low[9] == ' ' && low[10] == 'τ' && low[11] == 'έ' && low[12] == 'π' && low[13] == 'λ' && low[14] == 'ύ' && low[15] == 'τ' && low[16] == 'κ' && low[17] == 'ο'
    requires low[18] == '!' && low[19] == ' ' && low[20] == ':' && low[21] == ')'
    ensures SegmentFrom(SourceDetection, orig, low, 9) == [Arbitrary(" ")] + ([Word([Tau, EpsilonAcute, Pi, Lambda, UpsilonAcute, Tau, Kappa, Omicron], Lowercase)] + [Arbitrary("! :)")])
  {
    GreetingFrom10(orig, low);
    GlyphEnd(low, 9);
    OtherEnd(low, 10);
    OtherStep(low, 9);
    assert low[9..10] == " ";
  }

  /** The whole text: ποζδραβάμ, then the rest. */
  lemma {:induction false} GreetingFrom0(orig: string, low: string)
    requires |orig| == |low| == 22 && !IsUpper(orig[0]) && !IsUpper(orig[10])
    requires low[0] == 'π' && low[1] == 'ο' && low[2] == 'ζ' && low[3] == 'δ' && low[4] == 'ρ' && low[5] == 'α' && low[6] == 'β' && low[7] == 'ά' && low[8] == 'μ'
    requires low[9] == ' ' && low[10] == 'τ' && low[11] == 'έ' && low[12] == 'π' && low[13] == 'λ' && low[14] == 'ύ' && low[15] == 'τ' && low[16] == 'κ' && low[17] == 'ο'
    requires low[18] == '!' && low[19] == ' ' && low[20] == ':' && low[21] == ')'
    ensures SegmentFrom(SourceDetection, orig, low, 0)
      == [Word([Pi, Omicron, Zeta, Delta, Rho, Alpha, Beta, AlphaAcute, Mu], Lowercase)] + ([Arbitrary(" ")] + ([Word([Tau, EpsilonAcute, Pi, Lambda, UpsilonAcute, Tau, Kappa, Omicron], Lowercase)] + [Arbitrary("! :)")]))
  {
    GreetingFrom9(orig, low);
    PozdrawiamWord(low);
    LowerStart(orig[0..9]);
  }

  /** The parts of ποζδραβάμ τέπλύτκο! :), one at a time and all together. */
  lemma {:induction false} GreetingParts()
    ensures [Word([Pi, Omicron, Zeta, Delta, Rho, Alpha, Beta, AlphaAcute, Mu], Lowercase)] + ([Arbitrary(" ")] + ([Word([Tau, EpsilonAcute, Pi, Lambda, UpsilonAcute, Tau, Kappa, Omicron], Lowercase)] + [Arbitrary("! :)")]))
      == [Word([Pi, Omicron, Zeta, Delta, Rho, Alpha, Beta, AlphaAcute, Mu], Lowercase), Arbitrary(" "), Word([Tau, EpsilonAcute, Pi, Lambda, UpsilonAcute, Tau, Kappa, Omicron], Lowercase), Arbitrary("! :)")]
  {
  }

  /** ποζδραβάμ τέπλύτκο! :) has no uppercase letter, so lowering it changes nothing. */
  lemma {:induction false} GreetingLowered(s: string)
    requires s == "ποζδραβάμ τέπλύτκο! :)"
    ensures Lowered(s) == s
  {
    forall k | 0 <= k < |s|
      ensures Lowered(s)[k] == s[k]
    {
      assert !IsUpper(s[k]);
    }
  }

  /** The characters of ποζδραβάμ, the first word of ποζδραβάμ τέπλύτκο! :), one by one. */
  lemma {:induction false} GreetingHeadChars(s: string)
    requires s == "ποζδραβάμ τέπλύτκο! :)"
    ensures |s| == 22 && !IsUpper(s[0])
    ensures s[0] == 'π' && s[1] == 'ο' && s[2] == 'ζ' && s[3] == 'δ' && s[4] == 'ρ' && s[5] == 'α' && s[6] == 'β' && s[7] == 'ά' && s[8] == 'μ' && s[9] == ' '
  {
  }

  /** The characters of τέπλύτκο! :), the rest of ποζδραβάμ τέπλύτκο! :), one by one. */
  lemma {:induction false} GreetingTailChars(s: string)
    requires s == "ποζδραβάμ τέπλύτκο! :)"
    ensures |s| == 22 && !IsUpper(s[10])
    ensures s[10] == 'τ' && s[11] == 'έ' && s[12] == 'π' && s[13] == 'λ' && s[14] == 'ύ' && s[15] == 'τ' && s[16] == 'κ' && s[17] == 'ο'
    ensures s[18] == '!' && s[19] == ' ' && s[20] == ':' && s[21] == ')'
  {
  }

  /**
   * The source's first test of `utf8_to_greek`: "ποζδραβάμ τέπλύτκο! :)" is
   * four parts, the lowercase words ποζδραβάμ and τέπλύτκο, with a space
   * between them and "! :)" after them.
   */
  lemma {:induction false} Utf8ToGreekGreeting()
    ensures Segment(SourceDetection, "ποζδραβάμ τέπλύτκο! :)")
      == [Word([Pi, Omicron, Zeta, Delta, Rho, Alpha, Beta, AlphaAcute, Mu], Lowercase), Arbitrary(" "), Word([Tau, EpsilonAcute, Pi, Lambda, UpsilonAcute, Tau, Kappa, Omicron], Lowercase), Arbitrary("! :)")]
  {
    var s := "ποζδραβάμ τέπλύτκο! :)";
    GreetingLowered(s);
    GreetingHeadChars(s);
    GreetingTailChars(s);
    GreetingFrom0(s, s);
    GreetingParts();
  }

  // ραδοστ' — one word, ending with the acute mark

  /** From position 4 on, the run of ραδοστ' reads σ, τ, '. */
  lemma {:induction false} RadoscFrom4(low: string)
    requires |low| == 7 && low[4] == 'σ' && low[5] == 'τ' && low[6] == '\''
    ensures WordAt(low, 4) == [Sigma] + ([Tau] + [Acute])
  {
    GlyphEnd(low, 7);
    GlyphStep(low, 6, Acute);
    GlyphStep(low, 5, Tau);
    GlyphStep(low, 4, Sigma);
  }

  /** From position 1 on, the run of ραδοστ' reads α, δ, ο, σ, τ, '. */
  lemma {:induction false} RadoscFrom1(low: string)
    requires |low| == 7 && low[1] == 'α' && low[2] == 'δ' && low[3] == 'ο' && low[4] == 'σ' && low[5] == 'τ' && low[6] == '\''
    ensures WordAt(low, 1) == [Alpha] + ([Delta] + ([Omicron] + ([Sigma] + ([Tau] + [Acute]))))
  {
    RadoscFrom4(low);
    GlyphStep(low, 3, Omicron);
    GlyphStep(low, 2, Delta);
    GlyphStep(low, 1, Alpha);
  }

  /** From position 0 on, the run of ραδοστ' reads ρ, α, δ, ο, σ, τ, '. */
  lemma {:induction false} RadoscFrom0(low: string)
    requires |low| == 7 && low[0] == 'ρ' && low[1] == 'α' && low[2] == 'δ' && low[3] == 'ο' && low[4] == 'σ' && low[5] == 'τ' && low[6] == '\''
    ensures WordAt(low, 0) == [Rho] + ([Alpha] + ([Delta] + ([Omicron] + ([Sigma] + ([Tau] + [Acute])))))
  {
    RadoscFrom1(low);
    GlyphStep(low, 0, Rho);
  }

  /** The glyphs of ραδοστ', one at a time and all together. */
  lemma {:induction false} RadoscGlyphs()
    ensures [Rho] + ([Alpha] + ([Delta] + ([Omicron] + ([Sigma] + ([Tau] + [Acute])))))
      == [Rho, Alpha, Delta, Omicron, Sigma, Tau, Acute]
  {
  }

  /** The word at position 0 is ραδοστ'. */
  lemma {:induction false} RadoscWord(low: string)
    requires |low| == 7 && low[0] == 'ρ' && low[1] == 'α' && low[2] == 'δ' && low[3] == 'ο' && low[4] == 'σ' && low[5] == 'τ' && low[6] == '\''
    ensures WordAt(low, 0) == [Rho, Alpha, Delta, Omicron, Sigma, Tau, Acute]
  {
    RadoscFrom0(low);
    RadoscGlyphs();
  }

  /** The whole text is the word ραδοστ'. */
  lemma {:induction false} RadoscParts(orig: string, low: string)
    requires |orig| == |low| == 7 && !IsUpper(orig[0])
    requires low[0] == 'ρ' && low[1] == 'α' && low[2] == 'δ' && low[3] == 'ο' && low[4] == 'σ' && low[5] == 'τ' && low[6] == '\''
    ensures SegmentFrom(SourceDetection, orig, low, 0) == [Word([Rho, Alpha, Delta, Omicron, Sigma, Tau, Acute], Lowercase)]
  {
    RadoscWord(low);
    LowerStart(orig[0..7]);
    assert SegmentFrom(SourceDetection, orig, low, 7) == [];
  }

  /** ραδοστ' has no uppercase letter, so lowering it changes nothing. */
  lemma {:induction false} RadoscLowered(s: string)
    requires s == "ραδοστ'"
    ensures Lowered(s) == s
  {
    forall k | 0 <= k < |s|
      ensures Lowered(s)[k] == s[k]
    {
      assert !IsUpper(s[k]);
    }
  }

  /** The source's second test of `utf8_to_greek`: "ραδοστ'" is one part, the lowercase word ραδοστ'. */
  lemma {:induction false} Utf8ToGreekRadosc()
    ensures Segment(SourceDetection, "ραδοστ'") == [Word([Rho, Alpha, Delta, Omicron, Sigma, Tau, Acute], Lowercase)]
  {
    var s := "ραδοστ'";
    RadoscLowered(s);
    RadoscParts(s, s);
  }
}
