/**
 * What the Polish writer produces, and how the Polish reader reads it back:
 * every sound's own spelling, and the spellings the look-ahead rules
 * produce, are read back as the sounds they were written from.
 */
module OfficialSpellingFacts {
  import opened Wrappers
  import opened Sounds
  import opened OfficialParse
  import opened OfficialRender

  /** Every sound has a spelling of one or two letters, each a Polish letter. */
  lemma {:induction false} NaiveToStringShape(s: Sound)
    ensures 1 <= |NaiveToString(s)| <= 2
    ensures forall k :: 0 <= k < |NaiveToString(s)| ==> SingleNaive(NaiveToString(s)[k]).Some?
  {
  }

  /** A text the reader takes in one round, whole, is read as that round's sounds. */
  lemma {:induction false} ReadInOneRound(t: string, sounds: seq<Sound>)
    requires 0 < |t| && ParseStep(t, 0) == ConsumeResult(sounds, |t|)
    ensures ParseWordFrom(t, 0) == ConsumeResult(sounds, |t|)
  {
    assert ParseWordFrom(t, |t|) == Nothing;
  }

  /** The vowels' spellings are read back in one round. */
  lemma {:induction false} VowelReadsBack(s: Sound)
    requires IsVowel(s)
    ensures ParseStep(NaiveToString(s), 0) == ConsumeResult([s], |NaiveToString(s)|)
  {
  }

  /** The plain consonants' one-letter spellings are read back in one round. */
  lemma {:induction false} PlainConsonantReadsBack(s: Sound)
    requires s == B || s == C || s == D || s == F || s == G || s == J || s == K || s == L || s == Lx
    ensures ParseStep(NaiveToString(s), 0) == ConsumeResult([s], 1)
  {
  }

  /** The one-letter spellings m, p, r, t, w, ż are read back in one round. */
  lemma {:induction false} HardLetterReadsBack(s: Sound)
    requires s == M || s == P || s == R || s == T || s == W || s == Zh
    ensures ParseStep(NaiveToString(s), 0) == ConsumeResult([s], 1)
  {
  }

  /** n, s and z on their own are read back in one round: no `i` follows them. */
  lemma {:induction false} SoftenableLetterReadsBack(s: Sound)
    requires s == N || s == S || s == Z
    ensures ParseStep(NaiveToString(s), 0) == ConsumeResult([s], 1)
  {
  }

  /** The soft letters ń, ś, ć and ź are read back in one round. */
  lemma {:induction false} SoftLetterReadsBack(s: Sound)
    requires s == Nx || s == Sx || s == Tx || s == Zx
    ensures ParseStep(NaiveToString(s), 0) == ConsumeResult([s], 1)
  {
  }

  /** The two-letter spellings are read back in one round. */
  lemma {:induction false} DigraphReadsBack(s: Sound)
    requires s == H || s == Rx || s == Sh || s == Ch || s == Dz || s == Dx || s == Dh
    ensures ParseStep(NaiveToString(s), 0) == ConsumeResult([s], 2)
  {
  }

  /** Reading a sound's own spelling, on its own, gives the sound back. */
  lemma {:induction false} NaiveToStringReadsBack(s: Sound)
    ensures ParseWordFrom(NaiveToString(s), 0) == ConsumeResult([s], |NaiveToString(s)|)
  {
    NaiveToStringShape(s);
    if IsVowel(s) {
      VowelReadsBack(s);
    } else if s == B || s == C || s == D || s == F || s == G || s == J || s == K || s == L || s == Lx {
      PlainConsonantReadsBack(s);
    } else if s == H || s == Rx || s == Sh || s == Ch || s == Dz || s == Dx || s == Dh {
      DigraphReadsBack(s);
    } else if s == M || s == P || s == R || s == T || s == W || s == Zh {
      HardLetterReadsBack(s);
    } else if s == N || s == S || s == Z {
      SoftenableLetterReadsBack(s);
    } else {
      SoftLetterReadsBack(s);
    }
    ReadInOneRound(NaiveToString(s), [s]);
  }

  /** The letter written for w, k, m or g before a j is its own spelling. */
  lemma {:induction false} IForJLetterIsNaive(c: Sound)
    requires TakesIForJ(c)
    ensures IForJLetter(c) == NaiveToString(c)
  {
  }

  /** Spelling nothing writes nothing. */
  lemma {:induction false} SpellEnd(input: seq<Sound>)
    ensures SpellFrom(input, |input|) == ""
  {
  }

  /** A soft consonant before a softenable vowel is written with its base letters, `i` unless the vowel is i, and the vowel. */
  lemma {:induction false} SoftVowelSpelling(s: Sound, v: Sound)
    requires SoftConsonant(s) && IsSoftenableVowel(v)
    ensures ToOfficial([s, v]) == SoftBase(s) + (if v == I then "" else "i") + NaiveToString(v)
  {
    var input := [s, v];
    SpellSoftAt(input, 0);
    SpellNaiveAt(input, 1);
  }

  /** The spelling of a soft consonant before a softenable vowel reads back as the same two sounds. */
  lemma {:induction false} SoftVowelReadsBack(s: Sound, v: Sound)
    requires SoftConsonant(s) && IsSoftenableVowel(v)
    ensures ParseWordFrom(ToOfficial([s, v]), 0) == ConsumeResult([s, v], |ToOfficial([s, v])|)
  {
    SoftVowelSpelling(s, v);
    var t := ToOfficial([s, v]);
    assert ParseStep(t, 0) == ConsumeResult([s, v], |t|);
    ReadInOneRound(t, [s, v]);
  }

  /** w, k, m or g before j and a vowel other than i is written with `i` in place of the j. */
  lemma {:induction false} IForJSpelling(c: Sound, v: Sound)
    requires TakesIForJ(c) && IsSoftenableVowel(v) && v != I
    ensures ToOfficial([c, J, v]) == NaiveToString(c) + "i" + NaiveToString(v)
  {
    var input := [c, J, v];
    SpellIForJAt(input, 0);
    IForJLetterIsNaive(c);
    SpellNaiveAt(input, 2);
  }

  /** That spelling reads back as the consonant, the glide j and the vowel. */
  lemma {:induction false} IForJReadsBack(c: Sound, v: Sound)
    requires TakesIForJ(c) && IsSoftenableVowel(v) && v != I
    ensures ParseWordFrom(ToOfficial([c, J, v]), 0) == ConsumeResult([c, J, v], 3)
  {
    IForJSpelling(c, v);
    var t := ToOfficial([c, J, v]);
    assert ParseStep(t, 0) == ConsumeResult([c], 1);
    IForJTailReadsBack(t, v);
  }

  /** After the consonant's letter, `i` and a vowel letter read back as the glide j and the vowel. */
  lemma {:induction false} IForJTailReadsBack(t: string, v: Sound)
    requires IsSoftenableVowel(v) && v != I
    requires |t| == 3 && t[1] == 'i' && t[2..] == NaiveToString(v)
    ensures ParseWordFrom(t, 1) == ConsumeResult([J, v], 2)
  {
    assert ParseStep(t, 1) == ConsumeResult([J, v], 2);
    assert ParseWordFrom(t, 3) == Nothing;
  }

  /** Every character of `t` is one of the letters the Polish reader recognises. */
  predicate AllLetters(t: string) {
    forall k :: 0 <= k < |t| ==> SingleNaive(t[k]).Some?
  }

  lemma {:induction false} AllLettersAppend(a: string, b: string)
    requires AllLetters(a) && AllLetters(b)
    ensures AllLetters(a + b)
  {
  }

  /** The letters the soft-consonant rule writes are Polish letters. */
  lemma {:induction false} SoftBaseLetters(s: Sound)
    requires SoftConsonant(s)
    ensures AllLetters(SoftBase(s)) && AllLetters(SoftBase(s) + "i")
  {
  }

  /** The letters the `i`-for-j rule writes are Polish letters. */
  lemma {:induction false} IForJLetters(s: Sound)
    requires TakesIForJ(s)
    ensures AllLetters(IForJLetter(s) + "i")
  {
  }

  /** One round writes only Polish letters, at least one per sound it uses. */
  lemma {:induction false} SpellStepLetters(input: seq<Sound>, at: nat)
    requires at < |input|
    ensures AllLetters(SpellStep(input, at).text)
    ensures |SpellStep(input, at).text| >= SpellStep(input, at).consumed
  {
    var c0 := input[at];
    NaiveToStringShape(c0);
    if SoftConsonant(c0) {
      SoftBaseLetters(c0);
    }
    if TakesIForJ(c0) {
      IForJLetters(c0);
    }
    assert AllLetters("rz");
  }

  /** Every letter written for the sounds from `at` is a Polish letter. */
  lemma {:induction false} SpellFromLetters(input: seq<Sound>, at: nat)
    requires at <= |input|
    ensures AllLetters(SpellFrom(input, at))
    ensures |SpellFrom(input, at)| >= |input| - at
    decreases |input| - at
  {
    if at < |input| {
      var step := SpellStep(input, at);
      SpellStepLetters(input, at);
      SpellFromLetters(input, at + step.consumed);
      AllLettersAppend(step.text, SpellFrom(input, at + step.consumed));
    }
  }

  /**
   * The spelling of a word is made of Polish letters only, so the reader
   * takes all of it as one word; it has at least one letter per sound.
   */
  lemma {:induction false} ToOfficialLetters(input: seq<Sound>)
    ensures forall k :: 0 <= k < |ToOfficial(input)| ==> SingleNaive(ToOfficial(input)[k]).Some?
    ensures |ToOfficial(input)| >= |input|
  {
    SpellFromLetters(input, 0);
  }
}

/** Worked examples of the Polish writer. */
module OfficialSpellingExamples {
  import opened Sounds
  import opened OfficialRender
  import opened OfficialSpellingFacts

  /** "miód": m before j and ó. */
  lemma {:induction false} SpellMiod(input: seq<Sound>)
    requires |input| == 4 && input[0] == M && input[1] == J && input[2] == Ou && input[3] == D
    ensures ToOfficial(input) == "miód"
  {
    SpellMiodSteps(input);
    MiodLetters();
  }

  /** m, j, ó, d is written one round at a time: m and i for the j, then ó, then d. */
  lemma {:induction false} SpellMiodSteps(input: seq<Sound>)
    requires |input| == 4 && input[0] == M && input[1] == J && input[2] == Ou && input[3] == D
    ensures SpellFrom(input, 0) == IForJLetter(M) + "i" + (NaiveToString(Ou) + (NaiveToString(D) + ""))
  {
    SpellEnd(input);
    SpellNaiveAt(input, 3);
    SpellNaiveAt(input, 2);
    SpellIForJAt(input, 0);
  }

  /** The rounds' texts for m, j, ó, d join up to "miód". */
  lemma {:induction false} MiodLetters()
    ensures IForJLetter(M) + "i" + (NaiveToString(Ou) + (NaiveToString(D) + "")) == "miód"
  {
    IForJLetterIsNaive(M);
  }

  /** k before j and e is written "ki", then e, d and y: "kiedy". */
  lemma {:induction false} SpellKiedy(input: seq<Sound>)
    requires |input| == 5 && input[0] == K && input[1] == J && input[2] == E && input[3] == D && input[4] == Y
    ensures ToOfficial(input) == "kiedy"
  {
    SpellEdy(input);
    SpellIForJAt(input, 0);
  }

  /** From the e on, k, j, e, d, y is written "edy". */
  lemma {:induction false} SpellEdy(input: seq<Sound>)
    requires |input| == 5 && input[2] == E && input[3] == D && input[4] == Y
    ensures SpellFrom(input, 2) == "edy"
  {
    SpellEnd(input);
    SpellNaiveAt(input, 4);
    assert SpellFrom(input, 4) == "y";
    SpellNaiveAt(input, 3);
    assert SpellFrom(input, 3) == "dy";
    SpellNaiveAt(input, 2);
  }
}
