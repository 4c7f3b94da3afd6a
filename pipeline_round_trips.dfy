/**
 * The source's one-word test pairs, both ways, through the whole pipeline:
 * the Polish word is read as one word of sounds and rendered in Greek
 * letters with the source's break set, and the Greek word is read back and
 * spelled in Polish.  Each pair is taken apart into the four transducers'
 * steps on any text or sequence with the word's letters, then put together
 * on the texts themselves.
 */
module PipelineRoundTrips {
  import opened Wrappers
  import opened Casing
  import opened Sounds
  import opened Glyphs
  import opened GreekRender
  import opened GreekParse
  import opened GreekParseSteps
  import opened OfficialRender
  import opened OfficialSpellingFacts
  import opened Pipeline
  import opened PipelineExamples
  import OfficialParse

  /** A text of four characters none of which is uppercase has no uppercase letter. */
  lemma {:induction false} NoUpperOfFour(s: string)
    requires |s| == 4 && !IsUpper(s[0]) && !IsUpper(s[1]) && !IsUpper(s[2]) && !IsUpper(s[3])
    ensures NoUpper(s)
  {
  }

  /** A text of five characters none of which is uppercase has no uppercase letter. */
  lemma {:induction false} NoUpperOfFive(s: string)
    requires |s| == 5 && !IsUpper(s[0]) && !IsUpper(s[1]) && !IsUpper(s[2]) && !IsUpper(s[3]) && !IsUpper(s[4])
    ensures NoUpper(s)
  {
  }

  /** A text of six characters none of which is uppercase has no uppercase letter. */
  lemma {:induction false} NoUpperOfSix(s: string)
    requires |s| == 6 && !IsUpper(s[0]) && !IsUpper(s[1]) && !IsUpper(s[2]) && !IsUpper(s[3]) && !IsUpper(s[4]) && !IsUpper(s[5])
    ensures NoUpper(s)
  {
  }

  /** A text of seven characters none of which is uppercase has no uppercase letter. */
  lemma {:induction false} NoUpperOfSeven(s: string)
    requires |s| == 7 && !IsUpper(s[0]) && !IsUpper(s[1]) && !IsUpper(s[2]) && !IsUpper(s[3]) && !IsUpper(s[4]) && !IsUpper(s[5]) && !IsUpper(s[6])
    ensures NoUpper(s)
  {
  }

  /** A lowercase text the Polish reader takes whole as `sounds` becomes their Greek rendering, under either break set. */
  lemma {:induction false} LowerOfficialWord(s: string, sounds: seq<Sound>)
    requires |s| > 0 && NoUpper(s)
    requires OfficialParse.ParseWordFrom(s, 0) == OfficialParse.ConsumeResult(sounds, |s|)
    ensures OfficialToGreek(s) == ToGreek(sounds, SourceBreakers)
    ensures CorrectedOfficialToGreek(s) == ToGreek(sounds, CorrectedBreakers)
  {
    LoweredNoUpper(s);
    assert !IsUpper(s[0]);
    OfficialOneWord(s, sounds);
  }

  /** A lowercase text of the glyphs `w` becomes the Polish spelling of their reading, under either detection. */
  lemma {:induction false} LowerGreekWord(s: string, w: seq<Greek>)
    requires |w| == |s| > 0 && NoUpper(s)
    requires forall k :: 0 <= k < |s| ==> CharToGreek(s[k]) == Some(w[k])
    ensures GreekToOfficial(s) == ToOfficial(Decode(w))
    ensures CorrectedGreekToOfficial(s) == ToOfficial(Decode(w))
  {
    LoweredNoUpper(s);
    assert !IsUpper(s[0]);
    GreekOneWord(s, w);
  }

  /** A sound that starts no softened run, is not j, and is not a breaker before j or i, is rendered plainly. */
  lemma {:induction false} RenderPlainHead(input: seq<Sound>, breakers: set<Sound>)
    requires |input| > 0 && !(IsSoftened(input[0]) && input[0] != I) && input[0] != J
    requires |input| > 1 ==> !((input[1] == J || input[1] == I) && input[0] in breakers)
    ensures Render(input, breakers) == ConsumeNaive(input[0]) + Render(input[1..], breakers)
  {
    assert SoftenedRun(input) == 0;
    assert Step(input, breakers) == Emitted(ConsumeNaive(input[0]), 1);
  }

  /** The rendering of a non-empty sequence is its first step's glyphs, then the rendering of what that step leaves. */
  lemma {:induction false} RenderByStep(input: seq<Sound>, breakers: set<Sound>, glyphs: seq<Greek>, n: nat)
    requires |input| > 0 && Step(input, breakers) == Emitted(glyphs, n)
    ensures n <= |input|
    ensures Render(input, breakers) == glyphs + Render(input[n..], breakers)
  {
  }

  /** The last sound, when it is not j and starts no softened run, is rendered plainly. */
  lemma {:induction false} RenderLast(t: seq<Sound>, breakers: set<Sound>)
    requires |t| == 1 && t[0] != J && !(IsSoftened(t[0]) && t[0] != I)
    ensures Render(t, breakers) == ConsumeNaive(t[0])
  {
    RenderPlainHead(t, breakers);
  }

  /** A rendering written out character by character. */
  lemma {:induction false} WrittenAs(input: seq<Sound>, breakers: set<Sound>, glyphs: seq<Greek>, text: string)
    requires Render(input, breakers) == glyphs && |text| == |glyphs|
    requires forall k :: 0 <= k < |text| ==> text[k] == ToChar(glyphs[k])
    ensures ToGreek(input, breakers) == text
  {
  }

  /** j before a vowel other than y and i is rendered as that vowel's accented form, and both are used. */
  lemma {:induction false} RenderJVowelHead(input: seq<Sound>, breakers: set<Sound>)
    requires |input| >= 2 && input[0] == J && IsVowel(input[1]) && input[1] != Y && input[1] != I
    ensures Render(input, breakers) == SoftenVowel(input[1]) + Render(input[2..], breakers)
  {
    StepOnJ(input, breakers);
  }

  // radość and ραδοστ'

  /** From the o on, "radość" reads as o, ś, ć. */
  lemma {:induction false} ParseOsc(s: string)
    requires |s| == 6 && s[3] == 'o' && s[4] == 'ś' && s[5] == 'ć'
    ensures OfficialParse.ParseWordFrom(s, 3) == OfficialParse.ConsumeResult([O, Sx, Tx], 3)
  {
    assert OfficialParse.ParseWordFrom(s, 6) == OfficialParse.Nothing;
    assert OfficialParse.ParseStep(s, 5) == OfficialParse.ConsumeResult([Tx], 1);
    assert OfficialParse.ParseStep(s, 4) == OfficialParse.ConsumeResult([Sx], 1);
    assert OfficialParse.ParseWordFrom(s, 4) == OfficialParse.ConsumeResult([Sx, Tx], 2);
    assert OfficialParse.ParseStep(s, 3) == OfficialParse.ConsumeResult([O], 1);
  }

  /** From the a on, "radość" reads as a, d, o, ś, ć. */
  lemma {:induction false} ParseAdosc(s: string)
    requires |s| == 6 && s[1] == 'a' && s[2] == 'd' && s[3] == 'o' && s[4] == 'ś' && s[5] == 'ć'
    ensures OfficialParse.ParseWordFrom(s, 1) == OfficialParse.ConsumeResult([A, D, O, Sx, Tx], 5)
  {
    ParseOsc(s);
    assert OfficialParse.ParseStep(s, 2) == OfficialParse.ConsumeResult([D], 1);
    assert OfficialParse.ParseWordFrom(s, 2) == OfficialParse.ConsumeResult([D, O, Sx, Tx], 4);
    assert OfficialParse.ParseStep(s, 1) == OfficialParse.ConsumeResult([A], 1);
  }

  /** "radość" reads letter by letter as r, a, d, o, ś, ć. */
  lemma {:induction false} ParseRadosc(s: string)
    requires |s| == 6 && s[0] == 'r' && s[1] == 'a' && s[2] == 'd' && s[3] == 'o' && s[4] == 'ś' && s[5] == 'ć'
    ensures OfficialParse.ParseWordFrom(s, 0) == OfficialParse.ConsumeResult([R, A, D, O, Sx, Tx], 6)
  {
    ParseAdosc(s);
    assert OfficialParse.ParseStep(s, 0) == OfficialParse.ConsumeResult([R], 1);
  }

  /** ś, ć is a softened run with no vowel after it: σ, τ closed by a bare acute. */
  lemma {:induction false} RenderSc(t: seq<Sound>)
    requires |t| == 2 && t[0] == Sx && t[1] == Tx
    ensures Render(t, SourceBreakers) == [Sigma, Tau, Acute]
  {
    assert SoftenedRun(t[1..][1..]) == 0;
    assert SoftenedRun(t[1..]) == 1;
    assert SoftenedRun(t) == 2;
    assert t[..2] == t;
    assert Step(t, SourceBreakers) == Emitted([Sigma, Tau, Acute], 2);
    assert Render(t[2..], SourceBreakers) == [];
  }

  /** o, ś, ć renders as ο, then σ, τ, '. */
  lemma {:induction false} RenderOsc(t: seq<Sound>)
    requires |t| == 3 && t[0] == O && t[1] == Sx && t[2] == Tx
    ensures Render(t, SourceBreakers) == [Omicron] + [Sigma, Tau, Acute]
  {
    RenderPlainHead(t, SourceBreakers);
    RenderSc(t[1..]);
  }

  /** d, o, ś, ć renders as δ, ο, then σ, τ, '. */
  lemma {:induction false} RenderDosc(t: seq<Sound>)
    requires |t| == 4 && t[0] == D && t[1] == O && t[2] == Sx && t[3] == Tx
    ensures Render(t, SourceBreakers) == [Delta] + ([Omicron] + [Sigma, Tau, Acute])
  {
    RenderPlainHead(t, SourceBreakers);
    RenderOsc(t[1..]);
  }

  /** a, d, o, ś, ć renders as α, δ, ο, then σ, τ, '. */
  lemma {:induction false} RenderAdosc(t: seq<Sound>)
    requires |t| == 5 && t[0] == A && t[1] == D && t[2] == O && t[3] == Sx && t[4] == Tx
    ensures Render(t, SourceBreakers) == [Alpha] + ([Delta] + ([Omicron] + [Sigma, Tau, Acute]))
  {
    RenderPlainHead(t, SourceBreakers);
    RenderDosc(t[1..]);
  }

  /** r, a, d, o, ś, ć renders as ρ, α, δ, ο, then σ, τ, '. */
  lemma {:induction false} RenderRad(input: seq<Sound>)
    requires |input| == 6 && input[0] == R && input[1] == A && input[2] == D && input[3] == O && input[4] == Sx && input[5] == Tx
    ensures Render(input, SourceBreakers) == [Rho] + ([Alpha] + ([Delta] + ([Omicron] + [Sigma, Tau, Acute])))
  {
    RenderPlainHead(input, SourceBreakers);
    RenderAdosc(input[1..]);
  }

  /** The letters of "ραδοστ'" are those of ρ, α, δ, ο, σ, τ, '. */
  lemma {:induction false} RadoscLetters()
    ensures forall k :: 0 <= k < 7 ==> "ραδοστ'"[k] == ToChar(([Rho] + ([Alpha] + ([Delta] + ([Omicron] + [Sigma, Tau, Acute]))))[k])
  {
  }

  /** Written out, that rendering is "ραδοστ'". */
  lemma {:induction false} RenderRadosc(input: seq<Sound>)
    requires |input| == 6 && input[0] == R && input[1] == A && input[2] == D && input[3] == O && input[4] == Sx && input[5] == Tx
    ensures ToGreek(input, SourceBreakers) == "ραδοστ'"
  {
    RenderRad(input);
    RadoscLetters();
    WrittenAs(input, SourceBreakers, [Rho] + ([Alpha] + ([Delta] + ([Omicron] + [Sigma, Tau, Acute]))), "ραδοστ'");
  }

  /** The run σ, τ closed by the acute reads as ś, ć. */
  lemma {:induction false} DecodeSc(w: seq<Greek>)
    requires |w| == 7 && w[4] == Sigma && w[5] == Tau && w[6] == Acute
    ensures DecodeFrom(w, 4) == [Sx, Tx]
  {
    assert RunScan(w, 4, 2, false) == 2;
    assert RunScan(w, 4, 1, false) == 2;
    assert SoftenableRun(w, 4) == 2;
    DecodeFromStep(w, 4, [Sx, Tx], 3);
    DecodeEnd(w);
  }

  /** From the ο on, ρ, α, δ, ο, σ, τ, ' reads as o, then the run σ, τ closed by the acute as ś, ć. */
  lemma {:induction false} DecodeOst(w: seq<Greek>)
    requires |w| == 7 && w[3] == Omicron && w[4] == Sigma && w[5] == Tau && w[6] == Acute
    ensures DecodeFrom(w, 3) == [O] + [Sx, Tx]
  {
    DecodeSc(w);
    NoRunAt(w, 3);
    DecodeNaiveAt(w, 3, [O]);
  }

  /** From the δ on, δ, ο, σ, τ, ' reads as d, o, ś, ć: δ before ο closes no run. */
  lemma {:induction false} DecodeDost(w: seq<Greek>)
    requires |w| == 7 && w[2] == Delta && w[3] == Omicron && w[4] == Sigma && w[5] == Tau && w[6] == Acute
    ensures DecodeFrom(w, 2) == [D] + ([O] + [Sx, Tx])
  {
    DecodeOst(w);
    ShortRunAt(w, 2);
    DecodeNaiveAt(w, 2, [D]);
  }

  /** From the α on, α, δ, ο, σ, τ, ' reads as a, d, o, ś, ć. */
  lemma {:induction false} DecodeAdost(w: seq<Greek>)
    requires |w| == 7 && w[1] == Alpha && w[2] == Delta && w[3] == Omicron && w[4] == Sigma && w[5] == Tau && w[6] == Acute
    ensures DecodeFrom(w, 1) == [A] + ([D] + ([O] + [Sx, Tx]))
  {
    DecodeDost(w);
    NoRunAt(w, 1);
    DecodeNaiveAt(w, 1, [A]);
  }

  /** The sounds r, a, d, o, ś, ć, read one step at a time. */
  lemma {:induction false} RadoscSounds()
    ensures [R] + ([A] + ([D] + ([O] + [Sx, Tx]))) == [R, A, D, O, Sx, Tx]
  {
  }

  /** ρ, α, δ, ο, σ, τ, ' reads as r, a, d, o, ś, ć: ρ and δ close no run. */
  lemma {:induction false} DecodeRadosc(w: seq<Greek>)
    requires |w| == 7 && w[0] == Rho && w[1] == Alpha && w[2] == Delta
    requires w[3] == Omicron && w[4] == Sigma && w[5] == Tau && w[6] == Acute
    ensures Decode(w) == [R, A, D, O, Sx, Tx]
  {
    DecodeAdost(w);
    ShortRunAt(w, 0);
    DecodeNaiveAt(w, 0, [R]);
    RadoscSounds();
  }

  /** From the ś on, r, a, d, o, ś, ć is written with the letters of ś and ć: ś before ć is no soft-vowel case. */
  lemma {:induction false} SpellSc(input: seq<Sound>)
    requires |input| == 6 && input[4] == Sx && input[5] == Tx
    ensures SpellFrom(input, 4) == NaiveToString(Sx) + (NaiveToString(Tx) + "")
  {
    SpellEnd(input);
    SpellNaiveAt(input, 5);
    SpellNaiveAt(input, 4);
  }

  /** From the d on, r, a, d, o, ś, ć is written letter by letter. */
  lemma {:induction false} SpellDosc(input: seq<Sound>)
    requires |input| == 6 && input[2] == D && input[3] == O && input[4] == Sx && input[5] == Tx
    ensures SpellFrom(input, 2) == NaiveToString(D) + (NaiveToString(O) + (NaiveToString(Sx) + (NaiveToString(Tx) + "")))
  {
    SpellSc(input);
    SpellNaiveAt(input, 3);
    SpellNaiveAt(input, 2);
  }

  /** The letters of r, a, d, o, ś and ć make "radość". */
  lemma {:induction false} RadoscSpelled()
    ensures NaiveToString(R) + (NaiveToString(A) + (NaiveToString(D) + (NaiveToString(O) + (NaiveToString(Sx) + (NaiveToString(Tx) + ""))))) == "radość"
  {
  }

  /** r, a, d, o, ś, ć is written letter by letter. */
  lemma {:induction false} SpellRadosc(input: seq<Sound>)
    requires |input| == 6 && input[0] == R && input[1] == A && input[2] == D && input[3] == O && input[4] == Sx && input[5] == Tx
    ensures ToOfficial(input) == "radość"
  {
    SpellDosc(input);
    SpellNaiveAt(input, 1);
    SpellNaiveAt(input, 0);
    RadoscSpelled();
  }

  /** The reading of "radość", sound by sound. */
  lemma {:induction false} ParsedRadosc(s: string)
    requires |s| == 6 && s[0] == 'r' && s[1] == 'a' && s[2] == 'd' && s[3] == 'o' && s[4] == 'ś' && s[5] == 'ć'
    ensures var r := OfficialParse.ParseWordFrom(s, 0);
      r.consumed == 6 && |r.result| == 6 && r.result[0] == R && r.result[1] == A && r.result[2] == D && r.result[3] == O && r.result[4] == Sx && r.result[5] == Tx
  {
    ParseRadosc(s);
  }

  /** The source's "radość" in Greek letters, on any text with those six characters. */
  lemma {:induction false} RadoscToGreek(s: string)
    requires |s| == 6 && s[0] == 'r' && s[1] == 'a' && s[2] == 'd' && s[3] == 'o' && s[4] == 'ś' && s[5] == 'ć'
    ensures OfficialToGreek(s) == "ραδοστ'"
  {
    NoUpperOfSix(s);
    ParsedRadosc(s);
    var sounds := OfficialParse.ParseWordFrom(s, 0).result;
    LowerOfficialWord(s, sounds);
    RenderRadosc(sounds);
  }

  /** `official_to_greek("radość")` is "ραδοστ'". */
  lemma {:induction false} OfficialToGreekRadosc()
    ensures OfficialToGreek("radość") == "ραδοστ'"
  {
    RadoscToGreek("radość");
  }

  /** A text with the seven characters of "ραδοστ'" is the one lowercase word of those glyphs. */
  lemma {:induction false} RadoscGreekWord(s: string, w: seq<Greek>)
    requires |s| == 7 && s[0] == 'ρ' && s[1] == 'α' && s[2] == 'δ' && s[3] == 'ο' && s[4] == 'σ' && s[5] == 'τ' && s[6] == '\''
    requires |w| == 7 && w[0] == Rho && w[1] == Alpha && w[2] == Delta
    requires w[3] == Omicron && w[4] == Sigma && w[5] == Tau && w[6] == Acute
    ensures GreekToOfficial(s) == ToOfficial(Decode(w))
  {
    NoUpperOfSeven(s);
    LowerGreekWord(s, w);
  }

  /** The reading of ρ, α, δ, ο, σ, τ, ', sound by sound. */
  lemma {:induction false} DecodedRadosc(w: seq<Greek>)
    requires |w| == 7 && w[0] == Rho && w[1] == Alpha && w[2] == Delta
    requires w[3] == Omicron && w[4] == Sigma && w[5] == Tau && w[6] == Acute
    ensures var d := Decode(w); |d| == 6 && d[0] == R && d[1] == A && d[2] == D && d[3] == O && d[4] == Sx && d[5] == Tx
  {
    DecodeRadosc(w);
  }

  /** The source's "ραδοστ'" in Polish spelling, on any text with those seven characters. */
  lemma {:induction false} RadoscToOfficial(s: string, w: seq<Greek>)
    requires |s| == 7 && s[0] == 'ρ' && s[1] == 'α' && s[2] == 'δ' && s[3] == 'ο' && s[4] == 'σ' && s[5] == 'τ' && s[6] == '\''
    requires |w| == 7 && w[0] == Rho && w[1] == Alpha && w[2] == Delta
    requires w[3] == Omicron && w[4] == Sigma && w[5] == Tau && w[6] == Acute
    ensures GreekToOfficial(s) == "radość"
  {
    RadoscGreekWord(s, w);
    DecodedRadosc(w);
    SpellRadosc(Decode(w));
  }

  /** `greek_to_official("ραδοστ'")` is "radość". */
  lemma {:induction false} GreekToOfficialRadosc()
    ensures GreekToOfficial("ραδοστ'") == "radość"
  {
    RadoscToOfficial("ραδοστ'", [Rho, Alpha, Delta, Omicron, Sigma, Tau, Acute]);
  }

  // dziób and δόυμπ

  /** "dziób" reads as dź and ó from the four letters dzió, then b. */
  lemma {:induction false} ParseDziob(s: string)
    requires |s| == 5 && s[0] == 'd' && s[1] == 'z' && s[2] == 'i' && s[3] == 'ó' && s[4] == 'b'
    ensures OfficialParse.ParseWordFrom(s, 0) == OfficialParse.ConsumeResult([Dx, Ou, B], 5)
  {
    assert OfficialParse.ParseWordFrom(s, 5) == OfficialParse.Nothing;
    assert OfficialParse.ParseStep(s, 4) == OfficialParse.ConsumeResult([B], 1);
    assert OfficialParse.TryDzx(s, 0) == OfficialParse.ConsumeResult([Dx, Ou], 4);
    assert OfficialParse.ParseStep(s, 0) == OfficialParse.ConsumeResult([Dx, Ou], 4);
  }

  /** dź, ó, b renders as δ closed by ό and υ, then μπ. */
  lemma {:induction false} RenderDzio(input: seq<Sound>)
    requires |input| == 3 && input[0] == Dx && input[1] == Ou && input[2] == B
    ensures Render(input, SourceBreakers) == [Delta, OmicronAcute, Upsilon] + [Mu, Pi]
  {
    assert SoftenedRun(input[1..]) == 0;
    assert SoftenedRun(input) == 1;
    assert input[..1] == [Dx];
    assert Step(input, SourceBreakers) == Emitted([Delta, OmicronAcute, Upsilon], 2);
    RenderPlainHead(input[2..], SourceBreakers);
    assert Render(input[2..][1..], SourceBreakers) == [];
  }

  /** The letters of "δόυμπ" are those of δ, ό, υ, μ, π. */
  lemma {:induction false} DziobLetters()
    ensures forall k :: 0 <= k < 5 ==> "δόυμπ"[k] == ToChar(([Delta, OmicronAcute, Upsilon] + [Mu, Pi])[k])
  {
  }

  /** Written out, that rendering is "δόυμπ". */
  lemma {:induction false} RenderDziob(input: seq<Sound>)
    requires |input| == 3 && input[0] == Dx && input[1] == Ou && input[2] == B
    ensures ToGreek(input, SourceBreakers) == "δόυμπ"
  {
    RenderDzio(input);
    DziobLetters();
    WrittenAs(input, SourceBreakers, [Delta, OmicronAcute, Upsilon] + [Mu, Pi], "δόυμπ");
  }

  /** δ, ό, υ, μ, π reads as the run δ closed by όυ, that is dź and ó, then μπ as b. */
  lemma {:induction false} DecodeDziob(w: seq<Greek>)
    requires |w| == 5 && w[0] == Delta && w[1] == OmicronAcute && w[2] == Upsilon && w[3] == Mu && w[4] == Pi
    ensures Decode(w) == [Dx, Ou, B]
  {
    NoRunAt(w, 3);
    DecodeDigraphAt(w, 3, [B]);
    DecodeEnd(w);
    assert RunScan(w, 0, 1, false) == 1;
    assert SoftenableRun(w, 0) == 1;
    DecodeFromStep(w, 0, [Dx, Ou], 3);
  }

  /** The soft base of dź with its i, then the letters of ó and b, make "dziób". */
  lemma {:induction false} DziobSpelled()
    ensures SoftBase(Dx) + "i" + (NaiveToString(Ou) + (NaiveToString(B) + "")) == "dziób"
  {
  }

  /** dź before ó is written "dzi", then ó and b. */
  lemma {:induction false} SpellDziob(input: seq<Sound>)
    requires |input| == 3 && input[0] == Dx && input[1] == Ou && input[2] == B
    ensures ToOfficial(input) == "dziób"
  {
    SpellEnd(input);
    SpellNaiveAt(input, 2);
    SpellNaiveAt(input, 1);
    SpellSoftAt(input, 0);
    DziobSpelled();
  }

  /** The reading of "dziób", sound by sound. */
  lemma {:induction false} ParsedDziob(s: string)
    requires |s| == 5 && s[0] == 'd' && s[1] == 'z' && s[2] == 'i' && s[3] == 'ó' && s[4] == 'b'
    ensures var r := OfficialParse.ParseWordFrom(s, 0);
      r.consumed == 5 && |r.result| == 3 && r.result[0] == Dx && r.result[1] == Ou && r.result[2] == B
  {
    ParseDziob(s);
  }

  /** The source's "dziób" in Greek letters, on any text with those five characters. */
  lemma {:induction false} DziobToGreek(s: string)
    requires |s| == 5 && s[0] == 'd' && s[1] == 'z' && s[2] == 'i' && s[3] == 'ó' && s[4] == 'b'
    ensures OfficialToGreek(s) == "δόυμπ"
  {
    NoUpperOfFive(s);
    ParsedDziob(s);
    var sounds := OfficialParse.ParseWordFrom(s, 0).result;
    LowerOfficialWord(s, sounds);
    RenderDziob(sounds);
  }

  /** `official_to_greek("dziób")` is "δόυμπ". */
  lemma {:induction false} OfficialToGreekDziob()
    ensures OfficialToGreek("dziób") == "δόυμπ"
  {
    DziobToGreek("dziób");
  }

  /** The reading of δ, ό, υ, μ, π, sound by sound. */
  lemma {:induction false} DecodedDziob(w: seq<Greek>)
    requires |w| == 5 && w[0] == Delta && w[1] == OmicronAcute && w[2] == Upsilon && w[3] == Mu && w[4] == Pi
    ensures var d := Decode(w); |d| == 3 && d[0] == Dx && d[1] == Ou && d[2] == B
  {
    DecodeDziob(w);
  }

  /** The source's "δόυμπ" in Polish spelling, on any text with those five characters. */
  lemma {:induction false} DziobToOfficial(s: string, w: seq<Greek>)
    requires |s| == 5 && s[0] == 'δ' && s[1] == 'ό' && s[2] == 'υ' && s[3] == 'μ' && s[4] == 'π'
    requires |w| == 5 && w[0] == Delta && w[1] == OmicronAcute && w[2] == Upsilon && w[3] == Mu && w[4] == Pi
    ensures GreekToOfficial(s) == "dziób"
  {
    NoUpperOfFive(s);
    LowerGreekWord(s, w);
    DecodedDziob(w);
    SpellDziob(Decode(w));
  }

  /** `greek_to_official("δόυμπ")` is "dziób". */
  lemma {:induction false} GreekToOfficialDziob()
    ensures GreekToOfficial("δόυμπ") == "dziób"
  {
    DziobToOfficial("δόυμπ", [Delta, OmicronAcute, Upsilon, Mu, Pi]);
  }

  // zjem and ζ\έμ

  /** "zjem" reads letter by letter as z, j, e, m: z before j is no soft consonant. */
  lemma {:induction false} ParseZjem(s: string)
    requires |s| == 4 && s[0] == 'z' && s[1] == 'j' && s[2] == 'e' && s[3] == 'm'
    ensures OfficialParse.ParseWordFrom(s, 0) == OfficialParse.ConsumeResult([Z, J, E, M], 4)
  {
    assert OfficialParse.ParseWordFrom(s, 4) == OfficialParse.Nothing;
    assert OfficialParse.ParseStep(s, 3) == OfficialParse.ConsumeResult([M], 1);
    assert OfficialParse.ParseStep(s, 2) == OfficialParse.ConsumeResult([E], 1);
    assert OfficialParse.ParseWordFrom(s, 2) == OfficialParse.ConsumeResult([E, M], 2);
    assert OfficialParse.ParseStep(s, 1) == OfficialParse.ConsumeResult([J], 1);
    assert OfficialParse.ParseStep(s, 0) == OfficialParse.ConsumeResult([Z], 1);
  }

  /** j, e, m renders as έ for j and e, then μ. */
  lemma {:induction false} RenderJem(t: seq<Sound>)
    requires |t| == 3 && t[0] == J && t[1] == E && t[2] == M
    ensures Render(t, SourceBreakers) == [EpsilonAcute] + [Mu]
  {
    RenderJVowelHead(t, SourceBreakers);
    RenderLast(t[2..], SourceBreakers);
  }

  /** z, j, e, m renders as ζ and a break mark, z being a breaker before j, then έ for j and e, then μ. */
  lemma {:induction false} RenderZje(input: seq<Sound>)
    requires |input| == 4 && input[0] == Z && input[1] == J && input[2] == E && input[3] == M
    ensures Render(input, SourceBreakers) == [Zeta, Break] + ([EpsilonAcute] + [Mu])
  {
    BreakerSetsValid();
    StepOnBreaker(input, SourceBreakers);
    RenderByStep(input, SourceBreakers, [Zeta, Break], 1);
    RenderJem(input[1..]);
  }

  /** The letters of "ζ\έμ" are those of ζ, \, έ, μ. */
  lemma {:induction false} ZjemLetters()
    ensures forall k :: 0 <= k < 4 ==> "ζ\\έμ"[k] == ToChar(([Zeta, Break] + ([EpsilonAcute] + [Mu]))[k])
  {
  }

  /** Written out, that rendering is "ζ\έμ". */
  lemma {:induction false} RenderZjem(input: seq<Sound>)
    requires |input| == 4 && input[0] == Z && input[1] == J && input[2] == E && input[3] == M
    ensures ToGreek(input, SourceBreakers) == "ζ\\έμ"
  {
    RenderZje(input);
    ZjemLetters();
    WrittenAs(input, SourceBreakers, [Zeta, Break] + ([EpsilonAcute] + [Mu]), "ζ\\έμ");
  }

  /** From the break mark on, \, έ, μ reads as j, e, m. */
  lemma {:induction false} DecodeJem(w: seq<Greek>)
    requires |w| == 4 && w[1] == Break && w[2] == EpsilonAcute && w[3] == Mu
    ensures DecodeFrom(w, 1) == [J, E, M]
  {
    NoRunAt(w, 3);
    DecodeNaiveAt(w, 3, [M]);
    DecodeEnd(w);
    NoRunAt(w, 2);
    DecodeNaiveAt(w, 2, [J, E]);
    BreakReadsNothing(w, 1);
  }

  /** ζ before the break mark is no run: it reads as z, the mark as nothing, έ as j and e, μ as m. */
  lemma {:induction false} DecodeZjem(w: seq<Greek>)
    requires |w| == 4 && w[0] == Zeta && w[1] == Break && w[2] == EpsilonAcute && w[3] == Mu
    ensures Decode(w) == [Z, J, E, M]
  {
    DecodeJem(w);
    ShortRunAt(w, 0);
    DecodeNaiveAt(w, 0, [Z]);
  }

  /** From the e on, z, j, e, m is written with the letters of e and m. */
  lemma {:induction false} SpellEm(input: seq<Sound>)
    requires |input| == 4 && input[2] == E && input[3] == M
    ensures SpellFrom(input, 2) == NaiveToString(E) + (NaiveToString(M) + "")
  {
    SpellEnd(input);
    SpellNaiveAt(input, 3);
    SpellNaiveAt(input, 2);
  }

  /** The letters of z, j, e and m make "zjem". */
  lemma {:induction false} ZjemSpelled()
    ensures NaiveToString(Z) + (NaiveToString(J) + (NaiveToString(E) + (NaiveToString(M) + ""))) == "zjem"
  {
  }

  /** z, j, e, m is written letter by letter. */
  lemma {:induction false} SpellZjem(input: seq<Sound>)
    requires |input| == 4 && input[0] == Z && input[1] == J && input[2] == E && input[3] == M
    ensures ToOfficial(input) == "zjem"
  {
    SpellEm(input);
    SpellNaiveAt(input, 1);
    SpellNaiveAt(input, 0);
    ZjemSpelled();
  }

  /** The reading of "zjem", sound by sound. */
  lemma {:induction false} ParsedZjem(s: string)
    requires |s| == 4 && s[0] == 'z' && s[1] == 'j' && s[2] == 'e' && s[3] == 'm'
    ensures var r := OfficialParse.ParseWordFrom(s, 0);
      r.consumed == 4 && |r.result| == 4 && r.result[0] == Z && r.result[1] == J && r.result[2] == E && r.result[3] == M
  {
    ParseZjem(s);
  }

  /** The source's "zjem" in Greek letters, on any text with those four characters. */
  lemma {:induction false} ZjemToGreek(s: string)
    requires |s| == 4 && s[0] == 'z' && s[1] == 'j' && s[2] == 'e' && s[3] == 'm'
    ensures OfficialToGreek(s) == "ζ\\έμ"
  {
    NoUpperOfFour(s);
    ParsedZjem(s);
    var sounds := OfficialParse.ParseWordFrom(s, 0).result;
    LowerOfficialWord(s, sounds);
    RenderZjem(sounds);
  }

  /** `official_to_greek("zjem")` is "ζ\έμ". */
  lemma {:induction false} OfficialToGreekZjem()
    ensures OfficialToGreek("zjem") == "ζ\\έμ"
  {
    ZjemToGreek("zjem");
  }

  /** The reading of ζ, \, έ, μ, sound by sound. */
  lemma {:induction false} DecodedZjem(w: seq<Greek>)
    requires |w| == 4 && w[0] == Zeta && w[1] == Break && w[2] == EpsilonAcute && w[3] == Mu
    ensures var d := Decode(w); |d| == 4 && d[0] == Z && d[1] == J && d[2] == E && d[3] == M
  {
    DecodeZjem(w);
  }

  /** The source's "ζ\έμ" in Polish spelling, on any text with those four characters. */
  lemma {:induction false} ZjemToOfficial(s: string, w: seq<Greek>)
    requires |s| == 4 && s[0] == 'ζ' && s[1] == '\\' && s[2] == 'έ' && s[3] == 'μ'
    requires |w| == 4 && w[0] == Zeta && w[1] == Break && w[2] == EpsilonAcute && w[3] == Mu
    ensures GreekToOfficial(s) == "zjem"
  {
    NoUpperOfFour(s);
    LowerGreekWord(s, w);
    DecodedZjem(w);
    SpellZjem(Decode(w));
  }

  /** `greek_to_official("ζ\έμ")` is "zjem". */
  lemma {:induction false} GreekToOfficialZjem()
    ensures GreekToOfficial("ζ\\έμ") == "zjem"
  {
    ZjemToOfficial("ζ\\έμ", [Zeta, Break, EpsilonAcute, Mu]);
  }

  // mówi and μουβί

  /** "mówi" reads letter by letter as m, ó, w, i. */
  lemma {:induction false} ParseMowi(s: string)
    requires |s| == 4 && s[0] == 'm' && s[1] == 'ó' && s[2] == 'w' && s[3] == 'i'
    ensures OfficialParse.ParseWordFrom(s, 0) == OfficialParse.ConsumeResult([M, Ou, W, I], 4)
  {
    assert OfficialParse.ParseWordFrom(s, 4) == OfficialParse.Nothing;
    assert OfficialParse.ParseStep(s, 3) == OfficialParse.ConsumeResult([I], 1);
    assert OfficialParse.ParseStep(s, 2) == OfficialParse.ConsumeResult([W], 1);
    assert OfficialParse.ParseWordFrom(s, 2) == OfficialParse.ConsumeResult([W, I], 2);
    assert OfficialParse.ParseStep(s, 1) == OfficialParse.ConsumeResult([Ou], 1);
    assert OfficialParse.ParseStep(s, 0) == OfficialParse.ConsumeResult([M], 1);
  }

  /** w, i renders as β, ί: w is no breaker, so no break mark comes before the ί. */
  lemma {:induction false} RenderWi(t: seq<Sound>)
    requires |t| == 2 && t[0] == W && t[1] == I
    ensures Render(t, SourceBreakers) == [Beta] + [IotaAcute]
  {
    RenderPlainHead(t, SourceBreakers);
    RenderLast(t[1..], SourceBreakers);
  }

  /** ó, w, i renders as ου, β, ί. */
  lemma {:induction false} RenderOuwi(t: seq<Sound>)
    requires |t| == 3 && t[0] == Ou && t[1] == W && t[2] == I
    ensures Render(t, SourceBreakers) == [Omicron, Upsilon] + ([Beta] + [IotaAcute])
  {
    RenderPlainHead(t, SourceBreakers);
    RenderWi(t[1..]);
  }

  /** m, ó, w, i renders sound by sound as μ, ου, β, ί. */
  lemma {:induction false} RenderMow(input: seq<Sound>)
    requires |input| == 4 && input[0] == M && input[1] == Ou && input[2] == W && input[3] == I
    ensures Render(input, SourceBreakers) == [Mu] + ([Omicron, Upsilon] + ([Beta] + [IotaAcute]))
  {
    RenderPlainHead(input, SourceBreakers);
    RenderOuwi(input[1..]);
  }

  /** The letters of "μουβί" are those of μ, ο, υ, β, ί. */
  lemma {:induction false} MowiLetters()
    ensures forall k :: 0 <= k < 5 ==> "μουβί"[k] == ToChar(([Mu] + ([Omicron, Upsilon] + ([Beta] + [IotaAcute])))[k])
  {
  }

  /** Written out, that rendering is "μουβί". */
  lemma {:induction false} RenderMowi(input: seq<Sound>)
    requires |input| == 4 && input[0] == M && input[1] == Ou && input[2] == W && input[3] == I
    ensures ToGreek(input, SourceBreakers) == "μουβί"
  {
    RenderMow(input);
    MowiLetters();
    WrittenAs(input, SourceBreakers, [Mu] + ([Omicron, Upsilon] + ([Beta] + [IotaAcute])), "μουβί");
  }

  /** From the β on, β, ί reads as w, i. */
  lemma {:induction false} DecodeWi(w: seq<Greek>)
    requires |w| == 5 && w[3] == Beta && w[4] == IotaAcute
    ensures DecodeFrom(w, 3) == [W, I]
  {
    NoRunAt(w, 4);
    DecodeNaiveAt(w, 4, [I]);
    DecodeEnd(w);
    NoRunAt(w, 3);
    DecodeNaiveAt(w, 3, [W]);
  }

  /** From the ο on, ο, υ, β, ί reads as ó, then w, i. */
  lemma {:induction false} DecodeOuwi(w: seq<Greek>)
    requires |w| == 5 && w[1] == Omicron && w[2] == Upsilon && w[3] == Beta && w[4] == IotaAcute
    ensures DecodeFrom(w, 1) == [Ou] + [W, I]
  {
    DecodeWi(w);
    NoRunAt(w, 1);
    DecodeDigraphAt(w, 1, [Ou]);
  }

  /** The sounds m, ó, w, i, read one step at a time. */
  lemma {:induction false} MowiSounds()
    ensures [M] + ([Ou] + [W, I]) == [M, Ou, W, I]
  {
  }

  /** μ, ο, υ, β, ί reads as m, the digraph ου as ó, then w and i. */
  lemma {:induction false} DecodeMowi(w: seq<Greek>)
    requires |w| == 5 && w[0] == Mu && w[1] == Omicron && w[2] == Upsilon && w[3] == Beta && w[4] == IotaAcute
    ensures Decode(w) == [M, Ou, W, I]
  {
    DecodeOuwi(w);
    NoRunAt(w, 0);
    DecodeNaiveAt(w, 0, [M]);
    MowiSounds();
  }

  /** From the w on, m, ó, w, i is written with the letters of w and i. */
  lemma {:induction false} SpellWi(input: seq<Sound>)
    requires |input| == 4 && input[2] == W && input[3] == I
    ensures SpellFrom(input, 2) == NaiveToString(W) + (NaiveToString(I) + "")
  {
    SpellEnd(input);
    SpellNaiveAt(input, 3);
    SpellNaiveAt(input, 2);
  }

  /** From the ó on, m, ó, w, i is written with the letters of ó, w and i. */
  lemma {:induction false} SpellOuwi(input: seq<Sound>)
    requires |input| == 4 && input[1] == Ou && input[2] == W && input[3] == I
    ensures SpellFrom(input, 1) == NaiveToString(Ou) + (NaiveToString(W) + (NaiveToString(I) + ""))
  {
    SpellWi(input);
    SpellNaiveAt(input, 1);
  }

  /** The letters of m, ó, w and i make "mówi". */
  lemma {:induction false} MowiSpelled()
    ensures NaiveToString(M) + (NaiveToString(Ou) + (NaiveToString(W) + (NaiveToString(I) + ""))) == "mówi"
  {
  }

  /** m, ó, w, i is written letter by letter: no j follows the m or the w. */
  lemma {:induction false} SpellMowi(input: seq<Sound>)
    requires |input| == 4 && input[0] == M && input[1] == Ou && input[2] == W && input[3] == I
    ensures ToOfficial(input) == "mówi"
  {
    SpellOuwi(input);
    SpellNaiveAt(input, 0);
    MowiSpelled();
  }

  /** The reading of "mówi", sound by sound. */
  lemma {:induction false} ParsedMowi(s: string)
    requires |s| == 4 && s[0] == 'm' && s[1] == 'ó' && s[2] == 'w' && s[3] == 'i'
    ensures var r := OfficialParse.ParseWordFrom(s, 0);
      r.consumed == 4 && |r.result| == 4 && r.result[0] == M && r.result[1] == Ou && r.result[2] == W && r.result[3] == I
  {
    ParseMowi(s);
  }

  /** The source's "mówi" in Greek letters, on any text with those four characters. */
  lemma {:induction false} MowiToGreek(s: string)
    requires |s| == 4 && s[0] == 'm' && s[1] == 'ó' && s[2] == 'w' && s[3] == 'i'
    ensures OfficialToGreek(s) == "μουβί"
  {
    NoUpperOfFour(s);
    ParsedMowi(s);
    var sounds := OfficialParse.ParseWordFrom(s, 0).result;
    LowerOfficialWord(s, sounds);
    RenderMowi(sounds);
  }

  /** `official_to_greek("mówi")` is "μουβί". */
  lemma {:induction false} OfficialToGreekMowi()
    ensures OfficialToGreek("mówi") == "μουβί"
  {
    MowiToGreek("mówi");
  }

  /** The reading of μ, ο, υ, β, ί, sound by sound. */
  lemma {:induction false} DecodedMowi(w: seq<Greek>)
    requires |w| == 5 && w[0] == Mu && w[1] == Omicron && w[2] == Upsilon && w[3] == Beta && w[4] == IotaAcute
    ensures var d := Decode(w); |d| == 4 && d[0] == M && d[1] == Ou && d[2] == W && d[3] == I
  {
    DecodeMowi(w);
  }

  /** The source's "μουβί" in Polish spelling, on any text with those five characters. */
  lemma {:induction false} MowiToOfficial(s: string, w: seq<Greek>)
    requires |s| == 5 && s[0] == 'μ' && s[1] == 'ο' && s[2] == 'υ' && s[3] == 'β' && s[4] == 'ί'
    requires |w| == 5 && w[0] == Mu && w[1] == Omicron && w[2] == Upsilon && w[3] == Beta && w[4] == IotaAcute
    ensures GreekToOfficial(s) == "mówi"
  {
    NoUpperOfFive(s);
    LowerGreekWord(s, w);
    DecodedMowi(w);
    SpellMowi(Decode(w));
  }

  /** `greek_to_official("μουβί")` is "mówi". */
  lemma {:induction false} GreekToOfficialMowi()
    ensures GreekToOfficial("μουβί") == "mówi"
  {
    MowiToOfficial("μουβί", [Mu, Omicron, Upsilon, Beta, IotaAcute]);
  }

  // miodu and μόδυ

  /** "miodu" reads as m, then i before o as j and o, then d and u. */
  lemma {:induction false} ParseMiodu(s: string)
    requires |s| == 5 && s[0] == 'm' && s[1] == 'i' && s[2] == 'o' && s[3] == 'd' && s[4] == 'u'
    ensures OfficialParse.ParseWordFrom(s, 0) == OfficialParse.ConsumeResult([M, J, O, D, U], 5)
  {
    assert OfficialParse.ParseWordFrom(s, 5) == OfficialParse.Nothing;
    assert OfficialParse.ParseStep(s, 4) == OfficialParse.ConsumeResult([U], 1);
    assert OfficialParse.ParseStep(s, 3) == OfficialParse.ConsumeResult([D], 1);
    assert OfficialParse.ParseWordFrom(s, 3) == OfficialParse.ConsumeResult([D, U], 2);
    assert OfficialParse.ParseStep(s, 1) == OfficialParse.ConsumeResult([J, O], 2);
    assert OfficialParse.ParseStep(s, 0) == OfficialParse.ConsumeResult([M], 1);
  }

  /** d, u renders as δ, υ. */
  lemma {:induction false} RenderDu(t: seq<Sound>)
    requires |t| == 2 && t[0] == D && t[1] == U
    ensures Render(t, SourceBreakers) == [Delta] + [Upsilon]
  {
    RenderPlainHead(t, SourceBreakers);
    RenderLast(t[1..], SourceBreakers);
  }

  /** j, o, d, u renders as ό for j and o, then δ and υ. */
  lemma {:induction false} RenderJodu(t: seq<Sound>)
    requires |t| == 4 && t[0] == J && t[1] == O && t[2] == D && t[3] == U
    ensures Render(t, SourceBreakers) == [OmicronAcute] + ([Delta] + [Upsilon])
  {
    RenderJVowelHead(t, SourceBreakers);
    RenderDu(t[2..]);
  }

  /** m, j, o, d, u renders as μ, then ό for j and o, then δ and υ. */
  lemma {:induction false} RenderMiodu(input: seq<Sound>)
    requires |input| == 5 && input[0] == M && input[1] == J && input[2] == O && input[3] == D && input[4] == U
    ensures Render(input, SourceBreakers) == [Mu] + ([OmicronAcute] + ([Delta] + [Upsilon]))
  {
    RenderPlainHead(input, SourceBreakers);
    RenderJodu(input[1..]);
  }

  /** The letters of "μόδυ" are those of μ, ό, δ, υ. */
  lemma {:induction false} ModuLetters()
    ensures forall k :: 0 <= k < 4 ==> "μόδυ"[k] == ToChar(([Mu] + ([OmicronAcute] + ([Delta] + [Upsilon])))[k])
  {
  }

  /** Written out, that rendering is "μόδυ". */
  lemma {:induction false} RenderModu(input: seq<Sound>)
    requires |input| == 5 && input[0] == M && input[1] == J && input[2] == O && input[3] == D && input[4] == U
    ensures ToGreek(input, SourceBreakers) == "μόδυ"
  {
    RenderMiodu(input);
    ModuLetters();
    WrittenAs(input, SourceBreakers, [Mu] + ([OmicronAcute] + ([Delta] + [Upsilon])), "μόδυ");
  }

  /** From the δ on, δ, υ reads as d, u: δ before υ closes no run. */
  lemma {:induction false} DecodeDu(w: seq<Greek>)
    requires |w| == 4 && w[2] == Delta && w[3] == Upsilon
    ensures DecodeFrom(w, 2) == [D, U]
  {
    NoRunAt(w, 3);
    DecodeNaiveAt(w, 3, [U]);
    DecodeEnd(w);
    ShortRunAt(w, 2);
    DecodeNaiveAt(w, 2, [D]);
  }

  /** From the ό on, ό, δ, υ reads as j, o, then d, u. */
  lemma {:induction false} DecodeOdu(w: seq<Greek>)
    requires |w| == 4 && w[1] == OmicronAcute && w[2] == Delta && w[3] == Upsilon
    ensures DecodeFrom(w, 1) == [J, O] + [D, U]
  {
    DecodeDu(w);
    NoRunAt(w, 1);
    DecodeNaiveAt(w, 1, [J, O]);
  }

  /** The sounds m, j, o, d, u, read one step at a time. */
  lemma {:induction false} MioduSounds()
    ensures [M] + ([J, O] + [D, U]) == [M, J, O, D, U]
  {
  }

  /** μ, ό, δ, υ reads as m, ό as j and o, then δ before υ, which closes no run, as d, then u. */
  lemma {:induction false} DecodeModu(w: seq<Greek>)
    requires |w| == 4 && w[0] == Mu && w[1] == OmicronAcute && w[2] == Delta && w[3] == Upsilon
    ensures Decode(w) == [M, J, O, D, U]
  {
    DecodeOdu(w);
    NoRunAt(w, 0);
    DecodeNaiveAt(w, 0, [M]);
    MioduSounds();
  }

  /** From the d on, m, j, o, d, u is written with the letters of d and u. */
  lemma {:induction false} SpellDu(input: seq<Sound>)
    requires |input| == 5 && input[3] == D && input[4] == U
    ensures SpellFrom(input, 3) == NaiveToString(D) + (NaiveToString(U) + "")
  {
    SpellEnd(input);
    SpellNaiveAt(input, 4);
    SpellNaiveAt(input, 3);
  }

  /** M with the i written for j, then the letters of o, d and u, make "miodu". */
  lemma {:induction false} MioduSpelled()
    ensures IForJLetter(M) + "i" + (NaiveToString(O) + (NaiveToString(D) + (NaiveToString(U) + ""))) == "miodu"
  {
  }

  /** m before j and o is written "mi", then o, d and u. */
  lemma {:induction false} SpellMiodu(input: seq<Sound>)
    requires |input| == 5 && input[0] == M && input[1] == J && input[2] == O && input[3] == D && input[4] == U
    ensures ToOfficial(input) == "miodu"
  {
    SpellDu(input);
    SpellNaiveAt(input, 2);
    SpellIForJAt(input, 0);
    IForJLetterIsNaive(M);
    MioduSpelled();
  }

  /** The reading of "miodu", sound by sound. */
  lemma {:induction false} ParsedMiodu(s: string)
    requires |s| == 5 && s[0] == 'm' && s[1] == 'i' && s[2] == 'o' && s[3] == 'd' && s[4] == 'u'
    ensures var r := OfficialParse.ParseWordFrom(s, 0);
      r.consumed == 5 && |r.result| == 5 && r.result[0] == M && r.result[1] == J && r.result[2] == O && r.result[3] == D && r.result[4] == U
  {
    ParseMiodu(s);
  }

  /** The source's "miodu" in Greek letters, on any text with those five characters. */
  lemma {:induction false} MioduToGreek(s: string)
    requires |s| == 5 && s[0] == 'm' && s[1] == 'i' && s[2] == 'o' && s[3] == 'd' && s[4] == 'u'
    ensures OfficialToGreek(s) == "μόδυ"
  {
    NoUpperOfFive(s);
    ParsedMiodu(s);
    var sounds := OfficialParse.ParseWordFrom(s, 0).result;
    LowerOfficialWord(s, sounds);
    RenderModu(sounds);
  }

  /** `official_to_greek("miodu")` is "μόδυ". */
  lemma {:induction false} OfficialToGreekMiodu()
    ensures OfficialToGreek("miodu") == "μόδυ"
  {
    MioduToGreek("miodu");
  }

  /** The reading of μ, ό, δ, υ, sound by sound. */
  lemma {:induction false} DecodedMiodu(w: seq<Greek>)
    requires |w| == 4 && w[0] == Mu && w[1] == OmicronAcute && w[2] == Delta && w[3] == Upsilon
    ensures var d := Decode(w); |d| == 5 && d[0] == M && d[1] == J && d[2] == O && d[3] == D && d[4] == U
  {
    DecodeModu(w);
  }

  /** The source's "μόδυ" in Polish spelling, on any text with those four characters. */
  lemma {:induction false} MioduToOfficial(s: string, w: seq<Greek>)
    requires |s| == 4 && s[0] == 'μ' && s[1] == 'ό' && s[2] == 'δ' && s[3] == 'υ'
    requires |w| == 4 && w[0] == Mu && w[1] == OmicronAcute && w[2] == Delta && w[3] == Upsilon
    ensures GreekToOfficial(s) == "miodu"
  {
    NoUpperOfFour(s);
    LowerGreekWord(s, w);
    DecodedMiodu(w);
    SpellMiodu(Decode(w));
  }

  /** `greek_to_official("μόδυ")` is "miodu". */
  lemma {:induction false} GreekToOfficialMiodu()
    ensures GreekToOfficial("μόδυ") == "miodu"
  {
    MioduToOfficial("μόδυ", [Mu, OmicronAcute, Delta, Upsilon]);
  }
}
