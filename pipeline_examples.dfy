/**
 * A text that is one word: the pipelines render it through the word's own
 * rendering and its capitalisation mode.  Then the source's examples
 * "miód" and "μόυδ" both ways, and "Κέδι" with and without casing.
 */
module PipelineExamples {
  import opened Wrappers
  import opened Casing
  import opened Parts
  import opened Sounds
  import opened Glyphs
  import opened GreekRender
  import opened GreekParse
  import opened OfficialRender
  import opened OfficialSpellingExamples
  import opened Pipeline
  import opened PipelineFacts
  import OfficialParse
  import OfficialParseFacts
  import GreekSegment

  /**
   * A text the Polish reader takes whole as one word is that word, with the
   * mode `detect` finds on the text; its Greek rendering is the word's, with
   * the source's break set, and with the corrected one in the corrected pipeline.
   */
  lemma {:induction false} OfficialOneWord(input: string, sounds: seq<Sound>)
    requires |input| > 0 && OfficialParse.ParseWordFrom(Lowered(input), 0) == OfficialParse.ConsumeResult(sounds, |input|)
    ensures OfficialParse.Parse(input) == [Word(sounds, Detect(input))]
    ensures OfficialToGreek(input) == Apply(Detect(input), ToGreek(sounds, SourceBreakers))
    ensures CorrectedOfficialToGreek(input) == Apply(Detect(input), ToGreek(sounds, CorrectedBreakers))
  {
    var low := Lowered(input);
    OfficialParseFacts.ParseWordProgress(low, 0);
    assert OfficialParse.UnknownRun(low, 0) == 0;
    assert input[0..|input|] == input;
    assert OfficialParse.HeadPart(input, low, 0) == Word(sounds, Detect(input));
    assert OfficialParse.ParseFrom(input, low, |input|) == [];
    JoinSingle(Word(sounds, Detect(input)), GreekWord);
    JoinSingle(Word(sounds, Detect(input)), CorrectedGreekWord);
  }

  /** A text whose every character, lowered, is a glyph is segmented as one word, with the mode `d` detects on the text. */
  lemma {:induction false} SegmentOneWord(d: Detection, input: string, w: seq<Greek>)
    requires |w| == |input| > 0
    requires forall k :: 0 <= k < |input| ==> CharToGreek(Lowered(input)[k]) == Some(w[k])
    ensures GreekSegment.Segment(d, input) == [Word(w, DetectWith(d, input))]
  {
    var low := Lowered(input);
    GreekSegment.WordAtUnique(low, 0, w);
    assert input[0..|w|] == input;
    assert GreekSegment.HeadPart(d, input, low, 0) == Word(w, DetectWith(d, input));
    assert GreekSegment.SegmentFrom(d, input, low, |input|) == [];
  }

  /** Such a text is read as that word's sounds. */
  lemma {:induction false} ReadOneWord(d: Detection, input: string, w: seq<Greek>)
    requires GreekSegment.Segment(d, input) == [Word(w, DetectWith(d, input))]
    ensures GreekSegment.GreekToText(d, input) == [Word(Decode(w), DetectWith(d, input))]
  {
    var text := GreekSegment.GreekToText(d, input);
    assert |text| == 1;
    assert text[0] == GreekSegment.ReadPart(Word(w, DetectWith(d, input)));
  }

  /**
   * Such a text is read as that word's sounds, and its Polish spelling is the
   * word's, in the mode `detect` finds on the text; the corrected pipeline
   * applies the corrected detection's mode instead.
   */
  lemma {:induction false} GreekOneWord(input: string, w: seq<Greek>)
    requires |w| == |input| > 0
    requires forall k :: 0 <= k < |input| ==> CharToGreek(Lowered(input)[k]) == Some(w[k])
    ensures GreekSegment.GreekToText(SourceDetection, input) == [Word(Decode(w), Detect(input))]
    ensures GreekToOfficial(input) == Apply(Detect(input), ToOfficial(Decode(w)))
    ensures CorrectedGreekToOfficial(input) == Apply(DetectCorrected(input), ToOfficial(Decode(w)))
  {
    SegmentOneWord(SourceDetection, input, w);
    ReadOneWord(SourceDetection, input, w);
    JoinSingle(Word(Decode(w), Detect(input)), PolishWord);
    SegmentOneWord(CorrectedDetection, input, w);
    ReadOneWord(CorrectedDetection, input, w);
    JoinSingle(Word(Decode(w), DetectCorrected(input)), PolishWord);
  }

  /** The rendering of m, j, ó, d: μ, then ό and υ for j and ó, then δ. */
  lemma {:induction false} RenderMiod()
    ensures ToGreek([M, J, Ou, D], SourceBreakers) == "μόυδ"
  {
    var w := [M, J, Ou, D];
    assert Step(w, SourceBreakers) == Emitted([Mu], 1);
    assert w[1..] == [J, Ou, D];
    assert Step([J, Ou, D], SourceBreakers) == Emitted([OmicronAcute, Upsilon], 2);
    assert [J, Ou, D][2..] == [D];
    assert Render(w, SourceBreakers) == [Mu, OmicronAcute, Upsilon, Delta];
  }

  /** "miód" read by the Polish reader: m, then i before ó as j and ó, then d. */
  lemma {:induction false} ParseMiod(s: string)
    requires |s| == 4 && s[0] == 'm' && s[1] == 'i' && s[2] == 'ó' && s[3] == 'd'
    ensures OfficialParse.ParseWordFrom(s, 0) == OfficialParse.ConsumeResult([M, J, Ou, D], 4)
  {
    assert OfficialParse.ParseWordFrom(s, 4) == OfficialParse.Nothing;
    assert OfficialParse.ParseStep(s, 3) == OfficialParse.ConsumeResult([D], 1);
    assert OfficialParse.ParseWordFrom(s, 3) == OfficialParse.ConsumeResult([D], 1);
    assert OfficialParse.ParseStep(s, 1) == OfficialParse.ConsumeResult([J, Ou], 2);
    assert OfficialParse.ParseWordFrom(s, 1) == OfficialParse.ConsumeResult([J, Ou, D], 3);
    assert OfficialParse.ParseStep(s, 0) == OfficialParse.ConsumeResult([M], 1);
  }

  /** The source's "miód" in Greek letters, on any text with those four characters. */
  lemma {:induction false} MiodToGreek(s: string)
    requires |s| == 4 && s[0] == 'm' && s[1] == 'i' && s[2] == 'ó' && s[3] == 'd'
    ensures OfficialToGreek(s) == "μόυδ"
  {
    assert NoUpper(s);
    LoweredNoUpper(s);
    ParseMiod(s);
    OfficialOneWord(s, [M, J, Ou, D]);
    RenderMiod();
  }

  /** `official_to_greek("miód")` is "μόυδ". */
  lemma {:induction false} OfficialToGreekMiod()
    ensures OfficialToGreek("miód") == "μόυδ"
  {
    MiodToGreek("miód");
  }

  /** A text with the four characters of "μόυδ" is the one lowercase word μ, ό, υ, δ, read as m, j, ó, d. */
  lemma {:induction false} MiodGreekWord(s: string)
    requires |s| == 4 && s[0] == 'μ' && s[1] == 'ό' && s[2] == 'υ' && s[3] == 'δ'
    ensures GreekToOfficial(s) == ToOfficial([M, J, Ou, D])
  {
    assert NoUpper(s);
    LoweredNoUpper(s);
    GreekOneWord(s, [Mu, OmicronAcute, Upsilon, Delta]);
    DecodeMiod();
  }

  /** The source's "μόυδ" in Polish spelling, on any text with those four characters. */
  lemma {:induction false} MiodToOfficial(s: string)
    requires |s| == 4 && s[0] == 'μ' && s[1] == 'ό' && s[2] == 'υ' && s[3] == 'δ'
    ensures GreekToOfficial(s) == "miód"
  {
    MiodGreekWord(s);
    SpellMiod([M, J, Ou, D]);
  }

  /** `greek_to_official("μόυδ")` is "miód". */
  lemma {:induction false} GreekToOfficialMiod()
    ensures GreekToOfficial("μόυδ") == "miód"
  {
    MiodToOfficial("μόυδ");
  }

  /** Titlecase on "kiedy" raises the k only. */
  lemma {:induction false} TitleKiedy()
    ensures Apply(Titlecase, "kiedy") == "Kiedy"
  {
    var t := "kiedy";
    assert ToUpper(t[0]) == 'K';
  }

  /** Lowering "Kiedy" lowers the K only. */
  lemma {:induction false} LowerKiedy()
    ensures Lowered("Kiedy") == "kiedy"
  {
    var t := "Kiedy";
    assert ToLower(t[0]) == 'k';
  }

  /** Lowered, a text with the four characters of "Κέδι" is the glyphs `w` written out, and its mode is titlecase. */
  lemma {:induction false} KedyCasing(s: string, w: seq<Greek>)
    requires |s| == 4 && s[0] == 'Κ' && s[1] == 'έ' && s[2] == 'δ' && s[3] == 'ι'
    requires |w| == 4 && w[0] == Kappa && w[1] == EpsilonAcute && w[2] == Delta && w[3] == Iota
    ensures forall k :: 0 <= k < |s| ==> CharToGreek(Lowered(s)[k]) == Some(w[k])
    ensures Detect(s) == Titlecase
  {
    var low := Lowered(s);
    assert low[0] == 'κ' && low[1] == 'έ' && low[2] == 'δ' && low[3] == 'ι';
    assert IsLower(s[1]) && IsUpper(s[0]);
  }

  /** Such a text is one titlecase word of the glyphs `w`. */
  lemma {:induction false} KedyWord(s: string, w: seq<Greek>)
    requires |s| == 4 && s[0] == 'Κ' && s[1] == 'έ' && s[2] == 'δ' && s[3] == 'ι'
    requires |w| == 4 && w[0] == Kappa && w[1] == EpsilonAcute && w[2] == Delta && w[3] == Iota
    ensures GreekToOfficial(s) == Apply(Titlecase, ToOfficial(Decode(w)))
  {
    KedyCasing(s, w);
    GreekOneWord(s, w);
  }

  /** That word is read as k, j, e, d, y and spelled "Kiedy": its titlecase is re-applied to the spelling. */
  lemma {:induction false} KedyToOfficial(s: string, w: seq<Greek>)
    requires |s| == 4 && s[0] == 'Κ' && s[1] == 'έ' && s[2] == 'δ' && s[3] == 'ι'
    requires |w| == 4 && w[0] == Kappa && w[1] == EpsilonAcute && w[2] == Delta && w[3] == Iota
    ensures GreekToOfficial(s) == "Kiedy"
  {
    KedyWord(s, w);
    DecodeKedy(w);
    SpellKiedy(Decode(w));
    TitleKiedy();
  }

  /** On the same text the caseless pipeline drops the capital: "kiedy". */
  lemma {:induction false} KedyToOfficialCaseless(s: string, w: seq<Greek>)
    requires |s| == 4 && s[0] == 'Κ' && s[1] == 'έ' && s[2] == 'δ' && s[3] == 'ι'
    requires |w| == 4 && w[0] == Kappa && w[1] == EpsilonAcute && w[2] == Delta && w[3] == Iota
    ensures CaselessGreekToOfficial(s) == "kiedy"
  {
    KedyToOfficial(s, w);
    GreekToOfficialLowered(s);
    LowerKiedy();
  }

  /** `greek_to_official("Κέδι")` is "Kiedy". */
  lemma {:induction false} GreekToOfficialKedy()
    ensures GreekToOfficial("Κέδι") == "Kiedy"
  {
    KedyToOfficial("Κέδι", [Kappa, EpsilonAcute, Delta, Iota]);
  }

  /** The caseless `greek_to_official("Κέδι")` is "kiedy". */
  lemma {:induction false} CaselessGreekToOfficialKedy()
    ensures CaselessGreekToOfficial("Κέδι") == "kiedy"
  {
    KedyToOfficialCaseless("Κέδι", [Kappa, EpsilonAcute, Delta, Iota]);
  }
}
