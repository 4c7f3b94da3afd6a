# beciarz in Dafny

A model of *beciarz*, a transliterator between Polish spelling and a
Greek-letter script for Polish. Both directions go through a shared
alphabet of 38 Polish sounds (`Sound`).

- **Polish to sounds.** The Polish reader (`OfficialParse`) scans lowercase Polish text. At each position it applies the first rule that fits, in a fixed priority order:
  1. dzi plus a vowel;
  2. dż;
  3. ci, si, zi or ni, plus a vowel;
  4. i plus a vowel;
  5. a two-letter digraph;
  6. a single letter.
- **Sounds to Greek letters.** The Greek writer (`GreekRender`) turns sounds into Greek glyphs:
  - a run of soft consonants becomes plain letters closed by an accented vowel or a bare acute `'`;
  - a j before a vowel becomes that vowel's accented form;
  - a hard consonant before j or i is followed by a break mark `\`.
- **Greek letters to sounds.** The Greek reader (`GreekParse`) reads the writer's output back. The round trip is proved rule by rule (`RoundTrip`, `OfficialSpellingFacts`) and for the test words (`PipelineRoundTrips`). It fails after c, dz or ł before j or i (see "## Findings"). The reader handles:
  - the run of softenable consonants, with its special handling of rho;
  - the Greek digraphs τσ, δζ, δξ, μπ, ου and όυ;
  - a table for every other glyph.
- **Sounds to Polish.** The Polish writer (`OfficialRender`) spells sounds back. It writes:
  - rz;
  - ci, si, zi, ni and dzi before vowels;
  - wie, kie, mie and gie for w, k, m or g followed by j and a vowel.
- **Segmentation and casing.**
  - Text is first split into words and arbitrary runs, one segmenter per alphabet (`OfficialParse`, `GreekSegment`).
  - Each word remembers its capitalisation mode (`Casing`): lowercase, uppercase or titlecase.
  - `Pipeline` joins the per-part renderings in order and re-applies each word's mode.
  - The caseless variant renders every word lowercase.

The source's loops appear as Dafny methods: `consume_greek`, `do_the_job`,
`greek_vec_to_sound`, `consume_utf8_word`, `utf8_to_greek`, `parse`,
`parse_word` and `to_official_utf8`. Each one is proved equal to a recursive
specification function of its input, for example
`GreekVecToSound(input) == Decode(input)`. The properties of the
transliteration are lemmas about those functions:
- rule by rule, the shape of what each step emits and consumes;
- round trips of the Polish letters and of the j-rules;
- coverage and alternation of the segmentation;
- the in-order joining of the pipeline;
- the source's test words.

`Pipeline.OfficialToGreek`, `Pipeline.GreekToOfficial` and their caseless
variants are the source's functions: the Greek writer breaks only after the
source's set of consonants (`SourceBreakers`), and a word's mode comes from
`detect` (`Detect`, `SourceDetection`). The source's loops are proved equal
to these. Two fixes, each explained under "## Findings", are kept apart as
separately named variants, `Pipeline.CorrectedOfficialToGreek` and
`Pipeline.CorrectedGreekToOfficial`:
- the Greek writer breaks after every consonant whose rendering a following acute would misread (`CorrectedBreakers`);
- a word's mode is detected on its cased characters only (`DetectCorrected`).

## Model

| member | source | states |
|---|---|---|
| Sounds.SoftenedVowelIsI | core/src/lib.rs:215-243 | `i` is the only sound that is both softened and a vowel |
| Glyphs.ToChar | core/src/greek.rs:250-286 | the character written for any glyph is read back by `char_to_greek` as that same glyph |
| Glyphs.CharToGreekInverse | core/src/greek.rs:288-325 | every character `char_to_greek` recognises is the character `to_char` writes for the recognised glyph |
| Glyphs.ToCharInjective | core/src/greek.rs:250-286 | two glyphs written with the same character are the same glyph |
| Glyphs.SofteningDisjoint | core/src/greek.rs:227-248 | no glyph is both a softening mark and a softenable consonant |
| Casing.ToUpper | core/src/lib.rs:42-54 | raising turns a lowercase letter into an uppercase one and leaves every other character as it is |
| Casing.ToLower | core/src/greek.rs:548-550 | lowering turns an uppercase letter into a lowercase letter whose raising is the original, and leaves every other character as it is |
| Casing.UpperLowerRoundTrip | core/src/lib.rs:42-54 | lowering a raised lowercase letter gives the letter back |
| Casing.Lowered | core/src/greek.rs:548-550 | the lowercased text has the input's length and no uppercase letter, and only uppercase characters change |
| Casing.Uppered | core/src/lib.rs:45 | the uppercased text has the input's length and no lowercase letter, and only lowercase characters change |
| Casing.Apply | core/src/lib.rs:42-54 | `apply` keeps the length; lowercase is the identity; titlecase raises the first character only; the empty text stays empty |
| Casing.CasingRoundTrip | core/src/lib.rs:42-73 | a word whose casing one of the modes describes is rebuilt by applying the mode `detect` (`Casing.Detect`) finds on it to its lowercase form |
| Casing.DetectRecoversMode | core/src/lib.rs:56-73 | on a non-empty word of lowercase letters (two or more for titlecase), `detect` (`Casing.Detect`) finds the mode that `apply` put on it |
| Casing.DetectCorrectedOnLetters | core/src/lib.rs:56-73 | on a word made only of letters the corrected detection (`Casing.DetectCorrected`) agrees with `detect` (`Casing.Detect`) |
| Casing.DetectLosesUppercaseAsWritten | core/src/lib.rs:56-73 | `detect` reads the uppercase "ΡΑΔΟΣΤ'" as titlecase, because `'` is not uppercase |
| Casing.DetectCorrectedRecoversMode | core/src/lib.rs:56-73 | on any word with no uppercase letter and some lowercase letter, caseless marks included, the corrected detection finds the mode `apply` put on it (titlecase: a lowercase first letter and another after it) |
| Casing.LoweredApply | core/src/lib.rs:42-54 | lowering the result of applying any mode to a text with no uppercase letter gives the text back |
| GreekRender.ConsumeNaive | core/src/greek.rs:28-70 | the plain rendering of every sound is one or two glyphs and never holds a break mark |
| GreekRender.SoftenedSoundToBaseGreek | core/src/greek.rs:72-86 | defined for softened sounds only (the source panics otherwise); the letter is softenable exactly when the sound is not `i` |
| GreekRender.SoftenVowel | core/src/greek.rs:88-102 | defined for vowels other than y only (the source panics otherwise); one accented glyph, two for ó, the first a softening glyph other than the bare acute |
| GreekRender.SoftenedRun | core/src/greek.rs:117-123 | the counting loop's result: every sound before it is softened and not `i`, and the sound at it (if any) is not |
| GreekRender.SoftenedRunUnique | core/src/greek.rs:117-123 | no other prefix length has those two properties |
| GreekRender.BaseLetters | core/src/greek.rs:136-139 | a softened run becomes as many glyphs, each a softenable consonant |
| GreekRender.Step | core/src/greek.rs:104-187 | `consume_greek` consumes nothing on empty input and otherwise between 1 and all of the input, emitting at least one glyph |
| GreekRender.Render | core/src/greek.rs:10-21 | a non-empty input has a non-empty rendering |
| GreekRender.ToGreek | core/src/greek.rs:23-26 | the text has one character per rendered glyph, each read back as that glyph |
| GreekRender.ConsumeGreek | core/src/greek.rs:104-187 | the loop-and-branch implementation emits and consumes exactly what the specification step does |
| GreekRender.DoTheJob | core/src/greek.rs:10-21 | the loop's output is the whole rendering |
| GreekRender.StepOnSoftenedRun | core/src/greek.rs:121-150 | a run of n soft sounds: exactly the run's n base letters, then ί before y, the vowel's accented form before any other vowel, and a bare acute, as the last glyph, exactly when no vowel follows; n+1 consumed when a vowel follows, else n |
| GreekRender.StepOnJ | core/src/greek.rs:152-166 | j before a vowel other than y and i: that vowel's accented form, 2 consumed; any other j: a bare acute, 1 consumed |
| GreekRender.StepOnBreaker | core/src/greek.rs:169-181 | a breaker before j or i: its plain rendering then a break mark, 1 consumed |
| GreekRender.BreakOnlyLast | core/src/greek.rs:104-187 | a break mark is only ever the last glyph of a step |
| GreekRender.CorrectedBreakersNeeded | core/src/greek.rs:169-181 | every sound in the corrected set is neither softened nor j, and its last glyph is softenable |
| GreekRender.CorrectedBreakersComplete | core/src/greek.rs:169-181 | every sound with that property is in the corrected set |
| GreekRender.BreakerSetsValid | core/src/greek.rs:169-181 | both sets hold no softened sound and no j, and the source's set is a proper subset of the corrected one |
| GreekRender.SourceBreakersMissC | core/src/greek.rs:173 | c needs a break, yet the source's set lacks it |
| GreekRenderExamples.ConsumeGreekExamples | core/src/greek.rs:759-777 | with any break set, c alone is τσ and ć alone is τ with an acute, one sound used; ą alone is ω; ś before a is σ, ά, two sounds used |
| GreekRenderExamples.ToGreekCalosc | core/src/greek.rs:783-785 | c, a, ł, o, ś, ć is written "τσαλοστ'" with the source's break set |
| GreekRenderExamples.ToGreekRadosci | core/src/greek.rs:787-789 | r, a, d, o, ś, ć, i is written "ραδοστί" with the source's break set |
| GreekRenderExamples.ToGreekLitwo | core/src/greek.rs:791 | l, i, t, w, o is written "λίτβο" with the source's break set |
| GreekRenderExamples.ToGreekOjczyzno | core/src/greek.rs:792 | o, j, cz, y, z, n, o is written "ο'θιζνο" with the source's break set |
| GreekRenderExamples.ToGreekMoja | core/src/greek.rs:793 | m, o, j, a is written "μοά" with the source's break set |
| GreekRenderExamples.ToGreekTy | core/src/greek.rs:794 | t, y is written "τι" with the source's break set |
| GreekRenderExamples.ToGreekJestes | core/src/greek.rs:795 | j, e, s, t, e, ś is written "έστεσ'" with the source's break set |
| GreekRenderExamples.ToGreekJak | core/src/greek.rs:796 | j, a, k is written "άκ" with the source's break set |
| GreekRenderExamples.ToGreekZdrowje | core/src/greek.rs:797 | z, d, r, o, w, j, e is written "ζδροβέ" with the source's break set |
| GreekRenderExamples.ToGreekIle | core/src/greek.rs:799 | i, l, e is written "ίλέ" with the source's break set |
| GreekRenderExamples.ToGreekCie | core/src/greek.rs:800 | ć, ę is written "τή" with the source's break set, as the test checks again at line 808 |
| GreekRenderExamples.ToGreekTrzeba | core/src/greek.rs:801 | t, rz, e, b, a is written "τρέμπα" with the source's break set |
| GreekRenderExamples.ToGreekCenic | core/src/greek.rs:802 | c, e, ń, i, ć is written "τσενίτ'" with the source's break set |
| GreekRenderExamples.ToGreekTen | core/src/greek.rs:803 | t, e, n is written "τεν" with the source's break set |
| GreekRenderExamples.ToGreekTylko | core/src/greek.rs:804 | t, y, l, k, o is written "τιλ'κο" with the source's break set |
| GreekRenderExamples.ToGreekSie | core/src/greek.rs:805 | ś, ę is written "σή" with the source's break set |
| GreekRenderExamples.ToGreekDowje | core/src/greek.rs:806 | d, o, w, j, e is written "δοβέ" with the source's break set |
| GreekRenderExamples.ToGreekCo | core/src/greek.rs:807 | c, o is written "τσο" with the source's break set |
| GreekRenderExamples.ToGreekStracil | core/src/greek.rs:809 | s, t, r, a, ć, i, ł is written "στρατίλ" with the source's break set |
| GreekRenderExamples.ToGreekMjud | core/src/greek.rs:810 | m, j, u, d is written "μύδ" with the source's break set |
| GreekParse.NaiveReadingShape | core/src/greek.rs:327-365 | every glyph reads as at most two sounds, and as none exactly when it is the break mark |
| GreekParse.SoftenedReadingIsSoftened | core/src/greek.rs:419-432 | a run letter reads as a softened sound other than `i` |
| GreekParse.AccentedVowelReading | core/src/greek.rs:438-453 | an accented vowel reads as a vowel, and as y exactly when it is ί after a rho run |
| GreekParse.RunScanShape | core/src/greek.rs:395-413 | the scan accepts only softenable letters, rho only as a single first letter, and stops at the first letter that does not fit |
| GreekParse.SoftenableRunShape | core/src/greek.rs:395-413 | the run from a position is softenable and rho-free, or a single rho; a run cut to zero starts with rho followed by another letter |
| GreekParse.DecodeRun | core/src/greek.rs:415-464 | the run branch consumes more than the run and stays within the input |
| GreekParse.DecodePlain | core/src/greek.rs:466-505 | the digraph and naive branches consume one or two glyphs within the input |
| GreekParse.DecodeStep | core/src/greek.rs:389-505 | every round consumes at least one glyph and stays within the input |
| GreekParse.ScanRun | core/src/greek.rs:395-413 | the inner while loop computes the specified run length |
| GreekParse.ReadRun | core/src/greek.rs:415-464 | the run branch with its for loop reads and consumes what the specification does |
| GreekParse.ReadPlain | core/src/greek.rs:466-505 | the digraph chain and naive fallback read and consume what the specification does |
| GreekParse.ReadStep | core/src/greek.rs:387-506 | one round of the loop body reads and consumes what the specification step does |
| GreekParse.DecodeFromStep | core/src/greek.rs:387-506 | the parse from a position is the round's reading followed by the parse after it |
| GreekParse.ReadRound | core/src/greek.rs:387-506 | a round consumes at least one glyph, and its reading followed by the rest of the parse is the parse from where it began |
| GreekParse.GreekVecToSound | core/src/greek.rs:382-512 | the loop consumes all of the input, so the "Not all parsed" panic cannot fire; the result is the parse |
| GreekParse.BreakReadsNothing | core/src/greek.rs:390-393 | a break mark adds no sound; the parse moves past it |
| GreekParse.RunReading | core/src/greek.rs:415-432 | a closed run reads letter by letter as softened consonants other than `i`, and is rho-free or a single rho |
| GreekParse.RunClosingVowel | core/src/greek.rs:434-461 | a bare acute closing a run reads as nothing; an accented vowel reads as one vowel, y exactly for ί after rho |
| GreekParse.DecodeMiod | core/src/greek.rs:696-704 | μ, ό, υ, δ reads as m, j, ó, d |
| GreekParse.DecodeKedy | core/src/lib.rs:168 | κ, έ, δ, ι reads as k, j, e, d, y |
| GreekParseExamples.DobroDecoded | core/src/greek.rs:612-619 | δ, ο, μ, π, ρ, ο reads as d, o, b, r, o |
| GreekParseExamples.RhoRunDecoded | core/src/greek.rs:621-630 | δ, ά, μ, ', ρ, ί, ν, ί reads as dź, a, m, j, rz, y, ń, i |
| GreekParseExamples.MackiDecoded | core/src/greek.rs:632-639 | μ, α, τ, σ, κ, ί reads as m, a, c, k, i |
| GreekParseExamples.CieplutkoDecoded | core/src/greek.rs:641-658 | τ, έ, π, λ, ύ, τ, κ, ο reads as ć, e, p, l, u, t, k, o |
| GreekParseExamples.BardziejDecoded | core/src/greek.rs:678-694 | μ, π, α, ρ, δ, έ, ' reads as b, a, r, dź, e, j |
| GreekSegment.WordAtShape | core/src/greek.rs:586-602 | the word at a position is the maximal run of glyph characters there, glyph by glyph |
| GreekSegment.WordAtUnique | core/src/greek.rs:586-602 | any maximal run of glyph characters at a position is the word read there |
| GreekSegment.OtherRunShape | core/src/greek.rs:568-571 | the arbitrary run is the maximal run of characters that are not glyphs |
| GreekSegment.HeadLen | core/src/greek.rs:561-577 | every part covers at least one character, within the text |
| GreekSegment.HeadText | core/src/greek.rs:561-577 | a part, written out, is exactly the characters it covers |
| GreekSegment.HeadKind | core/src/greek.rs:561-577 | a part is a word exactly when a glyph starts it; it is well formed; the next character starts a part of the other kind |
| GreekSegment.SegmentCovers | core/src/greek.rs:548-584 | the parts, written out in order, are the whole lowercased text |
| GreekSegment.SegmentFromWellFormed | core/src/greek.rs:548-584 | every part is a non-empty word or a non-empty run without glyph characters |
| GreekSegment.SegmentFromAlternating | core/src/greek.rs:548-584 | words and arbitrary runs alternate, and the first part's kind is that of the first character |
| GreekSegment.ConsumeUtf8Word | core/src/greek.rs:586-602 | the loop reads the longest prefix of glyph characters, glyph by glyph |
| GreekSegment.TakePart | core/src/greek.rs:556-581 | one round yields the specified part, a word carrying the mode `detect` finds on its original characters, and its length; the "Failed to parse" exit is unreachable |
| GreekSegment.SegmentRound | core/src/greek.rs:555-581 | the parts so far plus the parts from the new position stay the whole segmentation with `detect`'s modes, and the position advances |
| GreekSegment.Utf8ToGreek | core/src/greek.rs:548-584 | the loop returns the specified segmentation, each word with the mode `detect` finds on it |
| GreekSegment.ReadParts | core/src/greek.rs:525-546 | one part out per part in, in order, each read by the Greek parser or copied |
| GreekSegment.ReadAll | core/src/greek.rs:527-543 | the loop over the parts returns the specified reading |
| GreekSegment.Utf8GreekToText | core/src/greek.rs:525-546 | `utf8_greek_to_text` returns the reading of the segmentation, each word with the mode `detect` finds on it |
| GreekSegmentExamples.Utf8ToGreekGreeting | core/src/greek.rs:708-739 | `utf8_to_greek("ποζδραβάμ τέπλύτκο! :)")` is four parts: the lowercase word π, ο, ζ, δ, ρ, α, β, ά, μ, the run " ", the lowercase word τ, έ, π, λ, ύ, τ, κ, ο and the run "! :)" |
| GreekSegmentExamples.Utf8ToGreekRadosc | core/src/greek.rs:741-754 | `utf8_to_greek("ραδοστ'")` is one part, the lowercase word ρ, α, δ, ο, σ, τ, ' |
| OfficialParse.ParseStep | src/beciarz/official.rs:106-150 | a round consumes no more than the rest of the text |
| OfficialParse.ParseWordFrom | src/beciarz/official.rs:102-154 | a word consumes no more than the rest of the text |
| OfficialParse.ParseWordStep | src/beciarz/official.rs:106-150 | the rule cascade, in the source's order, reads what the specification round does |
| OfficialParse.WordRound | src/beciarz/official.rs:106-153 | a round that fits nothing ends the word; any other splits the word into its sounds and the rest |
| OfficialParse.ParseWord | src/beciarz/official.rs:102-154 | the loop returns the specified word and count |
| OfficialParse.UnknownRunShape | src/beciarz/official.rs:62-65 | the arbitrary run is the maximal run of characters `single_naive` does not recognise |
| OfficialParse.HeadLen | src/beciarz/official.rs:62-81 | a part stays within the text |
| OfficialParse.TakePart | src/beciarz/official.rs:62-81 | one round yields the specified part and length |
| OfficialParse.ParseRound | src/beciarz/official.rs:57-82 | the parts so far plus the parts from the new position stay the whole parse |
| OfficialParse.ParseText | src/beciarz/official.rs:50-85 | `parse` returns the specified parse of the text |
| OfficialParseFacts.SingleNaiveRecognises | src/beciarz/official.rs:390-426 | `single_naive` recognises exactly the 32 lowercase Polish letters |
| OfficialParseFacts.SingleNaiveInjective | src/beciarz/official.rs:390-426 | no two letters share a sound |
| OfficialParseFacts.TryDzxCases | src/beciarz/official.rs:287-368 | dzi plus a vowel: dź and the vowel, 4 used; dzi otherwise: dź and i, 3 used; anything else: nothing |
| OfficialParseFacts.TryCiSiZiCases | src/beciarz/official.rs:202-285 | c, s, z or n plus i and a vowel: soft consonant and vowel, 3 used; plus i otherwise: soft consonant and i, 2 used; else nothing |
| OfficialParseFacts.TryISamoglCases | src/beciarz/official.rs:157-200 | i before a, ą, e, ę, o, ó or u: j and the vowel, 2 used; otherwise nothing |
| OfficialParseFacts.ParseStepProgress | src/beciarz/official.rs:106-150 | a round reads something exactly when a Polish letter is at the position; it uses at most 4 characters and yields 1 or 2 sounds |
| OfficialParseFacts.ParseWordProgress | src/beciarz/official.rs:102-154 | a word is read exactly when a Polish letter starts it, and it has sounds |
| OfficialParseFacts.HeadLenPositive | src/beciarz/official.rs:73-81 | every part is non-empty, so the "Failed to parse" exit is unreachable |
| OfficialParseFacts.ParseWordEnd | src/beciarz/official.rs:102-154 | `parse_word` stops at the end of the text or before a character that is not a Polish letter |
| OfficialParseFacts.HeadKind | src/beciarz/official.rs:62-81 | a part is a word exactly when a Polish letter starts it; it is well formed; the next character starts a part of the other kind |
| OfficialParseFacts.ParseFromWellFormed | src/beciarz/official.rs:50-85 | every part is a non-empty word or a non-empty run of unrecognised characters |
| OfficialParseFacts.ParseFromAlternating | src/beciarz/official.rs:50-85 | words and arbitrary runs alternate, and the first part's kind is that of the first character |
| OfficialParseFacts.ParseShape | src/beciarz/official.rs:50-85 | the parts of any parsed text alternate and are well formed |
| OfficialParseExamples.ParseWordCiaksiakizilni | src/beciarz/official.rs:551-554 | "ciaksiakizilni" reads as ć a k ś a k i ź i l ń i, all 14 characters used |
| OfficialParseExamples.ParseWordDzialo | src/beciarz/official.rs:527-533 | "działo" reads as dź a ł o, all 6 characters used |
| OfficialParseExamples.ParseWordTest | src/beciarz/official.rs:521-525 | "test" reads as t, e, s, t, all 4 characters used |
| OfficialParseExamples.ParseWordDzialalo | src/beciarz/official.rs:535-549 | "działało" reads as dź, a, ł, a, ł, o, all 8 characters used |
| OfficialParseExamples.ParseWordOjczyzno | src/beciarz/official.rs:556-559 | "ojczyzno" reads as o, j, cz, y, z, n, o, all 8 characters used |
| OfficialParseExamples.ParseWordChmura | src/beciarz/official.rs:561-564 | "chmura" reads as ch, m, u, r, a, all 6 characters used |
| OfficialParseExamples.ParseWordDzw | src/beciarz/official.rs:566-569 | "dzw" reads as dz, w, all 3 characters used |
| OfficialParseExamples.ParseWordDzwo | src/beciarz/official.rs:571-574 | "dzwo" reads as dz, w, o, all 4 characters used |
| OfficialParseExamples.ParseAlaMaKota | src/beciarz/official.rs:578-594 | `parse("ala ma \nkota!")` is the words a, l, a, then m, a, then k, o, t, a, each lowercase, with " ", " \n" and "!" as the runs after them |
| OfficialRender.SpellStep | src/beciarz/official.rs:432-494 | every round uses at least one sound and no more than remain |
| OfficialRender.SpellOne | src/beciarz/official.rs:432-494 | the loop body, with its rules in the source's order, writes and uses what the specification round does |
| OfficialRender.SpellRound | src/beciarz/official.rs:432-494 | the text so far plus the spelling from the new position stays the whole spelling |
| OfficialRender.ToOfficialUtf8 | src/beciarz/official.rs:428-497 | the loop returns the specified spelling |
| OfficialRender.SpellFromRound | src/beciarz/official.rs:428-497 | the spelling from a position is the round's text followed by the spelling after it |
| OfficialRender.NaiveRound | src/beciarz/official.rs:492-494 | when neither rz, the soft rule nor the i-for-j rule applies, a round writes the sound's own spelling and uses one sound |
| OfficialRender.SpellNaiveAt | src/beciarz/official.rs:492-494 | a sound no look-ahead rule applies to is written with its own spelling |
| OfficialRender.SpellSoftAt | src/beciarz/official.rs:442-467 | a soft consonant before a softenable vowel: its base letters, then i unless the vowel is i |
| OfficialRender.SpellIForJAt | src/beciarz/official.rs:469-489 | w, k, m or g before j and a vowel other than i: the letter then i, and the j is skipped |
| OfficialSpellingFacts.NaiveToStringShape | src/beciarz/official.rs:4-48 | every sound's spelling is one or two Polish letters |
| OfficialSpellingFacts.VowelReadsBack | src/beciarz/official.rs:4-48 | a vowel's spelling is read back as that vowel in one round |
| OfficialSpellingFacts.PlainConsonantReadsBack | src/beciarz/official.rs:4-48 | b, c, d, f, g, j, k, l and ł are read back in one round |
| OfficialSpellingFacts.HardLetterReadsBack | src/beciarz/official.rs:4-48 | m, p, r, t, w and ż are read back in one round |
| OfficialSpellingFacts.SoftenableLetterReadsBack | src/beciarz/official.rs:4-48 | n, s and z on their own are read back in one round |
| OfficialSpellingFacts.SoftLetterReadsBack | src/beciarz/official.rs:4-48 | ń, ś, ć and ź are read back in one round |
| OfficialSpellingFacts.DigraphReadsBack | src/beciarz/official.rs:4-48 | ch, rz, sz, cz, dz, dź and dż are read back as one sound in one round |
| OfficialSpellingFacts.NaiveToStringReadsBack | src/beciarz/official.rs:4-48 | reading any sound's own spelling gives that sound back and uses the whole spelling |
| OfficialSpellingFacts.SoftVowelSpelling | src/beciarz/official.rs:442-467 | a soft consonant and a softenable vowel are written as base letters, i unless the vowel is i, then the vowel |
| OfficialSpellingFacts.SoftVowelReadsBack | src/beciarz/official.rs:442-467 | that spelling is read back as the same two sounds |
| OfficialSpellingFacts.IForJSpelling | src/beciarz/official.rs:469-489 | w, k, m or g, then j and a vowel other than i, are written as the letter, i, then the vowel |
| OfficialSpellingFacts.IForJReadsBack | src/beciarz/official.rs:469-489 | that spelling is read back as the consonant, j and the vowel |
| OfficialSpellingFacts.ToOfficialLetters | src/beciarz/official.rs:428-497 | the Polish spelling holds only Polish letters, at least one per sound |
| OfficialSpellingExamples.SpellMiod | src/beciarz/official.rs:516-517 | m, j, ó, d is written "miód" |
| OfficialSpellingExamples.SpellKiedy | core/src/lib.rs:168 | k, j, e, d, y is written "kiedy" |
| Pipeline.JoinInOrder | core/src/lib.rs:4-33 | the rendering of part k sits between the renderings of the parts before it and those after it |
| Pipeline.JoinAppend | core/src/lib.rs:4-33 | the rendering of two part sequences one after the other is the two renderings one after the other |
| Pipeline.ArbitraryCopied | src/beciarz.rs:4-27 | an arbitrary run appears unchanged, in its place, in the output |
| PipelineFacts.ToGreekNoUpper | core/src/greek.rs:23-26 | the Greek rendering of a word has no uppercase letter |
| PipelineFacts.ToOfficialNoUpper | src/beciarz/official.rs:428-497 | the Polish spelling of a word has no uppercase letter |
| PipelineFacts.ParseFromArbitraryLower | src/beciarz/official.rs:50-85 | every arbitrary run cut from lowercased text is lowercase |
| PipelineFacts.SegmentFromArbitraryLower | core/src/greek.rs:548-584 | every arbitrary run cut from lowercased text is lowercase |
| PipelineFacts.OfficialToGreekLowered | src/beciarz.rs:4-14 | lowering `Pipeline.OfficialToGreek`'s output (the source's break set and `detect`) gives `Pipeline.CaselessOfficialToGreek`'s |
| PipelineFacts.GreekToOfficialLowered | src/beciarz.rs:16-27 | lowering `Pipeline.GreekToOfficial`'s output (`detect`'s modes) gives `Pipeline.CaselessGreekToOfficial`'s |
| PipelineExamples.OfficialOneWord | core/src/lib.rs:4-17 | `Pipeline.OfficialToGreek`, the source's `official_to_greek`, of a text read whole as one word is that word in Greek letters, with the source's break set, in the mode `detect` finds on the text; `Pipeline.CorrectedOfficialToGreek` gives the same with the corrected break set |
| PipelineExamples.GreekOneWord | core/src/lib.rs:19-33 | `Pipeline.GreekToOfficial`, the source's `greek_to_official`, of a text of glyphs only is one word's sounds spelled in Polish, in the mode `detect` finds on the text; `Pipeline.CorrectedGreekToOfficial` applies the corrected detection's mode |
| PipelineExamples.RenderMiod | core/src/greek.rs:811 | m, j, ó, d is rendered "μόυδ" |
| PipelineExamples.ParseMiod | core/src/lib.rs:127 | "miód" reads as m, j, ó, d |
| PipelineExamples.OfficialToGreekMiod | core/src/lib.rs:127 | `official_to_greek("miód")` is "μόυδ" |
| PipelineExamples.GreekToOfficialMiod | core/src/lib.rs:127 | `greek_to_official("μόυδ")` is "miód" |
| PipelineExamples.GreekToOfficialKedy | core/src/lib.rs:168 | `greek_to_official("Κέδι")` is "Kiedy" |
| PipelineExamples.CaselessGreekToOfficialKedy | src/beciarz.rs:112 | the caseless `greek_to_official("Κέδι")` is "kiedy" |
| PipelineRoundTrips.ParsedRadosc | core/src/lib.rs:87 | "radość" is read as one word of r, a, d, o, ś, ć, all 6 characters used |
| PipelineRoundTrips.RenderRadosc | core/src/lib.rs:87 | r, a, d, o, ś, ć is rendered "ραδοστ'" with the source's break set |
| PipelineRoundTrips.OfficialToGreekRadosc | core/src/lib.rs:87 | `official_to_greek("radość")`, with the source's break set and `detect`, is "ραδοστ'" |
| PipelineRoundTrips.DecodeRadosc | core/src/lib.rs:87 | ρ, α, δ, ο, σ, τ, ' reads as r, a, d, o, ś, ć |
| PipelineRoundTrips.SpellRadosc | core/src/lib.rs:87 | r, a, d, o, ś, ć is written "radość" |
| PipelineRoundTrips.GreekToOfficialRadosc | core/src/lib.rs:87 | `greek_to_official("ραδοστ'")`, with `detect`, is "radość" |
| PipelineRoundTrips.ParsedMowi | core/src/lib.rs:125 | "mówi" is read as one word of m, ó, w, i, all 4 characters used |
| PipelineRoundTrips.RenderMowi | core/src/lib.rs:125 | m, ó, w, i is rendered "μουβί" with the source's break set |
| PipelineRoundTrips.OfficialToGreekMowi | core/src/lib.rs:125 | `official_to_greek("mówi")`, with the source's break set and `detect`, is "μουβί" |
| PipelineRoundTrips.DecodeMowi | core/src/lib.rs:125 | μ, ο, υ, β, ί reads as m, ó, w, i |
| PipelineRoundTrips.SpellMowi | core/src/lib.rs:125 | m, ó, w, i is written "mówi" |
| PipelineRoundTrips.GreekToOfficialMowi | core/src/lib.rs:125 | `greek_to_official("μουβί")`, with `detect`, is "mówi" |
| PipelineRoundTrips.ParsedMiodu | core/src/lib.rs:126 | "miodu" is read as one word of m, j, o, d, u, all 5 characters used |
| PipelineRoundTrips.RenderModu | core/src/lib.rs:126 | m, j, o, d, u is rendered "μόδυ" with the source's break set |
| PipelineRoundTrips.OfficialToGreekMiodu | core/src/lib.rs:126 | `official_to_greek("miodu")`, with the source's break set and `detect`, is "μόδυ" |
| PipelineRoundTrips.DecodeModu | core/src/lib.rs:126 | μ, ό, δ, υ reads as m, j, o, d, u |
| PipelineRoundTrips.SpellMiodu | core/src/lib.rs:126 | m, j, o, d, u is written "miodu" |
| PipelineRoundTrips.GreekToOfficialMiodu | core/src/lib.rs:126 | `greek_to_official("μόδυ")`, with `detect`, is "miodu" |
| PipelineRoundTrips.ParsedDziob | core/src/lib.rs:128 | "dziób" is read as one word of dź, ó, b, all 5 characters used |
| PipelineRoundTrips.RenderDziob | core/src/lib.rs:128 | dź, ó, b is rendered "δόυμπ" with the source's break set |
| PipelineRoundTrips.OfficialToGreekDziob | core/src/lib.rs:128 | `official_to_greek("dziób")`, with the source's break set and `detect`, is "δόυμπ" |
| PipelineRoundTrips.DecodeDziob | core/src/lib.rs:128 | δ, ό, υ, μ, π reads as dź, ó, b |
| PipelineRoundTrips.SpellDziob | core/src/lib.rs:128 | dź, ó, b is written "dziób" |
| PipelineRoundTrips.GreekToOfficialDziob | core/src/lib.rs:128 | `greek_to_official("δόυμπ")`, with `detect`, is "dziób" |
| PipelineRoundTrips.ParsedZjem | core/src/lib.rs:130 | "zjem" is read as one word of z, j, e, m, all 4 characters used |
| PipelineRoundTrips.RenderZjem | core/src/lib.rs:130 | z, j, e, m is rendered "ζ\έμ" with the source's break set |
| PipelineRoundTrips.OfficialToGreekZjem | core/src/lib.rs:130 | `official_to_greek("zjem")`, with the source's break set and `detect`, is "ζ\έμ" |
| PipelineRoundTrips.DecodeZjem | core/src/lib.rs:130 | ζ, \, έ, μ reads as z, j, e, m |
| PipelineRoundTrips.SpellZjem | core/src/lib.rs:130 | z, j, e, m is written "zjem" |
| PipelineRoundTrips.GreekToOfficialZjem | core/src/lib.rs:130 | `greek_to_official("ζ\έμ")`, with `detect`, is "zjem" |
| RoundTrip.CjaAsWritten | core/src/greek.rs:169-181 | with the source's break set, c, j, a renders as τ, σ, ά, which reads back as ć, ś, a |
| RoundTrip.CjaCorrected | core/src/greek.rs:169-181 | with the corrected set it renders as τ, σ, break, ά, which reads back as c, j, a |
| RoundTrip.RenderBreakerJ | core/src/greek.rs:169-181 | a breaker, j and a vowel: the breaker's plain rendering, a break mark, then the rendering of j and the vowel |
| RoundTrip.RenderJVowel | core/src/greek.rs:152-166 | j and a softenable vowel render as the vowel's accented form, or as an acute then ί before i |
| RoundTrip.BreakerRenderingShape | core/src/greek.rs:28-70 | every breaker renders as one softenable consonant or a rho-free softenable digraph that reads as the breaker |
| RoundTrip.DecodeOneBeforeBreak | core/src/greek.rs:415-418 | a softenable consonant closed by a break mark is no run; it is read plainly |
| RoundTrip.DecodeTwoBeforeBreak | core/src/greek.rs:466-500 | a softenable digraph closed by a break mark is read as the digraph |
| RoundTrip.DecodeBeforeBreak | core/src/greek.rs:387-506 | a breaker's glyphs then a break mark read as the breaker, then the parse after the mark |
| RoundTrip.DecodeAccented | core/src/greek.rs:327-365 | an accented vowel other than ί and όυ reads as j and the vowel |
| RoundTrip.DecodeAccentedOu | core/src/greek.rs:494-499 | ό then υ reads as j and ó |
| RoundTrip.DecodeAcuteIota | core/src/greek.rs:327-365 | an acute then ί reads as j and i |
| RoundTrip.DecodeJVowel | core/src/greek.rs:327-365 | whatever the writer gives for j and a softenable vowel reads back as j and the vowel |
| RoundTrip.DecodeBreakThenJVowel | core/src/greek.rs:387-506 | a breaker's glyphs, a break mark, then j and a vowel read as the breaker, j and the vowel |
| RoundTrip.CorrectedBreakerJRoundTrip | core/src/greek.rs:169-181 | with the corrected set, every breaker, j and softenable vowel renders and reads back unchanged |

## Left out

- Unicode case mapping. `to_lowercase`, `to_uppercase` and `is_uppercase` cover only the letters this system transliterates:
  - ASCII letters;
  - the Polish ą ć ę ł ń ó ś ź ż;
  - the Greek letters and their tonos forms.

  On these the mapping is one character to one character, so lowering keeps the length that the source's index arithmetic assumes at core/src/greek.rs:563. Other characters are treated as caseless.
- Greek final sigma. Rust's `to_lowercase` lowers a word-final Σ to ς, which `char_to_greek` does not recognise. Here Σ always lowers to σ.
- The `print!` diagnostics at core/src/greek.rs:579 and src/beciarz/official.rs:80 are loop exits. Both are proved unreachable (`GreekSegment.TakePart`, `OfficialParseFacts.HeadLenPositive`).
- The panics in the lookup tables are preconditions of those functions (`SoftenedSoundToBaseGreek`, `SoftenVowel`, `SoftBase`, `IForJLetter`, `SoftenedReading`, `AccentedVowelSound`). Every caller is proved to meet them.
- `SoftenedRunSounds` returns `i` for a glyph that is not a softenable consonant, where the source panics. That case is never reached, since `RunReading` shows every run glyph is softenable.
- The source's sub-slices (`&input[i..]`) are positions into the whole sequence.
- core/src/official.rs, the Polish reader that core/src/lib.rs:5 calls, is not part of this model. Its counterpart src/beciarz/official.rs is modelled instead. That file's `Word` (src/beciarz/official.rs:90) has no mode, so a word read from Polish text is given the mode `detect` finds on its original characters, the way core/src/greek.rs:563 does for Greek words. A Polish word is made only of letters, so the corrected detection would give the same mode (`Casing.DetectCorrectedOnLetters`).
- src/beciarz/greek.rs, the Greek writer and reader that the caseless pipeline of src/beciarz.rs calls (src/beciarz.rs:1, 9 and 17), is not part of this model. Its `utf8_greek_to_text` yields words without a mode. The writer and segmenter of core/src/greek.rs stand in for it: `Pipeline.CaselessOfficialToGreek` and `Pipeline.CaselessGreekToOfficial` compute each word's mode with `detect` and then drop it.
- Tests not restated as lemmas. Every test in core/src/greek.rs and every `parse_word` and `parse` test in src/beciarz/official.rs:519-594 is restated (the `...Examples` modules). These are not:
  - the sentences in core/src/lib.rs:78-81, 88-116, 120-123, 141-146 and 158-166;
  - the words "magia" and "bardziej" (core/src/lib.rs:86 and 118);
  - the single words of core/src/lib.rs:148-153 and 169;
  - the tests of the caseless pipeline in src/beciarz.rs:32-74, 84-97, 101-110 and 113, which repeat those of core/src/lib.rs (src/beciarz.rs:112 is restated);
  - the spellings of "kopytko", "czacha", "litwo", "cieplutko" and "zdrowie" (src/beciarz/official.rs:505-515).

  The per-rule lemmas above cover the rules they exercise. For example, `RoundTrip.CorrectedBreakerJRoundTrip` covers the break before j at the level of sounds, with the corrected break set, as in "diagnostyka".
- src/lib.rs is not part of this model. It is an older, incompatible copy of the Greek writer.
- cli/src/main.rs and wasm/src/lib.rs are not part of this model. They handle input, output and foreign bindings only.

## Findings

| source | as written | input that shows it | evidently intended | confidence | as-written member | corrected member |
|---|---|---|---|---|---|---|
| core/src/greek.rs:173 | only n, z, s, t, d and r are followed by a break mark before j or i | "akcja": c, j, a renders as τσά, which reads back as ć, ś, a, giving "akćsia" | every consonant whose rendering ends in a softenable letter (c, dz and ł as well) is followed by a break mark, so the reading comes back unchanged | high, not executed | RoundTrip.CjaAsWritten | RoundTrip.CorrectedBreakerJRoundTrip |
| core/src/lib.rs:61 | a word is uppercase only if every character is uppercase, and the caseless marks ' and \ are not | "RADOŚĆ" renders as "ΡΑΔΟΣΤ'", which `detect` reads as titlecase, so it comes back as "Radość" | a word with uppercase letters and no lowercase letter is uppercase, whatever marks it holds | high, not executed | Casing.DetectLosesUppercaseAsWritten | Casing.DetectCorrectedRecoversMode |
