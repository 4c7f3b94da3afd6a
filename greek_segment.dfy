/**
 * Splitting Greek-letter text into words and arbitrary runs, and reading each
 * word back as sounds.  The text is lowercased first; a word is a maximal run
 * of glyph characters (lowercase Greek letters, `'` and `\`), an arbitrary run
 * a maximal run of anything else.  A word keeps the capitalisation mode
 * detected on its original characters; an arbitrary run keeps its lowercased
 * characters.  The specification is given for either detection: `detect` as
 * the source writes it (`SourceDetection`, which the methods implement) or the
 * corrected one.
 */
module GreekSegment {
  import opened Wrappers
  import opened Sounds
  import opened Glyphs
  import opened Casing
  import opened Parts
  import opened Seqs
  import opened GreekParse

  /** The glyphs of the maximal run of glyph characters starting at `at`. */
  function WordAt(chars: string, at: nat): (w: seq<Greek>)
    requires at <= |chars|
    ensures at + |w| <= |chars|
    decreases |chars| - at
  {
    if at == |chars| then []
    else match CharToGreek(chars[at])
      case None => []
      case Some(g) => [g] + WordAt(chars, at + 1)
  }

  /** `WordAt` reads every glyph character of the run and stops at the first other character. */
  lemma {:induction false} WordAtShape(chars: string, at: nat)
    requires at <= |chars|
    ensures var w := WordAt(chars, at);
      && (forall k :: 0 <= k < |w| ==> CharToGreek(chars[at + k]) == Some(w[k]))
      && (at + |w| == |chars| || CharToGreek(chars[at + |w|]).None?)
    decreases |chars| - at
  {
    if at < |chars| && CharToGreek(chars[at]).Some? {
      WordAtShape(chars, at + 1);
    }
  }

  /** The length of the maximal run of non-glyph characters starting at `at`. */
  function OtherRun(chars: string, at: nat): (n: nat)
    requires at <= |chars|
    ensures at + n <= |chars|
    decreases |chars| - at
  {
    if at == |chars| || CharToGreek(chars[at]).Some? then 0 else 1 + OtherRun(chars, at + 1)
  }

  /** `OtherRun` covers exactly the characters that are not glyphs. */
  lemma {:induction false} OtherRunShape(chars: string, at: nat)
    requires at <= |chars|
    ensures var n := OtherRun(chars, at);
      && (forall k :: at <= k < at + n ==> CharToGreek(chars[k]).None?)
      && (at + n == |chars| || CharToGreek(chars[at + n]).Some?)
    decreases |chars| - at
  {
    if at < |chars| && CharToGreek(chars[at]).None? {
      OtherRunShape(chars, at + 1);
    }
  }

  /** How many characters the part starting at `at` covers: the word there, or else the run of other characters. */
  function HeadLen(low: string, at: nat): (n: nat)
    requires at < |low|
    ensures 0 < n && at + n <= |low|
  {
    var w := WordAt(low, at);
    if |w| > 0 then |w| else OtherRun(low, at)
  }

  /**
   * The part starting at `at` of the lowercased text `low`: the word there,
   * with the capitalisation mode that `d` detects on the same characters of
   * the original text `orig`, or else the run of other characters.
   */
  function HeadPart(d: Detection, orig: string, low: string, at: nat): Part<Greek>
    requires |orig| == |low| && at < |low|
  {
    var w := WordAt(low, at);
    if |w| > 0 then Word(w, DetectWith(d, orig[at..at + |w|]))
    else Arbitrary(low[at..at + OtherRun(low, at)])
  }

  /** The segmentation of the lowercased text `low` from position `at`. */
  function SegmentFrom(d: Detection, orig: string, low: string, at: nat): seq<Part<Greek>>
    requires |orig| == |low| && at <= |low|
    decreases |low| - at
  {
    if at == |low| then []
    else [HeadPart(d, orig, low, at)] + SegmentFrom(d, orig, low, at + HeadLen(low, at))
  }

  /** `utf8_to_greek`, as a function of the input text, with the word modes from `d`. */
  function Segment(d: Detection, input: string): seq<Part<Greek>> {
    SegmentFrom(d, input, Lowered(input), 0)
  }

  /** The characters a part stands for: an arbitrary run's text, or a word's glyphs written out. */
  function PartText(p: Part<Greek>): string {
    match p
    case Arbitrary(t) => t
    case Word(w, _) => GlyphText(w)
  }

  /** Glyphs written out, one character per glyph, in order. */
  function GlyphText(w: seq<Greek>): (s: string)
    ensures |s| == |w|
  {
    if |w| == 0 then [] else [ToChar(w[0])] + GlyphText(w[1..])
  }

  /** Glyphs whose characters are those of `chars` from `at` are spelled as that slice. */
  lemma {:induction false} GlyphTextSlice(w: seq<Greek>, chars: string, at: nat)
    requires at + |w| <= |chars|
    requires forall k :: 0 <= k < |w| ==> ToChar(w[k]) == chars[at + k]
    ensures GlyphText(w) == chars[at..at + |w|]
    decreases |w|
  {
    if |w| > 0 {
      forall k | 0 <= k < |w| - 1
        ensures ToChar(w[1..][k]) == chars[at + 1 + k]
      {
        assert w[1..][k] == w[k + 1];
      }
      GlyphTextSlice(w[1..], chars, at + 1);
      assert chars[at..at + |w|] == [chars[at]] + chars[at + 1..at + |w|];
    }
  }

  /** The characters a sequence of parts stands for, in order. */
  function Unsegment(parts: seq<Part<Greek>>): string {
    if |parts| == 0 then [] else PartText(parts[0]) + Unsegment(parts[1..])
  }

  /** Whether a part is well formed: a non-empty word, or a non-empty run free of glyph characters. */
  predicate WellFormedPart(p: Part<Greek>) {
    match p
    case Word(w, _) => |w| > 0
    case Arbitrary(t) => |t| > 0 && forall k :: 0 <= k < |t| ==> CharToGreek(t[k]).None?
  }

  /** The head part, written out, is exactly the characters it covers. */
  lemma {:induction false} HeadText(d: Detection, orig: string, low: string, at: nat)
    requires |orig| == |low| && at < |low|
    ensures PartText(HeadPart(d, orig, low, at)) == low[at..at + HeadLen(low, at)]
  {
    var w := WordAt(low, at);
    if |w| > 0 {
      WordAtShape(low, at);
      forall k | 0 <= k < |w|
        ensures ToChar(w[k]) == low[at + k]
      {
        CharToGreekInverse(low[at + k]);
      }
      GlyphTextSlice(w, low, at);
    }
  }

  /**
   * The head part is a word exactly when the text there starts with a glyph
   * character; it is well formed; and the character after it, if any, is of
   * the other kind.
   */
  lemma {:induction false} HeadKind(d: Detection, orig: string, low: string, at: nat)
    requires |orig| == |low| && at < |low|
    ensures HeadPart(d, orig, low, at).Word? <==> CharToGreek(low[at]).Some?
    ensures WellFormedPart(HeadPart(d, orig, low, at))
    ensures at + HeadLen(low, at) < |low| ==>
      (CharToGreek(low[at + HeadLen(low, at)]).Some? <==> HeadPart(d, orig, low, at).Arbitrary?)
  {
    WordAtShape(low, at);
    OtherRunShape(low, at);
    var w := WordAt(low, at);
  }

  /** Writing out two sequences of parts one after the other writes out their concatenation. */
  lemma {:induction false} UnsegmentAppend(a: seq<Part<Greek>>, b: seq<Part<Greek>>)
    ensures Unsegment(a + b) == Unsegment(a) + Unsegment(b)
    decreases |a|
  {
    if |a| > 0 {
      assert (a + b)[0] == a[0] && (a + b)[1..] == a[1..] + b;
      UnsegmentAppend(a[1..], b);
    } else {
      assert a + b == b;
    }
  }

  /** The segmentation loses nothing: its parts, written out, are the lowercased text. */
  lemma {:induction false} SegmentCovers(d: Detection, orig: string, low: string)
    requires |orig| == |low|
    ensures Unsegment(SegmentFrom(d, orig, low, 0)) == low
  {
    var whole := SegmentFrom(d, orig, low, 0);
    var done: seq<Part<Greek>> := [];
    var i := 0;
    while i < |low|
      invariant i <= |low|
      invariant done + SegmentFrom(d, orig, low, i) == whole
      invariant Unsegment(done) == low[..i]
      decreases |low| - i
    {
      done, i := CoverRound(d, orig, low, whole, done, i);
    }
    assert done + [] == done && low[..i] == low;
  }

  /** One part taken: the parts taken so far still lead to the whole, and still cover the text read. */
  lemma {:induction false} CoverRound(d: Detection, orig: string, low: string, whole: seq<Part<Greek>>, done: seq<Part<Greek>>, i: nat)
    returns (done': seq<Part<Greek>>, i': nat)
    requires |orig| == |low| && i < |low|
    requires done + SegmentFrom(d, orig, low, i) == whole && Unsegment(done) == low[..i]
    ensures i < i' <= |low|
    ensures done' + SegmentFrom(d, orig, low, i') == whole && Unsegment(done') == low[..i']
  {
    var head, n := SegmentFromHead(d, orig, low, i);
    CoverStep(whole, done, head, SegmentFrom(d, orig, low, i), SegmentFrom(d, orig, low, i + n), low, i, n);
    done', i' := done + [head], i + n;
  }

  /** The segmentation from `at` starts with a part that covers the next `n > 0` characters. */
  lemma {:induction false} SegmentFromHead(d: Detection, orig: string, low: string, at: nat) returns (head: Part<Greek>, n: nat)
    requires |orig| == |low| && at < |low|
    ensures 0 < n && at + n <= |low|
    ensures SegmentFrom(d, orig, low, at) == [head] + SegmentFrom(d, orig, low, at + n)
    ensures PartText(head) == low[at..at + n]
  {
    head, n := HeadPart(d, orig, low, at), HeadLen(low, at);
    SegmentFromCons(d, orig, low, at);
    HeadText(d, orig, low, at);
  }

  /** Taking a part that covers the next `n` characters keeps both halves of the loop invariant. */
  lemma {:induction false} CoverStep(whole: seq<Part<Greek>>, done: seq<Part<Greek>>, head: Part<Greek>,
                                     rest: seq<Part<Greek>>, rest': seq<Part<Greek>>, low: string, i: nat, n: nat)
    requires done + rest == whole && rest == [head] + rest'
    requires i + n <= |low| && Unsegment(done) == low[..i] && PartText(head) == low[i..i + n]
    ensures (done + [head]) + rest' == whole && Unsegment(done + [head]) == low[..i + n]
  {
    Advance(whole, done, [head], rest, rest');
    SnocCovers(done, head, low, i, n);
  }

  /** The segmentation from `at` is the head part followed by the segmentation after it. */
  lemma {:induction false} SegmentFromCons(d: Detection, orig: string, low: string, at: nat)
    requires |orig| == |low| && at < |low|
    ensures SegmentFrom(d, orig, low, at) == [HeadPart(d, orig, low, at)] + SegmentFrom(d, orig, low, at + HeadLen(low, at))
  {
  }

  /** Parts covering `low[..at]` followed by a part covering `low[at..at + n]` cover `low[..at + n]`. */
  lemma {:induction false} SnocCovers(done: seq<Part<Greek>>, head: Part<Greek>, low: string, at: nat, n: nat)
    requires at + n <= |low|
    requires Unsegment(done) == low[..at] && PartText(head) == low[at..at + n]
    ensures Unsegment(done + [head]) == low[..at + n]
  {
    UnsegmentAppend(done, [head]);
    assert Unsegment([head]) == PartText(head) + Unsegment([]);
    assert low[..at + n] == low[..at] + low[at..at + n];
  }

  /** Every part of the segmentation is a non-empty word or a non-empty run free of glyph characters. */
  lemma {:induction false} SegmentFromWellFormed(d: Detection, orig: string, low: string, at: nat)
    requires |orig| == |low| && at <= |low|
    ensures forall k :: 0 <= k < |SegmentFrom(d, orig, low, at)| ==> WellFormedPart(SegmentFrom(d, orig, low, at)[k])
    decreases |low| - at
  {
    if at < |low| {
      var n := HeadLen(low, at);
      HeadKind(d, orig, low, at);
      SegmentFromWellFormed(d, orig, low, at + n);
      var parts := SegmentFrom(d, orig, low, at);
      assert forall k :: 1 <= k < |parts| ==> parts[k] == SegmentFrom(d, orig, low, at + n)[k - 1];
    }
  }

  /**
   * Words and arbitrary runs alternate, and the first part is a word exactly
   * when the text starts with a glyph character.
   */
  lemma {:induction false} SegmentFromAlternating(d: Detection, orig: string, low: string, at: nat)
    requires |orig| == |low| && at <= |low|
    ensures Alternating(SegmentFrom(d, orig, low, at))
    ensures at < |low| ==> (|SegmentFrom(d, orig, low, at)| > 0
      && (SegmentFrom(d, orig, low, at)[0].Word? <==> CharToGreek(low[at]).Some?))
    decreases |low| - at
  {
    if at < |low| {
      var n := HeadLen(low, at);
      HeadKind(d, orig, low, at);
      SegmentFromAlternating(d, orig, low, at + n);
      var parts, head, rest := SegmentFrom(d, orig, low, at), HeadPart(d, orig, low, at), SegmentFrom(d, orig, low, at + n);
      SegmentFromCons(d, orig, low, at);
      assert parts == [head] + rest;
      AlternatingCons(head, rest);
    }
  }

  /**
   * `consume_utf8_word`: collect glyphs while the characters are glyph
   * characters.  The result is the whole maximal glyph run at the start of
   * the input, read glyph by glyph.
   */
  method ConsumeUtf8Word(input: string) returns (result: seq<Greek>, consumed: nat)
    ensures consumed == |result| <= |input|
    ensures forall k :: 0 <= k < consumed ==> CharToGreek(input[k]) == Some(result[k])
    ensures consumed == |input| || CharToGreek(input[consumed]).None?
  {
    var i := 0;
    result := [];
    while i < |input|
      invariant i == |result| <= |input|
      invariant forall k :: 0 <= k < i ==> CharToGreek(input[k]) == Some(result[k])
    {
      match CharToGreek(input[i]) {
        case Some(g) =>
          result := result + [g];
          i := i + 1;
        case None =>
          break;
      }
    }
    consumed := i;
  }

  /** A word read from the start of a slice is the maximal word at that position. */
  lemma {:induction false} WordAtUnique(chars: string, at: nat, w: seq<Greek>)
    requires at + |w| <= |chars|
    requires forall k :: 0 <= k < |w| ==> CharToGreek(chars[at + k]) == Some(w[k])
    requires at + |w| == |chars| || CharToGreek(chars[at + |w|]).None?
    ensures WordAt(chars, at) == w
    decreases |w|
  {
    if |w| > 0 {
      assert CharToGreek(chars[at]) == Some(w[0]);
      WordAtUnique(chars, at + 1, w[1..]);
      assert w == [w[0]] + w[1..];
    }
  }

  /**
   * One round of `utf8_to_greek`'s loop at position `i`: the word starting
   * there, with its mode detected on the original characters, or else the run
   * of characters that are not glyphs.  The source's "failed to parse" exit
   * cannot be reached: when no word starts at `i`, the character there is not
   * a glyph, so the run is not empty.
   */
  method TakePart(casePreserving: string, charsInput: string, i: nat) returns (part: Part<Greek>, n: nat)
    requires |casePreserving| == |charsInput| && i < |charsInput|
    ensures part == HeadPart(SourceDetection, casePreserving, charsInput, i) && n == HeadLen(charsInput, i)
  {
    var chars := charsInput[i..];
    var result, consumed := ConsumeUtf8Word(chars);
    WordAtUnique(charsInput, i, result);
    if consumed > 0 {
      part := Word(result, Detect(casePreserving[i..i + consumed]));
      n := consumed;
      return;
    }

    var j := 0;
    while j < |chars| && CharToGreek(chars[j]) == None
      invariant j <= |chars|
      invariant OtherRun(charsInput, i + j) + j == OtherRun(charsInput, i)
    {
      j := j + 1;
    }

    if j > 0 {
      part := Arbitrary(chars[..j]);
      assert chars[..j] == charsInput[i..i + j];
      n := j;
      return;
    }

    assert false;
  }

  /**
   * One round of `utf8_to_greek`'s loop with its bookkeeping: the parts so
   * far plus the parts from the new position are still the whole result.
   */
  method SegmentRound(casePreserving: string, charsInput: string, i: nat, ghost whole: seq<Part<Greek>>,
                      parts: seq<Part<Greek>>) returns (parts': seq<Part<Greek>>, i': nat)
    requires |casePreserving| == |charsInput| && i < |charsInput|
    requires parts + SegmentFrom(SourceDetection, casePreserving, charsInput, i) == whole
    ensures i < i' <= |charsInput|
    ensures parts' + SegmentFrom(SourceDetection, casePreserving, charsInput, i') == whole
  {
    var part, n := TakePart(casePreserving, charsInput, i);
    Advance(whole, parts, [part], SegmentFrom(SourceDetection, casePreserving, charsInput, i), SegmentFrom(SourceDetection, casePreserving, charsInput, i + n));
    parts', i' := parts + [part], i + n;
  }

  /** `utf8_to_greek`: lowercase the text, then take parts one after another until it is used up. */
  method Utf8ToGreek(input: string) returns (parts: seq<Part<Greek>>)
    ensures parts == Segment(SourceDetection, input)
  {
    var casePreserving := input;
    var charsInput := Lowered(input);
    parts := [];
    var i := 0;
    while i < |charsInput|
      invariant i <= |charsInput|
      invariant parts + SegmentFrom(SourceDetection, casePreserving, charsInput, i) == Segment(SourceDetection, input)
      decreases |charsInput| - i
    {
      parts, i := SegmentRound(casePreserving, charsInput, i, Segment(SourceDetection, input), parts);
    }
  }

  /** A part of Greek text read as sounds: a word through the Greek parser, an arbitrary run unchanged. */
  function ReadPart(p: Part<Greek>): Part<Sound> {
    match p
    case Arbitrary(t) => Arbitrary(t)
    case Word(w, mode) => Word(Decode(w), mode)
  }

  /** Every part of Greek text read as sounds, in order. */
  function ReadParts(greek: seq<Part<Greek>>): (parts: seq<Part<Sound>>)
    ensures |parts| == |greek|
    ensures forall k :: 0 <= k < |greek| ==> parts[k] == ReadPart(greek[k])
  {
    seq(|greek|, k requires 0 <= k < |greek| => ReadPart(greek[k]))
  }

  /** `utf8_greek_to_text`, as a function of the input text, with the word modes from `d`. */
  function GreekToText(d: Detection, input: string): seq<Part<Sound>> {
    ReadParts(Segment(d, input))
  }

  /** The loop of `utf8_greek_to_text`: each word through `greek_vec_to_sound`, each arbitrary run copied. */
  method ReadAll(greekText: seq<Part<Greek>>) returns (text: seq<Part<Sound>>)
    ensures text == ReadParts(greekText)
  {
    text := [];
    for k := 0 to |greekText|
      invariant |text| == k
      invariant forall m :: 0 <= m < k ==> text[m] == ReadPart(greekText[m])
    {
      var part := greekText[k];
      match part {
        case Arbitrary(arbitrary) =>
          text := text + [Arbitrary(arbitrary)];
        case Word(word, orig) =>
          var result, consumed := GreekVecToSound(word);
          text := text + [Word(result, orig)];
      }
    }
  }

  /**
   * `utf8_greek_to_text`: segment the text, then read each word with
   * `greek_vec_to_sound`.  The parser always consumes the whole word, so the
   * source's "not all parsed" check never fires.
   */
  method Utf8GreekToText(input: string) returns (text: seq<Part<Sound>>)
    ensures text == GreekToText(SourceDetection, input)
  {
    var greekText := Utf8ToGreek(input);
    text := ReadAll(greekText);
  }
}
