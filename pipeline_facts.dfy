/**
 * The cased and caseless pipelines agree up to letter case: lowering what the
 * cased pipeline writes gives what the caseless one writes.  Both alphabets'
 * renderings are lowercase, and the arbitrary runs are cut from the lowered
 * text, so only the applied capitalisation modes differ.
 */
module PipelineFacts {
  import opened Wrappers
  import opened Casing
  import opened Parts
  import opened Sounds
  import opened Glyphs
  import opened GreekRender
  import opened OfficialRender
  import opened OfficialSpellingFacts
  import opened Pipeline
  import opened Seqs
  import OfficialParse
  import GreekSegment

  /** No glyph is written with an uppercase character. */
  lemma {:induction false} ToCharNotUpper(g: Greek)
    ensures !IsUpper(ToChar(g))
  {
  }

  /** The Greek rendering of a word has no uppercase letter. */
  lemma {:induction false} ToGreekNoUpper(units: seq<Sound>, breakers: set<Sound>)
    ensures NoUpper(ToGreek(units, breakers))
  {
    var t, glyphs := ToGreek(units, breakers), Render(units, breakers);
    forall k | 0 <= k < |t|
      ensures !IsUpper(t[k])
    {
      CharToGreekInverse(t[k]);
      ToCharNotUpper(glyphs[k]);
    }
  }

  /** Every letter the Polish reader recognises is lowercase. */
  lemma {:induction false} PolishLetterNotUpper(c: char)
    requires OfficialParse.SingleNaive(c).Some?
    ensures !IsUpper(c)
  {
  }

  /** The Polish spelling of a word has no uppercase letter. */
  lemma {:induction false} ToOfficialNoUpper(units: seq<Sound>)
    ensures NoUpper(ToOfficial(units))
  {
    ToOfficialLetters(units);
    var t := ToOfficial(units);
    forall k | 0 <= k < |t|
      ensures !IsUpper(t[k])
    {
      PolishLetterNotUpper(t[k]);
    }
  }

  /** Lowering the rendering of a part under `cased` gives its rendering under `caseless`. */
  predicate LowersTo<T>(p: Part<T>, cased: (seq<T>, CapitalisationMode) -> string, caseless: (seq<T>, CapitalisationMode) -> string) {
    Lowered(PartString(p, cased)) == PartString(p, caseless)
  }

  /** When every part lowers so, the whole joined text does. */
  lemma {:induction false} JoinLowered<T>(parts: seq<Part<T>>, cased: (seq<T>, CapitalisationMode) -> string,
                                          caseless: (seq<T>, CapitalisationMode) -> string)
    requires forall k :: 0 <= k < |parts| ==> LowersTo(parts[k], cased, caseless)
    ensures Lowered(Join(parts, cased)) == Join(parts, caseless)
    decreases |parts|
  {
    if |parts| > 0 {
      assert LowersTo(parts[0], cased, caseless);
      JoinLowered(parts[1..], cased, caseless);
      LoweredAppend(PartString(parts[0], cased), Join(parts[1..], cased));
    }
  }

  /** Every arbitrary run among the parts is lowercase. */
  predicate ArbitraryLower<T>(parts: seq<Part<T>>) {
    forall k :: 0 <= k < |parts| ==> LowerRun(parts[k])
  }

  /** A part that is an arbitrary run is lowercase. */
  predicate LowerRun<T>(p: Part<T>) {
    p.Arbitrary? ==> NoUpper(p.text)
  }

  /** A lowercase run in front of lowercase runs keeps them all lowercase. */
  lemma {:induction false} ArbitraryLowerCons<T>(head: Part<T>, rest: seq<Part<T>>)
    requires LowerRun(head)
    requires ArbitraryLower(rest)
    ensures ArbitraryLower([head] + rest)
  {
    var parts := [head] + rest;
    forall k | 0 <= k < |parts| && parts[k].Arbitrary?
      ensures NoUpper(parts[k].text)
    {
      if k > 0 {
        assert parts[k] == rest[k - 1];
      }
    }
  }

  /** A slice of a lowercase text is lowercase. */
  lemma {:induction false} SliceNoUpper(low: string, i: nat, j: nat)
    requires i <= j <= |low| && NoUpper(low)
    ensures NoUpper(low[i..j])
  {
    assert forall m :: 0 <= m < j - i ==> low[i..j][m] == low[i + m];
  }

  /** Every arbitrary run the Polish reader cuts from a lowercase text is lowercase. */
  lemma {:induction false} ParseFromArbitraryLower(orig: string, low: string, at: nat)
    requires |orig| == |low| && at <= |low| && NoUpper(low)
    ensures ArbitraryLower(OfficialParse.ParseFrom(orig, low, at))
    decreases |low| - at
  {
    if at < |low| {
      var n := OfficialParse.HeadLen(low, at);
      if n > 0 {
        ParseFromArbitraryLower(orig, low, at + n);
        var head := OfficialParse.HeadPart(orig, low, at);
        if head.Arbitrary? {
          SliceNoUpper(low, at, at + OfficialParse.UnknownRun(low, at));
        }
        ArbitraryLowerCons(head, OfficialParse.ParseFrom(orig, low, at + n));
      }
    }
  }

  /** Every arbitrary run the Greek segmenter cuts from a lowercase text is lowercase. */
  lemma {:induction false} SegmentFromArbitraryLower(d: Detection, orig: string, low: string)
    requires |orig| == |low| && NoUpper(low)
    ensures ArbitraryLower(GreekSegment.SegmentFrom(d, orig, low, 0))
  {
    var whole := GreekSegment.SegmentFrom(d, orig, low, 0);
    var done: seq<Part<Greek>> := [];
    var i := 0;
    while i < |low|
      invariant i <= |low|
      invariant done + GreekSegment.SegmentFrom(d, orig, low, i) == whole
      invariant ArbitraryLower(done)
      decreases |low| - i
    {
      done, i := LowerRound(d, orig, low, whole, done, i);
    }
    assert done + [] == done;
  }

  /** One part taken: the parts taken so far still lead to the whole, and their runs are still lowercase. */
  lemma {:induction false} LowerRound(d: Detection, orig: string, low: string, whole: seq<Part<Greek>>,
                                      done: seq<Part<Greek>>, i: nat) returns (done': seq<Part<Greek>>, i': nat)
    requires |orig| == |low| && i < |low| && NoUpper(low)
    requires done + GreekSegment.SegmentFrom(d, orig, low, i) == whole && ArbitraryLower(done)
    ensures i < i' <= |low|
    ensures done' + GreekSegment.SegmentFrom(d, orig, low, i') == whole && ArbitraryLower(done')
  {
    var head, n := GreekSegment.HeadPart(d, orig, low, i), GreekSegment.HeadLen(low, i);
    GreekSegment.SegmentFromCons(d, orig, low, i);
    Advance(whole, done, [head], GreekSegment.SegmentFrom(d, orig, low, i), GreekSegment.SegmentFrom(d, orig, low, i + n));
    HeadPartLower(d, orig, low, i);
    ArbitraryLowerSnoc(done, head);
    done', i' := done + [head], i + n;
  }

  /** A lowercase run after lowercase runs keeps them all lowercase. */
  lemma {:induction false} ArbitraryLowerSnoc<T>(done: seq<Part<T>>, last: Part<T>)
    requires ArbitraryLower(done) && LowerRun(last)
    ensures ArbitraryLower(done + [last])
  {
    var parts := done + [last];
    forall k | 0 <= k < |parts|
      ensures LowerRun(parts[k])
    {
      if k < |done| {
        assert parts[k] == done[k];
      }
    }
  }

  /** The Greek segmenter's head part, when it is an arbitrary run of a lowercase text, is lowercase. */
  lemma {:induction false} HeadPartLower(d: Detection, orig: string, low: string, at: nat)
    requires |orig| == |low| && at < |low| && NoUpper(low)
    ensures LowerRun(GreekSegment.HeadPart(d, orig, low, at))
  {
    if |GreekSegment.WordAt(low, at)| == 0 {
      SliceNoUpper(low, at, at + GreekSegment.OtherRun(low, at));
    }
  }

  /** Lowering the cased `official_to_greek` gives the caseless one. */
  lemma {:induction false} OfficialToGreekLowered(input: string)
    ensures Lowered(OfficialToGreek(input)) == CaselessOfficialToGreek(input)
  {
    var parts := OfficialParse.Parse(input);
    ParseFromArbitraryLower(input, Lowered(input), 0);
    forall k | 0 <= k < |parts|
      ensures LowersTo(parts[k], GreekWord, CaselessGreekWord)
    {
      match parts[k]
      case Arbitrary(t) =>
        assert LowerRun(parts[k]);
        LoweredNoUpper(t);
      case Word(units, mode) =>
        ToGreekNoUpper(units, SourceBreakers);
        LoweredApply(mode, ToGreek(units, SourceBreakers));
    }
    JoinLowered(parts, GreekWord, CaselessGreekWord);
  }

  /** Lowering the cased `greek_to_official` gives the caseless one. */
  lemma {:induction false} GreekToOfficialLowered(input: string)
    ensures Lowered(GreekToOfficial(input)) == CaselessGreekToOfficial(input)
  {
    var greek := GreekSegment.Segment(SourceDetection, input);
    var parts := GreekSegment.GreekToText(SourceDetection, input);
    SegmentFromArbitraryLower(SourceDetection, input, Lowered(input));
    forall k | 0 <= k < |parts|
      ensures LowersTo(parts[k], PolishWord, CaselessPolishWord)
    {
      assert parts[k] == GreekSegment.ReadPart(greek[k]);
      match parts[k]
      case Arbitrary(t) =>
        assert LowerRun(greek[k]);
        LoweredNoUpper(t);
      case Word(units, mode) =>
        ToOfficialNoUpper(units);
        LoweredApply(mode, ToOfficial(units));
    }
    JoinLowered(parts, PolishWord, CaselessPolishWord);
  }
}
