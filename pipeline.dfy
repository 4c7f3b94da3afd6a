/**
 * The two directions of the transliteration.  A text is split into parts;
 * each word part is rendered in the other alphabet, lowercase, and the
 * word's capitalisation mode is applied to the rendering; each arbitrary run
 * is copied as it is; the pieces are joined in order with nothing between
 * them.  The caseless variant renders the words and never applies a mode.
 * The corrected variants differ from the source in two places only: they
 * break after every consonant a following acute would misread, and they
 * detect a Greek word's mode on its cased characters.
 */
module Pipeline {
  import opened Casing
  import opened Parts
  import opened Sounds
  import opened GreekRender
  import opened OfficialRender
  import OfficialParse
  import GreekSegment

  /** The rendering of one part: a word through `word`, an arbitrary run copied as it is. */
  function PartString<T>(p: Part<T>, word: (seq<T>, CapitalisationMode) -> string): string {
    match p
    case Arbitrary(t) => t
    case Word(units, mode) => word(units, mode)
  }

  /** The renderings of the parts, in order, joined with nothing between them. */
  function Join<T>(parts: seq<Part<T>>, word: (seq<T>, CapitalisationMode) -> string): string
    decreases |parts|
  {
    if |parts| == 0 then "" else PartString(parts[0], word) + Join(parts[1..], word)
  }

  /** A Polish word in Greek letters, in its capitalisation mode, with the source's break set. */
  function GreekWord(units: seq<Sound>, mode: CapitalisationMode): string {
    Apply(mode, ToGreek(units, SourceBreakers))
  }

  /** A word of sounds in Polish spelling, in its capitalisation mode. */
  function PolishWord(units: seq<Sound>, mode: CapitalisationMode): string {
    Apply(mode, ToOfficial(units))
  }

  /** `official_to_greek`: Polish text in Greek letters, with each word's capitalisation kept. */
  function OfficialToGreek(input: string): string {
    Join(OfficialParse.Parse(input), GreekWord)
  }

  /** `greek_to_official`: Greek-letter text in Polish spelling, with each word's capitalisation kept. */
  function GreekToOfficial(input: string): string {
    Join(GreekSegment.GreekToText(SourceDetection, input), PolishWord)
  }

  /** A Polish word in Greek letters, lowercase whatever its mode. */
  function CaselessGreekWord(units: seq<Sound>, mode: CapitalisationMode): string {
    ToGreek(units, SourceBreakers)
  }

  /** A word of sounds in Polish spelling, lowercase whatever its mode. */
  function CaselessPolishWord(units: seq<Sound>, mode: CapitalisationMode): string {
    ToOfficial(units)
  }

  /** The caseless `official_to_greek`: every word is rendered lowercase. */
  function CaselessOfficialToGreek(input: string): string {
    Join(OfficialParse.Parse(input), CaselessGreekWord)
  }

  /** The caseless `greek_to_official`: every word is spelled lowercase. */
  function CaselessGreekToOfficial(input: string): string {
    Join(GreekSegment.GreekToText(SourceDetection, input), CaselessPolishWord)
  }

  /** A Polish word in Greek letters, in its capitalisation mode, breaking after every consonant that needs it. */
  function CorrectedGreekWord(units: seq<Sound>, mode: CapitalisationMode): string {
    Apply(mode, ToGreek(units, CorrectedBreakers))
  }

  /** `official_to_greek` with the corrected break set. */
  function CorrectedOfficialToGreek(input: string): string {
    Join(OfficialParse.Parse(input), CorrectedGreekWord)
  }

  /** `greek_to_official` with each word's mode from the corrected detection. */
  function CorrectedGreekToOfficial(input: string): string {
    Join(GreekSegment.GreekToText(CorrectedDetection, input), PolishWord)
  }

  /** A part in front of others is rendered in front of their rendering. */
  lemma {:induction false} JoinCons<T>(p: Part<T>, rest: seq<Part<T>>, word: (seq<T>, CapitalisationMode) -> string)
    ensures Join([p] + rest, word) == PartString(p, word) + Join(rest, word)
  {
    assert ([p] + rest)[0] == p;
    assert ([p] + rest)[1..] == rest;
  }

  /** A single part is rendered on its own. */
  lemma {:induction false} JoinSingle<T>(p: Part<T>, word: (seq<T>, CapitalisationMode) -> string)
    ensures Join([p], word) == PartString(p, word)
  {
    assert [p][1..] == [];
  }

  /** Joining two runs of parts is joining each and concatenating. */
  lemma {:induction false} JoinAppend<T>(a: seq<Part<T>>, b: seq<Part<T>>, word: (seq<T>, CapitalisationMode) -> string)
    ensures Join(a + b, word) == Join(a, word) + Join(b, word)
    decreases |a|
  {
    if |a| > 0 {
      assert a + b == [a[0]] + (a[1..] + b);
      JoinCons(a[0], a[1..] + b, word);
      JoinAppend(a[1..], b, word);
      calc {
        Join(a + b, word);
        PartString(a[0], word) + Join(a[1..] + b, word);
        PartString(a[0], word) + (Join(a[1..], word) + Join(b, word));
        (PartString(a[0], word) + Join(a[1..], word)) + Join(b, word);
        Join(a, word) + Join(b, word);
      }
    } else {
      assert a + b == b;
    }
  }

  /**
   * The rendering of part `k` sits in the joined text exactly between the
   * renderings of the parts before it and those after it.
   */
  lemma {:induction false} JoinInOrder<T>(parts: seq<Part<T>>, k: nat, word: (seq<T>, CapitalisationMode) -> string)
    requires k < |parts|
    ensures Join(parts, word) == Join(parts[..k], word) + PartString(parts[k], word) + Join(parts[k + 1..], word)
  {
    var before, after := parts[..k], parts[k + 1..];
    var tail := [parts[k]] + after;
    assert parts == before + tail;
    JoinAppend(before, tail, word);
    JoinCons(parts[k], after, word);
    calc {
      Join(parts, word);
      Join(before + tail, word);
      Join(before, word) + Join(tail, word);
      Join(before, word) + (PartString(parts[k], word) + Join(after, word));
    }
  }

  /** An arbitrary run between words comes out unchanged, in its place. */
  lemma {:induction false} ArbitraryCopied<T>(parts: seq<Part<T>>, k: nat, word: (seq<T>, CapitalisationMode) -> string)
    requires k < |parts| && parts[k].Arbitrary?
    ensures Join(parts, word) == Join(parts[..k], word) + parts[k].text + Join(parts[k + 1..], word)
  {
    JoinInOrder(parts, k, word);
  }
}
