/**
 * A segment of text: either an arbitrary run that is copied verbatim, or a
 * word made of units of one alphabet (sounds or Greek glyphs) together with
 * the capitalisation mode detected on its original characters.
 */
module Parts {
  import opened Casing

  datatype Part<T> = Arbitrary(text: string) | Word(units: seq<T>, mode: CapitalisationMode)

  /** Consecutive parts never have the same kind: words and arbitrary runs alternate. */
  predicate Alternating<T>(parts: seq<Part<T>>) {
    forall k :: 0 <= k < |parts| - 1 ==> parts[k].Word? != parts[k + 1].Word?
  }

  /** A part of the other kind than the first of an alternating sequence keeps it alternating when put in front. */
  lemma {:induction false} AlternatingCons<T>(head: Part<T>, rest: seq<Part<T>>)
    requires Alternating(rest) && (|rest| > 0 ==> head.Word? != rest[0].Word?)
    ensures Alternating([head] + rest)
  {
    var parts := [head] + rest;
    forall k | 1 <= k < |parts| - 1
      ensures parts[k].Word? != parts[k + 1].Word?
    {
      assert parts[k] == rest[k - 1] && parts[k + 1] == rest[k];
    }
  }
}
