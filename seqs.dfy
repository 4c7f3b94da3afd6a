/** Small facts about sequences shared by the scanning loops. */
module Seqs {
  /** Moving a step's output from the unread tail to the read prefix keeps the whole. */
  lemma {:induction false} Advance<T>(whole: seq<T>, prefix: seq<T>, step: seq<T>, tailOld: seq<T>, tailNew: seq<T>)
    requires prefix + tailOld == whole
    requires tailOld == step + tailNew
    ensures (prefix + step) + tailNew == whole
  {
  }

  /** A suffix is the slice up to a later point followed by the suffix from there. */
  lemma {:induction false} SplitSuffix<T>(s: seq<T>, i: nat, j: nat)
    requires i <= j <= |s|
    ensures s[i..] == s[i..j] + s[j..]
  {
  }
}
