/**
 * One-step facts about the Greek reader at a given position: which glyphs
 * start no run, and what a naive glyph, a digraph, a run of one or the end
 * of the input reads.  Stated over any glyph sequence, so that the readings
 * of whole words can be built from them step by step.
 */
module GreekParseSteps {
  import opened Wrappers
  import opened Sounds
  import opened Glyphs
  import opened GreekParse

  /** A glyph that cannot be softened starts no run. */
  lemma {:induction false} NoRunAt(w: seq<Greek>, at: nat)
    requires at < |w| && !CanBeSoftened(w[at])
    ensures !RunApplies(w, at)
  {
    assert SoftenableRun(w, at) == 0;
  }

  /** A softenable glyph followed by one that neither continues nor closes a run starts no run. */
  lemma {:induction false} ShortRunAt(w: seq<Greek>, at: nat)
    requires at + 1 < |w| && CanBeSoftened(w[at]) && !CanBeSoftened(w[at + 1]) && !IsSoftening(w[at + 1])
    ensures !RunApplies(w, at)
  {
    assert RunScan(w, at, 1, w[at] == Rho) == 1;
    assert SoftenableRun(w, at) == 1;
  }

  /** Where no run starts and no digraph begins, a glyph other than the break mark is read through the naive table. */
  lemma {:induction false} DecodeNaiveAt(w: seq<Greek>, at: nat, sounds: seq<Sound>)
    requires at < |w| && w[at] != Break && !RunApplies(w, at)
    requires at + 1 < |w| ==> Digraph(w[at], w[at + 1]).None?
    requires NaiveGreekToSound(w[at]) == sounds
    ensures DecodeFrom(w, at) == sounds + DecodeFrom(w, at + 1)
  {
    assert DecodePlain(w, at) == Decoded(sounds, 1);
    DecodeFromStep(w, at, sounds, 1);
  }

  /** Where no run starts, a digraph is read as one step of two glyphs. */
  lemma {:induction false} DecodeDigraphAt(w: seq<Greek>, at: nat, sounds: seq<Sound>)
    requires at + 1 < |w| && w[at] != Break && !RunApplies(w, at)
    requires Digraph(w[at], w[at + 1]) == Some(sounds)
    ensures DecodeFrom(w, at) == sounds + DecodeFrom(w, at + 2)
  {
    DecodeFromStep(w, at, sounds, 2);
  }

  /** Past the last glyph nothing is read. */
  lemma {:induction false} DecodeEnd(w: seq<Greek>)
    ensures DecodeFrom(w, |w|) == []
  {
  }


  /** A softenable glyph closed at once by a softening glyph is a run of one. */
  lemma {:induction false} RunOfOneAt(w: seq<Greek>, at: nat)
    requires at + 1 < |w| && CanBeSoftened(w[at]) && IsSoftening(w[at + 1])
    ensures SoftenableRun(w, at) == 1 && RunApplies(w, at)
    ensures SoftenedRunSounds(w, at, 1) == [SoftenedReading(w[at])]
  {
    Glyphs.SofteningDisjoint(w[at + 1]);
    assert RunScan(w, at, 1, w[at] == Rho) == 1;
  }

  /** Only accented omicron reads as `O`. */
  lemma {:induction false} AccentedNotO(g: Greek, afterRho: bool)
    requires IsSoftening(g) && g != Acute && g != OmicronAcute
    ensures AccentedVowelSound(g, afterRho) != O
  {
  }

  /** A softenable glyph closed at once by an accented vowel other than ό is a run of one: its palatalised reading, then the vowel. */
  lemma {:induction false} DecodeRunOfOneAt(w: seq<Greek>, at: nat, sounds: seq<Sound>)
    requires at + 1 < |w| && CanBeSoftened(w[at]) && IsSoftening(w[at + 1]) && w[at + 1] != Acute && w[at + 1] != OmicronAcute
    requires sounds == [SoftenedReading(w[at]), AccentedVowelSound(w[at + 1], w[at] == Rho)]
    ensures DecodeFrom(w, at) == sounds + DecodeFrom(w, at + 2)
  {
    RunOfOneAt(w, at);
    AccentedNotO(w[at + 1], w[at] == Rho);
    assert DecodeRun(w, at) == Decoded(sounds, 2);
    DecodeFromStep(w, at, sounds, 2);
  }

  /** Rho followed by another softenable glyph other than rho starts no run. */
  lemma {:induction false} RhoCutAt(w: seq<Greek>, at: nat)
    requires at + 1 < |w| && w[at] == Rho && CanBeSoftened(w[at + 1]) && w[at + 1] != Rho
    ensures !RunApplies(w, at)
  {
    assert RunScan(w, at, 1, true) == 0;
    assert SoftenableRun(w, at) == 0;
  }

  /** Two softenable glyphs without rho, followed by one that neither continues nor closes the run, start no run. */
  lemma {:induction false} UnclosedPairAt(w: seq<Greek>, at: nat)
    requires at + 2 < |w| && CanBeSoftened(w[at]) && CanBeSoftened(w[at + 1]) && w[at] != Rho && w[at + 1] != Rho
    requires !CanBeSoftened(w[at + 2]) && !IsSoftening(w[at + 2])
    ensures !RunApplies(w, at)
  {
    assert RunScan(w, at, 2, false) == 2;
    assert RunScan(w, at, 1, false) == 2;
    assert SoftenableRun(w, at) == 2;
  }
}
