/**
 * Rendering to Greek and parsing back.  The renderer inserts `Break` after a
 * breaker sound followed by j or i, so that the parser does not read the
 * consonant and the softening glyph after it as one palatalised run.  With
 * the source's break set, c before j is rendered without a break and read
 * back as ć ś; with the corrected set the round trip holds.
 */
module RoundTrip {
  import opened Sounds
  import opened Glyphs
  import opened GreekRender
  import opened GreekParse

  /** c, j, a with the source's break set: τσά, which reads back as ć, ś, a. */
  lemma {:induction false} CjaAsWritten()
    ensures Render([C, J, A], SourceBreakers) == [Tau, Sigma, AlphaAcute]
    ensures Decode([Tau, Sigma, AlphaAcute]) == [Tx, Sx, A]
    ensures Decode(Render([C, J, A], SourceBreakers)) != [C, J, A]
  {
    var w := [C, J, A];
    assert Step(w, SourceBreakers) == Emitted([Tau, Sigma], 1);
    assert w[1..] == [J, A];
    assert Step([J, A], SourceBreakers) == Emitted([AlphaAcute], 2);
    assert Render([J, A], SourceBreakers) == [AlphaAcute];
    var g := [Tau, Sigma, AlphaAcute];
    assert SoftenableRun(g, 0) == 2;
    assert DecodeStep(g, 0) == Decoded([Tx, Sx, A], 3);
  }

  /** c, j, a with the corrected break set: τσ, break, ά, which reads back as c, j, a. */
  lemma {:induction false} CjaCorrected()
    ensures Render([C, J, A], CorrectedBreakers) == [Tau, Sigma, Break, AlphaAcute]
    ensures Decode([Tau, Sigma, Break, AlphaAcute]) == [C, J, A]
  {
    var w := [C, J, A];
    assert Step(w, CorrectedBreakers) == Emitted([Tau, Sigma, Break], 1);
    assert w[1..] == [J, A];
    assert Step([J, A], CorrectedBreakers) == Emitted([AlphaAcute], 2);
    assert Render([J, A], CorrectedBreakers) == [AlphaAcute];
    var g := [Tau, Sigma, Break, AlphaAcute];
    assert SoftenableRun(g, 0) == 2;
    assert DecodeStep(g, 0) == Decoded([C], 2);
    assert DecodeStep(g, 2) == Decoded([], 1);
    assert SoftenableRun(g, 3) == 0;
    assert DecodeStep(g, 3) == Decoded([J, A], 1);
  }

  /** A breaker before j and a vowel: its plain rendering, `Break`, then the rendering of j and the vowel. */
  lemma {:induction false} RenderBreakerJ(c: Sound, v: Sound)
    requires c in CorrectedBreakers && IsVowel(v)
    ensures Render([c, J, v], CorrectedBreakers) == ConsumeNaive(c) + [Break] + Render([J, v], CorrectedBreakers)
  {
    var w := [c, J, v];
    BreakerSetsValid();
    StepOnBreaker(w, CorrectedBreakers);
    assert w[1..] == [J, v];
  }

  /** What the renderer gives for j and a softenable vowel. */
  function JVowelGlyphs(v: Sound): seq<Greek>
    requires IsSoftenableVowel(v)
  {
    if v == I then [Acute, IotaAcute] else SoftenVowel(v)
  }

  /** j before a softenable vowel other than i is that vowel's accented form; before i it is an acute and then i. */
  lemma {:induction false} RenderJVowel(v: Sound)
    requires IsSoftenableVowel(v)
    ensures Render([J, v], CorrectedBreakers) == JVowelGlyphs(v)
  {
    var w := [J, v];
    StepOnJ(w, CorrectedBreakers);
    if v == I {
      assert w[1..] == [I];
    } else {
      assert w[2..] == [];
    }
  }

  /** A softenable consonant closed by `Break` is not a run: it is read plainly. */
  lemma {:induction false} DecodeOneBeforeBreak(g: seq<Greek>)
    requires |g| >= 2 && CanBeSoftened(g[0]) && g[1] == Break
    ensures DecodeStep(g, 0) == Decoded(NaiveGreekToSound(g[0]), 1)
  {
    assert RunScan(g, 0, 1, g[0] == Rho) == 1;
  }

  /** Two softenable consonants forming a digraph and closed by `Break` are read as the digraph. */
  lemma {:induction false} DecodeTwoBeforeBreak(g: seq<Greek>)
    requires |g| >= 3 && CanBeSoftened(g[0]) && CanBeSoftened(g[1]) && g[0] != Rho && g[1] != Rho && g[2] == Break
    requires Digraph(g[0], g[1]).Some?
    ensures DecodeStep(g, 0) == Decoded(Digraph(g[0], g[1]).value, 2)
  {
    assert RunScan(g, 0, 2, false) == 2;
    assert RunScan(g, 0, 1, false) == 2;
  }

  /** How the parse reads a breaker's plain rendering when `Break` closes it. */
  function BreakerReading(nc: seq<Greek>): seq<Sound>
    requires 1 <= |nc| <= 2
  {
    if |nc| == 1 then NaiveGreekToSound(nc[0])
    else if Digraph(nc[0], nc[1]).Some? then Digraph(nc[0], nc[1]).value
    else []
  }

  /** Every breaker's plain rendering is one softenable consonant, or a rho-free softenable digraph, read as the breaker. */
  lemma {:induction false} BreakerRenderingShape(c: Sound)
    requires c in CorrectedBreakers
    ensures var nc := ConsumeNaive(c);
      && (forall k :: 0 <= k < |nc| ==> CanBeSoftened(nc[k]))
      && (|nc| == 2 ==> nc[0] != Rho && nc[1] != Rho && Digraph(nc[0], nc[1]).Some?)
      && BreakerReading(nc) == [c]
  {
    match c
    case N => case Z => case S => case T => case D => case R =>
    case C => case Dz => case Lx =>
  }

  /** The parse reads softenable consonants closed by `Break` as they read on their own. */
  lemma {:induction false} DecodeBeforeBreak(g: seq<Greek>, nc: seq<Greek>)
    requires 1 <= |nc| <= 2 && (forall k :: 0 <= k < |nc| ==> CanBeSoftened(nc[k]))
    requires |nc| == 2 ==> nc[0] != Rho && nc[1] != Rho && Digraph(nc[0], nc[1]).Some?
    requires |g| > |nc| && g[..|nc|] == nc && g[|nc|] == Break
    ensures DecodeFrom(g, 0) == BreakerReading(nc) + DecodeFrom(g, |nc| + 1)
  {
    assert g[0] == nc[0];
    if |nc| == 2 {
      assert g[1] == nc[1];
      DecodeTwoBeforeBreak(g);
      DecodeFromStep(g, 0, BreakerReading(nc), 2);
    } else {
      DecodeOneBeforeBreak(g);
      DecodeFromStep(g, 0, BreakerReading(nc), 1);
    }
    BreakReadsNothing(g, |nc|);
  }

  /** An accented vowel is read as j and the vowel. */
  lemma {:induction false} DecodeAccented(g: seq<Greek>, at: nat, v: Sound)
    requires IsSoftenableVowel(v) && v != I && v != Ou
    requires at < |g| && g[at..] == SoftenVowel(v)
    ensures DecodeFrom(g, at) == [J, v]
  {
    assert g[at] == SoftenVowel(v)[0];
    assert SoftenableRun(g, at) == 0;
    DecodeFromStep(g, at, [J, v], 1);
  }

  /** Accented omicron and upsilon are read as j and ó. */
  lemma {:induction false} DecodeAccentedOu(g: seq<Greek>, at: nat)
    requires at + 2 == |g| && g[at] == OmicronAcute && g[at + 1] == Upsilon
    ensures DecodeFrom(g, at) == [J, Ou]
  {
    assert SoftenableRun(g, at) == 0;
    DecodeFromStep(g, at, [J, Ou], 2);
  }

  /** An acute then accented iota is read as j and i. */
  lemma {:induction false} DecodeAcuteIota(g: seq<Greek>, at: nat)
    requires at + 2 == |g| && g[at] == Acute && g[at + 1] == IotaAcute
    ensures DecodeFrom(g, at) == [J, I]
  {
    assert SoftenableRun(g, at) == 0;
    DecodeFromStep(g, at, [J], 1);
    assert SoftenableRun(g, at + 1) == 0;
    DecodeFromStep(g, at + 1, [I], 1);
  }

  /** The parse reads what the renderer gives for j and a softenable vowel back as j and the vowel. */
  lemma {:induction false} DecodeJVowel(g: seq<Greek>, at: nat, v: Sound)
    requires IsSoftenableVowel(v)
    requires at <= |g| && g[at..] == JVowelGlyphs(v)
    ensures DecodeFrom(g, at) == [J, v]
  {
    var t := g[at..];
    if v == I {
      assert g[at] == t[0] && g[at + 1] == t[1];
      DecodeAcuteIota(g, at);
    } else if v == Ou {
      assert g[at] == t[0] && g[at + 1] == t[1];
      DecodeAccentedOu(g, at);
    } else {
      DecodeAccented(g, at, v);
    }
  }

  /** Softenable consonants, `Break`, then j and a vowel, parse as the consonants' reading, j and the vowel. */
  lemma {:induction false} DecodeBreakThenJVowel(nc: seq<Greek>, v: Sound)
    requires 1 <= |nc| <= 2 && (forall k :: 0 <= k < |nc| ==> CanBeSoftened(nc[k]))
    requires |nc| == 2 ==> nc[0] != Rho && nc[1] != Rho && Digraph(nc[0], nc[1]).Some?
    requires IsSoftenableVowel(v)
    ensures Decode(nc + [Break] + JVowelGlyphs(v)) == BreakerReading(nc) + [J, v]
  {
    var g := nc + [Break] + JVowelGlyphs(v);
    assert g[..|nc|] == nc && g[|nc|] == Break;
    DecodeBeforeBreak(g, nc);
    assert g[|nc| + 1..] == JVowelGlyphs(v);
    DecodeJVowel(g, |nc| + 1, v);
  }

  /**
   * With the corrected break set, every breaker followed by j and a
   * softenable vowel renders to glyphs that parse back as the same sounds.
   */
  lemma {:induction false} CorrectedBreakerJRoundTrip(c: Sound, v: Sound)
    requires c in CorrectedBreakers && IsSoftenableVowel(v)
    ensures Decode(Render([c, J, v], CorrectedBreakers)) == [c, J, v]
  {
    RenderBreakerJ(c, v);
    RenderJVowel(v);
    BreakerRenderingShape(c);
    DecodeBreakThenJVowel(ConsumeNaive(c), v);
  }
}
