/**
 * The Greek renderer: a sound sequence becomes a glyph sequence, scanning left
 * to right and emitting, at each position, the rendering of the longest rule
 * that applies there.
 */
module GreekRender {
  import opened Sounds
  import opened Glyphs
  import opened Wrappers

  /** What one rule emitted and how many sounds it consumed. */
  datatype Emitted = Emitted(glyphs: seq<Greek>, consumed: nat)

  /** The context-free rendering of one sound. */
  function ConsumeNaive(s: Sound): (r: seq<Greek>)
    ensures 1 <= |r| <= 2
    ensures Break !in r
  {
    match s
    case A => [Alpha]
    case B => [Mu, Pi]
    case C => [Tau, Sigma]
    case Ch => [Theta]
    case D => [Delta]
    case Dx => [Delta, Acute]
    case E => [Epsilon]
    case Ex => [Eta]
    case F => [Phi]
    case G => [Gamma]
    case H => [Chi]
    case I => [IotaAcute]
    case J => [Acute]
    case K => [Kappa]
    case L => [Lambda, Acute]
    case Lx => [Lambda]
    case M => [Mu]
    case N => [Nu]
    case Nx => [Nu, Acute]
    case O => [Omicron]
    case Ox => [Omega]
    case Ou => [Omicron, Upsilon]
    case P => [Pi]
    case R => [Rho]
    case S => [Sigma]
    case Sx => [Sigma, Acute]
    case Sh => [Psi]
    case T => [Tau]
    case Tx => [Tau, Acute]
    case U => [Upsilon]
    case W => [Beta]
    case Y => [Iota]
    case Z => [Zeta]
    case Zx => [Zeta, Acute]
    case Zh => [Xi]
    case Rx => [Rho, Acute]
    case Dz => [Delta, Zeta]
    case Dh => [Delta, Xi]
  }

  /** The plain letter of a softened sound; only softened sounds have one. */
  function SoftenedSoundToBaseGreek(s: Sound): (g: Greek)
    requires IsSoftened(s)
    ensures s != I <==> CanBeSoftened(g)
  {
    match s
    case Sx => Sigma
    case Zx => Zeta
    case L => Lambda
    case Tx => Tau
    case Nx => Nu
    case I => Iota
    case Rx => Rho
    case Dx => Delta
  }

  /** The accented form of a vowel that carries a preceding softening. */
  function SoftenVowel(s: Sound): (r: seq<Greek>)
    requires IsSoftenableVowel(s)
    ensures |r| == (if s == Ou then 2 else 1)
    ensures IsSoftening(r[0]) && r[0] != Acute
  {
    match s
    case A => [AlphaAcute]
    case E => [EpsilonAcute]
    case Ex => [EtaAcute]
    case I => [IotaAcute]
    case O => [OmicronAcute]
    case Ou => [OmicronAcute, Upsilon]
    case Ox => [OmegaAcute]
    case U => [UpsilonAcute]
  }

  /** The length of the maximal run of softened sounds other than `I` that starts the input. */
  function SoftenedRun(input: seq<Sound>): (n: nat)
    ensures n <= |input|
    ensures forall k :: 0 <= k < n ==> IsSoftened(input[k]) && input[k] != I
    ensures n < |input| ==> !IsSoftened(input[n]) || input[n] == I
  {
    if |input| > 0 && IsSoftened(input[0]) && input[0] != I then 1 + SoftenedRun(input[1..]) else 0
  }

  /** The run length is the only prefix length with the two properties above. */
  lemma {:induction false} SoftenedRunUnique(input: seq<Sound>, n: nat)
    requires n <= |input|
    requires forall k :: 0 <= k < n ==> IsSoftened(input[k]) && input[k] != I
    requires n < |input| ==> !IsSoftened(input[n]) || input[n] == I
    ensures SoftenedRun(input) == n
  {
    if n > 0 {
      SoftenedRunUnique(input[1..], n - 1);
    }
  }

  function BaseLetters(run: seq<Sound>): (r: seq<Greek>)
    requires forall k :: 0 <= k < |run| ==> IsSoftened(run[k]) && run[k] != I
    ensures |r| == |run|
    ensures forall k :: 0 <= k < |r| ==> CanBeSoftened(r[k])
  {
    seq(|run|, k requires 0 <= k < |run| => SoftenedSoundToBaseGreek(run[k]))
  }

  /** Sets of sounds before which a `Break` may be inserted: none is softened and none is `J`. */
  predicate ValidBreakers(breakers: set<Sound>) {
    forall s :: s in breakers ==> !IsSoftened(s) && s != J
  }

  /** The sounds after which the source inserts `Break` before `J` or `I`. */
  const SourceBreakers: set<Sound> := {N, Z, S, T, D, R}

  /** The last glyph of a sound's plain rendering. */
  function LastGlyph(s: Sound): Greek {
    var r := ConsumeNaive(s);
    r[|r| - 1]
  }

  /**
   * The sounds that need a `Break` before `J` or `I`: those neither softened
   * nor `J` whose plain rendering ends in a softenable consonant.  The source's
   * set lacks c, dz and ł.
   */
  const CorrectedBreakers: set<Sound> := {N, Z, S, T, D, R, C, Dz, Lx}

  /** A sound neither softened nor `J` whose rendering a following softening glyph would misread. */
  predicate NeedsBreak(s: Sound) {
    !IsSoftened(s) && s != J && CanBeSoftened(LastGlyph(s))
  }

  /** Every sound of the corrected set needs a break. */
  lemma {:induction false} CorrectedBreakersNeeded(s: Sound)
    requires s in CorrectedBreakers
    ensures NeedsBreak(s)
  {
    match s
    case N => case Z => case S => case T => case D => case R =>
    case C => case Dz => case Lx =>
  }

  /** Every sound that needs a break is in the corrected set. */
  lemma {:induction false} CorrectedBreakersComplete(s: Sound)
    requires NeedsBreak(s)
    ensures s in CorrectedBreakers
  {
  }

  /** Both sets are valid breaker sets, and the source's is contained in the corrected one. */
  lemma {:induction false} BreakerSetsValid()
    ensures ValidBreakers(SourceBreakers) && ValidBreakers(CorrectedBreakers)
    ensures SourceBreakers < CorrectedBreakers
  {
    forall s | s in CorrectedBreakers
      ensures !IsSoftened(s) && s != J
    {
      CorrectedBreakersNeeded(s);
    }
    assert C in CorrectedBreakers && C !in SourceBreakers;
  }

  /** c is such a sound, yet the source does not break after it. */
  lemma {:induction false} SourceBreakersMissC()
    ensures NeedsBreak(C) && C !in SourceBreakers
  {
  }

  /**
   * One step of the renderer on a non-empty input: a softened run, then `J`,
   * then the break rule, then the naive table.
   */
  function Step(input: seq<Sound>, breakers: set<Sound>): (e: Emitted)
    ensures |input| == 0 ==> e.consumed == 0
    ensures |input| > 0 ==> 1 <= e.consumed <= |input| && |e.glyphs| > 0
  {
    if |input| == 0 then Emitted([], 0)
    else if |input| == 1 then Emitted(ConsumeNaive(input[0]), 1)
    else
      var n := SoftenedRun(input);
      if n > 0 then
        var follows := n < |input| && IsVowel(input[n]);
        var last := if !follows then [Acute] else if input[n] == Y then [IotaAcute] else SoftenVowel(input[n]);
        Emitted(BaseLetters(input[..n]) + last, if follows then n + 1 else n)
      else if input[0] == J then
        if IsVowel(input[1]) && input[1] != Y && input[1] != I then Emitted(SoftenVowel(input[1]), 2)
        else Emitted([Acute], 1)
      else if (input[1] == J || input[1] == I) && input[0] in breakers then
        Emitted(ConsumeNaive(input[0]) + [Break], 1)
      else Emitted(ConsumeNaive(input[0]), 1)
  }

  /** The whole rendering: the steps' emissions, in order, until the input is used up. */
  function Render(input: seq<Sound>, breakers: set<Sound>): (r: seq<Greek>)
    ensures |input| > 0 ==> |r| > 0
    decreases |input|
  {
    if |input| == 0 then []
    else
      var e := Step(input, breakers);
      e.glyphs + Render(input[e.consumed..], breakers)
  }

  /** The rendering written out as characters; each character reads back as its glyph. */
  function ToGreek(input: seq<Sound>, breakers: set<Sound>): (s: string)
    ensures |s| == |Render(input, breakers)|
    ensures forall k :: 0 <= k < |s| ==> CharToGreek(s[k]) == Some(Render(input, breakers)[k])
  {
    var glyphs := Render(input, breakers);
    seq(|glyphs|, k requires 0 <= k < |glyphs| => ToChar(glyphs[k]))
  }

  /** `consume_greek`: counts the softened run with a loop, then applies the first rule that fits. */
  method ConsumeGreek(input: seq<Sound>, breakers: set<Sound>) returns (glyphs: seq<Greek>, consumed: nat)
    ensures Emitted(glyphs, consumed) == Step(input, breakers)
  {
    if |input| == 0 {
      return [], 0;
    }
    var i0 := input[0];
    if |input| == 1 {
      return ConsumeNaive(i0), 1;
    }

    var softenedCount := 0;
    while softenedCount < |input| && IsSoftened(input[softenedCount]) && input[softenedCount] != I
      invariant softenedCount <= |input|
      invariant forall k :: 0 <= k < softenedCount ==> IsSoftened(input[k]) && input[k] != I
    {
      softenedCount := softenedCount + 1;
    }
    SoftenedRunUnique(input, softenedCount);

    if softenedCount > 0 {
      var follows := softenedCount < |input| && IsVowel(input[softenedCount]);
      var last := if !follows then [Acute]
        else if input[softenedCount] == Y then [IotaAcute]
        else SoftenVowel(input[softenedCount]);
      glyphs := BaseLetters(input[..softenedCount]) + last;
      consumed := if follows then softenedCount + 1 else softenedCount;
      return;
    }

    if i0 == J {
      var i1 := input[1];
      if IsVowel(i1) && i1 != Y && i1 != I {
        return SoftenVowel(i1), 2;
      } else {
        return [Acute], 1;
      }
    }

    var i1 := input[1];
    if i1 == J || i1 == I {
      if i0 in breakers {
        return ConsumeNaive(i0) + [Break], 1;
      }
    }
    return ConsumeNaive(i0), 1;
  }

  /** `do_the_job`: applies steps until the whole input is consumed. */
  method DoTheJob(input: seq<Sound>, breakers: set<Sound>) returns (result: seq<Greek>)
    ensures result == Render(input, breakers)
  {
    result := [];
    var i := 0;
    while i < |input|
      invariant 0 <= i <= |input|
      invariant result + Render(input[i..], breakers) == Render(input, breakers)
    {
      var glyphs, consumed := ConsumeGreek(input[i..], breakers);
      assert input[i..][consumed..] == input[i + consumed..];
      result := result + glyphs;
      i := i + consumed;
    }
  }

  /**
   * A run of n softened sounds emits the run's n base letters and then one
   * softening glyph, the last one: `IotaAcute` before `Y`, the accented vowel before any
   * other vowel (which is consumed too), `Acute` when no vowel follows.
   */
  lemma {:induction false} StepOnSoftenedRun(input: seq<Sound>, breakers: set<Sound>)
    requires |input| >= 2 && SoftenedRun(input) > 0
    ensures var n, e := SoftenedRun(input), Step(input, breakers);
      && e.consumed == (if n < |input| && IsVowel(input[n]) then n + 1 else n)
      && |e.glyphs| > n
      && e.glyphs[..n] == BaseLetters(input[..n])
      && (forall k :: 0 <= k < n ==> CanBeSoftened(e.glyphs[k]))
      && IsSoftening(e.glyphs[n])
      && (e.glyphs[n] == Acute <==> e.consumed == n)
      && (!(n < |input| && IsVowel(input[n])) ==> e.glyphs[n..] == [Acute])
      && (n < |input| && input[n] == Y ==> e.glyphs[n..] == [IotaAcute])
      && (n < |input| && IsSoftenableVowel(input[n]) ==> e.glyphs[n..] == SoftenVowel(input[n]))
  {
  }

  /** `J` before a vowel other than `Y` and `I` becomes that vowel's accented form; any other `J` is a bare acute. */
  lemma {:induction false} StepOnJ(input: seq<Sound>, breakers: set<Sound>)
    requires |input| >= 2 && input[0] == J
    ensures var e := Step(input, breakers);
      if IsVowel(input[1]) && input[1] != Y && input[1] != I
      then e.consumed == 2 && |e.glyphs| == |SoftenVowel(input[1])| && e.glyphs == SoftenVowel(input[1])
      else e == Emitted([Acute], 1)
  {
  }

  /** A breaker before `J` or `I` is rendered plainly and followed by `Break`, consuming one sound. */
  lemma {:induction false} StepOnBreaker(input: seq<Sound>, breakers: set<Sound>)
    requires ValidBreakers(breakers)
    requires |input| >= 2 && input[0] in breakers && (input[1] == J || input[1] == I)
    ensures Step(input, breakers) == Emitted(ConsumeNaive(input[0]) + [Break], 1)
  {
  }

  /** `Break` is only ever emitted as the last glyph of a step. */
  lemma {:induction false} BreakOnlyLast(input: seq<Sound>, breakers: set<Sound>, k: nat)
    requires k < |Step(input, breakers).glyphs| - 1
    ensures Step(input, breakers).glyphs[k] != Break
  {
    var e := Step(input, breakers);
    var n := SoftenedRun(input);
    if |input| >= 2 && n > 0 && k < n {
      assert CanBeSoftened(BaseLetters(input[..n])[k]);
    }
  }
}
