/**
 * The Greek parser, which reads the renderer's output back: a glyph sequence becomes a sound
 * sequence.  At each position it skips a `Break`, or reads a softenable
 * consonant run closed by a softening glyph, or a two-glyph digraph, or one
 * glyph through the naive table.
 */
module GreekParse {
  import opened Sounds
  import opened Glyphs
  import opened Wrappers
  import opened Seqs

  /** What one step read and how many glyphs it consumed. */
  datatype Decoded = Decoded(sounds: seq<Sound>, consumed: nat)

  /** The context-free reading of one glyph; `Break` reads as nothing. */
  function NaiveGreekToSound(g: Greek): seq<Sound> {
    match g
    case Alpha => [A]
    case Beta => [W]
    case Gamma => [G]
    case Delta => [D]
    case Epsilon => [E]
    case Zeta => [Z]
    case Eta => [Ex]
    case Theta => [Ch]
    case Iota => [Y]
    case Kappa => [K]
    case Lambda => [Lx]
    case Mu => [M]
    case Nu => [N]
    case Xi => [Zh]
    case Omicron => [O]
    case Pi => [P]
    case Rho => [R]
    case Sigma => [S]
    case Tau => [T]
    case Upsilon => [U]
    case Phi => [F]
    case Chi => [H]
    case Psi => [Sh]
    case Omega => [Ox]
    case AlphaAcute => [J, A]
    case EpsilonAcute => [J, E]
    case IotaAcute => [I]
    case OmicronAcute => [J, O]
    case UpsilonAcute => [J, U]
    case OmegaAcute => [J, Ox]
    case Acute => [J]
    case Break => []
    case EtaAcute => [J, Ex]
  }

  /** The palatalised sound of a softenable consonant. */
  function SoftenedReading(g: Greek): Sound
    requires CanBeSoftened(g)
  {
    match g
    case Rho => Rx
    case Nu => Nx
    case Zeta => Zx
    case Sigma => Sx
    case Delta => Dx
    case Tau => Tx
    case Lambda => L
  }

  /** The plain vowel under an accented glyph; accented iota after rho reads as `Y`. */
  function AccentedVowelSound(g: Greek, afterRho: bool): Sound
    requires IsSoftening(g) && g != Acute
  {
    match g
    case AlphaAcute => A
    case EpsilonAcute => E
    case EtaAcute => Ex
    case IotaAcute => if afterRho then Y else I
    case OmicronAcute => O
    case UpsilonAcute => U
    case OmegaAcute => Ox
  }

  /** The two-glyph digraphs: ts, dz, dx, mp, ou and accented ou. */
  function Digraph(g0: Greek, g1: Greek): Option<seq<Sound>> {
    if g0 == Tau && g1 == Sigma then Some([C])
    else if g0 == Delta && g1 == Zeta then Some([Dz])
    else if g0 == Delta && g1 == Xi then Some([Dh])
    else if g0 == Mu && g1 == Pi then Some([B])
    else if g0 == Omicron && g1 == Upsilon then Some([Ou])
    else if g0 == OmicronAcute && g1 == Upsilon then Some([J, Ou])
    else None
  }

  /** Every glyph but `Break` reads as one or two sounds. */
  lemma {:induction false} NaiveReadingShape(g: Greek)
    ensures |NaiveGreekToSound(g)| <= 2
    ensures NaiveGreekToSound(g) == [] <==> g == Break
  {
  }

  /** A run glyph reads as a palatalised consonant, never as the vowel `I`. */
  lemma {:induction false} SoftenedReadingIsSoftened(g: Greek)
    requires CanBeSoftened(g)
    ensures IsSoftened(SoftenedReading(g)) && SoftenedReading(g) != I
  {
  }

  /** An accented vowel reads as a vowel, and as `Y` exactly when it is accented iota after rho. */
  lemma {:induction false} AccentedVowelReading(g: Greek, afterRho: bool)
    requires IsSoftening(g) && g != Acute
    ensures IsVowel(AccentedVowelSound(g, afterRho))
    ensures AccentedVowelSound(g, afterRho) == Y <==> g == IotaAcute && afterRho
  {
  }

  /**
   * The scan for a softenable run starting at `at`, step by step as the
   * source loop does it: `count` glyphs accepted so far, `wasRho` whether a
   * rho has been seen.
   */
  function RunScan(input: seq<Greek>, at: nat, count: nat, wasRho: bool): (n: nat)
    requires at + count <= |input|
    ensures at + n <= |input|
    decreases |input| - at - count
  {
    if at + count == |input| then count
    else
      var g := input[at + count];
      if !CanBeSoftened(g) then count
      else if g != Rho && wasRho then 0
      else
        var rho := wasRho || g == Rho;
        if count > 0 && rho then count else RunScan(input, at, count + 1, rho)
  }

  /** What the scan keeps true: the accepted glyphs are softenable and rho can only be the single first one. */
  lemma {:induction false} RunScanShape(input: seq<Greek>, at: nat, count: nat, wasRho: bool)
    requires at + count <= |input|
    requires forall k :: at <= k < at + count ==> CanBeSoftened(input[k])
    requires wasRho <==> count > 0 && input[at] == Rho
    requires count > 1 ==> forall k :: at <= k < at + count ==> input[k] != Rho
    ensures var n := RunScan(input, at, count, wasRho);
      && (n == 0 || count <= n)
      && (forall k :: at <= k < at + n ==> CanBeSoftened(input[k]))
      && ((forall k :: at <= k < at + n ==> input[k] != Rho) || (n == 1 && input[at] == Rho))
      && (n > 0 && at + n < |input| ==> !CanBeSoftened(input[at + n]) || input[at + n] == Rho)
      && (n == 0 && at + count < |input| && CanBeSoftened(input[at + count]) ==>
            input[at] == Rho && at + 1 < |input| && CanBeSoftened(input[at + 1]) && input[at + 1] != Rho)
    decreases |input| - at - count
  {
    if at + count == |input| || !CanBeSoftened(input[at + count]) {
    } else if input[at + count] != Rho && wasRho {
    } else {
      var rho := wasRho || input[at + count] == Rho;
      if count > 0 && rho {
      } else {
        RunScanShape(input, at, count + 1, rho);
      }
    }
  }

  /** The length of the softenable run starting at `at`, as the source scans it. */
  function SoftenableRun(input: seq<Greek>, at: nat): (n: nat)
    requires at <= |input|
    ensures at + n <= |input|
  {
    RunScan(input, at, 0, false)
  }

  /**
   * The softenable run is either free of rho or exactly one rho, and it is as
   * long as that allows.
   */
  lemma {:induction false} SoftenableRunShape(input: seq<Greek>, at: nat)
    requires at <= |input|
    ensures var n := SoftenableRun(input, at);
      && (forall k :: at <= k < at + n ==> CanBeSoftened(input[k]))
      && ((forall k :: at <= k < at + n ==> input[k] != Rho) || (n == 1 && input[at] == Rho))
      && (n > 0 && at + n < |input| ==> !CanBeSoftened(input[at + n]) || input[at + n] == Rho)
      && (n == 0 && at < |input| && CanBeSoftened(input[at]) ==>
            input[at] == Rho && at + 1 < |input| && CanBeSoftened(input[at + 1]) && input[at + 1] != Rho)
  {
    RunScanShape(input, at, 0, false);
  }

  /**
   * The palatalised sounds of the `n` glyphs from `at`; the source panics on a
   * glyph that cannot be softened, which `SoftenableRunShape` rules out for a
   * run, and the model reads such a glyph as `I`, which no run glyph yields.
   */
  function SoftenedRunSounds(input: seq<Greek>, at: nat, n: nat): (r: seq<Sound>)
    requires at + n <= |input|
    ensures |r| == n
  {
    seq(n, k requires 0 <= k < n => if CanBeSoftened(input[at + k]) then SoftenedReading(input[at + k]) else I)
  }

  /** Whether a softenable run closed by a softening glyph starts at `at`. */
  predicate RunApplies(input: seq<Greek>, at: nat)
    requires at <= |input|
  {
    var n := SoftenableRun(input, at);
    n > 0 && at + n < |input| && IsSoftening(input[at + n])
  }

  /**
   * The reading of a softenable run and the softening glyph that closes it:
   * the run's palatalised sounds, then nothing for a bare acute, or the
   * accented vowel (with `ου` read as one `Ou`).
   */
  function DecodeRun(input: seq<Greek>, at: nat): (d: Decoded)
    requires at <= |input| && RunApplies(input, at)
    ensures SoftenableRun(input, at) < d.consumed <= |input| - at
  {
    var n := SoftenableRun(input, at);
    var run := SoftenedRunSounds(input, at, n);
    var v := input[at + n];
    if v == Acute then Decoded(run, n + 1)
    else
      var c := AccentedVowelSound(v, input[at] == Rho);
      if c == O && at + n + 1 < |input| && input[at + n + 1] == Upsilon then Decoded(run + [Ou], n + 2)
      else Decoded(run + [c], n + 1)
  }

  /** A digraph, or else one glyph through the naive table. */
  function DecodePlain(input: seq<Greek>, at: nat): (d: Decoded)
    requires at < |input|
    ensures 1 <= d.consumed <= |input| - at
  {
    if at + 1 < |input| && Digraph(input[at], input[at + 1]).Some? then Decoded(Digraph(input[at], input[at + 1]).value, 2)
    else Decoded(NaiveGreekToSound(input[at]), 1)
  }

  /** One step of the parser at position `at`. */
  function DecodeStep(input: seq<Greek>, at: nat): (d: Decoded)
    requires at < |input|
    ensures 1 <= d.consumed <= |input| - at
  {
    if input[at] == Break then Decoded([], 1)
    else if RunApplies(input, at) then DecodeRun(input, at)
    else DecodePlain(input, at)
  }

  /** The parse from position `at`: the steps' readings, in order, until the input is used up. */
  function DecodeFrom(input: seq<Greek>, at: nat): seq<Sound>
    requires at <= |input|
    decreases |input| - at
  {
    if at == |input| then []
    else
      var d := DecodeStep(input, at);
      d.sounds + DecodeFrom(input, at + d.consumed)
  }

  /** The whole parse. */
  function Decode(input: seq<Greek>): seq<Sound> {
    DecodeFrom(input, 0)
  }

  /**
   * The inner loop of `greek_vec_to_sound` that measures the softenable run
   * at `at`: softenable glyphs are counted, a rho is accepted only as the
   * first and only one, and a rho followed by another softenable glyph
   * cancels the run.
   */
  method ScanRun(input: seq<Greek>, at: nat) returns (softenedCount: nat)
    requires at < |input|
    ensures softenedCount == SoftenableRun(input, at)
  {
    softenedCount := 0;
    var wasRho := false;
    while at + softenedCount < |input|
      invariant at + softenedCount <= |input|
      invariant RunScan(input, at, softenedCount, wasRho) == SoftenableRun(input, at)
      decreases |input| - at - softenedCount
    {
      var isc := input[at + softenedCount];
      if !CanBeSoftened(isc) {
        break;
      }
      if isc != Rho && wasRho {
        softenedCount := 0;
        break;
      }
      if isc == Rho {
        wasRho := true;
      }
      if softenedCount > 0 && wasRho {
        break;
      }
      softenedCount := softenedCount + 1;
    }
  }

  /**
   * The run branch of a round: push the palatalised sound of each of the
   * `n` run glyphs, then nothing for a bare acute, or the accented vowel
   * (`ου` after the run read as one `Ou`).
   */
  method ReadRun(input: seq<Greek>, at: nat, n: nat) returns (sounds: seq<Sound>, step: nat)
    requires at < |input| && n == SoftenableRun(input, at) && RunApplies(input, at)
    ensures Decoded(sounds, step) == DecodeRun(input, at)
  {
    SoftenableRunShape(input, at);
    sounds, step := [], 0;
    for j := 0 to n
      invariant step == j
      invariant sounds == SoftenedRunSounds(input, at, j)
    {
      assert SoftenedRunSounds(input, at, j + 1) == SoftenedRunSounds(input, at, j) + [SoftenedReading(input[at + j])];
      sounds := sounds + [SoftenedReading(input[at + j])];
      step := step + 1;
    }
    var v := input[at + n];
    if v == Acute {
      step := step + 1;
    } else {
      var c := AccentedVowelSound(v, input[at] == Rho);
      if c == O && at + n + 1 < |input| && input[at + n + 1] == Upsilon {
        sounds := sounds + [Ou];
        step := step + 2;
      } else {
        sounds := sounds + [c];
        step := step + 1;
      }
    }
  }

  /** The digraph branch of a round, and the naive reading of one glyph when no digraph starts at `at`. */
  method ReadPlain(input: seq<Greek>, at: nat) returns (sounds: seq<Sound>, step: nat)
    requires at < |input|
    ensures Decoded(sounds, step) == DecodePlain(input, at)
  {
    var c0 := input[at];
    if at + 1 < |input| && c0 == Tau && input[at + 1] == Sigma {
      sounds, step := [C], 2;
    } else if at + 1 < |input| && c0 == Delta && input[at + 1] == Zeta {
      sounds, step := [Dz], 2;
    } else if at + 1 < |input| && c0 == Delta && input[at + 1] == Xi {
      sounds, step := [Dh], 2;
    } else if at + 1 < |input| && c0 == Mu && input[at + 1] == Pi {
      sounds, step := [B], 2;
    } else if at + 1 < |input| && c0 == Omicron && input[at + 1] == Upsilon {
      sounds, step := [Ou], 2;
    } else if at + 1 < |input| && c0 == OmicronAcute && input[at + 1] == Upsilon {
      sounds, step := [J, Ou], 2;
    } else {
      sounds, step := NaiveGreekToSound(c0), 1;
    }
  }

  /**
   * One round of `greek_vec_to_sound` at position `at`: skip a break; else
   * scan for a softenable run and read it when a softening glyph closes it;
   * else read a digraph or one glyph.  `sounds` is what the round pushes and
   * `step` how far it moves the cursor.
   */
  method ReadStep(input: seq<Greek>, at: nat) returns (sounds: seq<Sound>, step: nat)
    requires at < |input|
    ensures Decoded(sounds, step) == DecodeStep(input, at)
  {
    if input[at] == Break {
      sounds, step := [], 1;
    } else {
      var softenedCount := ScanRun(input, at);
      if softenedCount > 0 && at + softenedCount < |input| && IsSoftening(input[at + softenedCount]) {
        sounds, step := ReadRun(input, at, softenedCount);
      } else {
        sounds, step := ReadPlain(input, at);
      }
    }
  }

  /** The parse from `at` is the reading of the step there, then the parse after it. */
  lemma {:induction false} DecodeFromStep(g: seq<Greek>, at: nat, sounds: seq<Sound>, n: nat)
    requires at < |g| && DecodeStep(g, at) == Decoded(sounds, n)
    ensures at + n <= |g|
    ensures DecodeFrom(g, at) == sounds + DecodeFrom(g, at + n)
  {
    assert DecodeStep(g, at).sounds == sounds && DecodeStep(g, at).consumed == n;
  }

  /** One round of `greek_vec_to_sound`: what it reads, followed by the parse after it, is the parse from `at`. */
  method ReadRound(input: seq<Greek>, at: nat) returns (sounds: seq<Sound>, step: nat)
    requires at < |input|
    ensures 0 < step && at + step <= |input|
    ensures DecodeFrom(input, at) == sounds + DecodeFrom(input, at + step)
  {
    sounds, step := ReadStep(input, at);
    DecodeFromStep(input, at, sounds, step);
  }

  /**
   * `greek_vec_to_sound`: the scanning loop of the source, one `ReadStep`
   * per round.  It always consumes the whole input, so the caller's "not all
   * parsed" check never fails.
   */
  method GreekVecToSound(input: seq<Greek>) returns (result: seq<Sound>, consumed: nat)
    ensures consumed == |input|
    ensures result == Decode(input)
  {
    result := [];
    var i := 0;
    while i < |input|
      invariant i <= |input|
      invariant result + DecodeFrom(input, i) == Decode(input)
      decreases |input| - i
    {
      var sounds, step := ReadRound(input, i);
      Advance(Decode(input), result, sounds, DecodeFrom(input, i), DecodeFrom(input, i + step));
      result, i := result + sounds, i + step;
    }
    DecodeDone(input, result, i);
    consumed := i;
  }

  /** When the cursor reaches the end of the input, the sounds so far are the whole parse. */
  lemma {:induction false} DecodeDone(input: seq<Greek>, result: seq<Sound>, i: nat)
    requires i == |input| && result + DecodeFrom(input, i) == Decode(input)
    ensures result == Decode(input)
  {
    assert DecodeFrom(input, i) == [];
    assert result + [] == result;
  }

  /** A `Break` contributes no sound: the parse simply moves past it. */
  lemma {:induction false} BreakReadsNothing(input: seq<Greek>, at: nat)
    requires at < |input| && input[at] == Break
    ensures DecodeFrom(input, at) == DecodeFrom(input, at + 1)
  {
  }

  /**
   * What a step reads from a softenable run closed by a softening glyph
   * starts with one palatalised consonant per run glyph, never `I`; the run
   * is rho-free or exactly one rho.
   */
  lemma {:induction false} RunReading(input: seq<Greek>, at: nat)
    requires at < |input| && input[at] != Break && RunApplies(input, at)
    ensures var n := SoftenableRun(input, at);
      var d := DecodeStep(input, at);
      && n <= |d.sounds|
      && ((forall k :: at <= k < at + n ==> input[k] != Rho) || (n == 1 && input[at] == Rho))
      && (forall k :: 0 <= k < n ==>
            CanBeSoftened(input[at + k]) && d.sounds[k] == SoftenedReading(input[at + k])
            && IsSoftened(d.sounds[k]) && d.sounds[k] != I)
  {
    SoftenableRunShape(input, at);
    var n := SoftenableRun(input, at);
    var d := DecodeStep(input, at);
    var run := SoftenedRunSounds(input, at, n);
    assert d == DecodeRun(input, at);
    assert d.sounds[..n] == run;
    forall k | 0 <= k < n
      ensures d.sounds[k] == SoftenedReading(input[at + k])
      ensures IsSoftened(d.sounds[k]) && d.sounds[k] != I
    {
      assert d.sounds[k] == run[k];
      SoftenedReadingIsSoftened(input[at + k]);
    }
  }

  /**
   * After the run's consonants a step reads nothing for a bare acute, or one
   * vowel, which is `Y` exactly when accented iota follows a run that starts
   * with rho.
   */
  lemma {:induction false} RunClosingVowel(input: seq<Greek>, at: nat)
    requires at < |input| && input[at] != Break && RunApplies(input, at)
    ensures var n := SoftenableRun(input, at);
      var d := DecodeStep(input, at);
      && (input[at + n] == Acute ==> |d.sounds| == n && d.consumed == n + 1)
      && (input[at + n] != Acute ==>
            |d.sounds| == n + 1 && IsVowel(d.sounds[n])
            && (d.sounds[n] == Y <==> input[at + n] == IotaAcute && input[at] == Rho))
  {
    var n := SoftenableRun(input, at);
    assert DecodeStep(input, at) == DecodeRun(input, at);
    if input[at + n] != Acute {
      AccentedVowelReading(input[at + n], input[at] == Rho);
    }
  }

  /** The parse of the source's test word: `μόυδ` reads as m, j, ó, d. */
  lemma {:induction false} DecodeMiod()
    ensures Decode([Mu, OmicronAcute, Upsilon, Delta]) == [M, J, Ou, D]
  {
    var w := [Mu, OmicronAcute, Upsilon, Delta];
    assert SoftenableRun(w, 0) == 0;
    assert DecodeStep(w, 0) == Decoded([M], 1);
    assert SoftenableRun(w, 1) == 0;
    assert DecodeStep(w, 1) == Decoded([J, Ou], 2);
    assert SoftenableRun(w, 3) == 1;
    assert DecodeStep(w, 3) == Decoded([D], 1);
  }

  /** The end of κέδι: δ before ι is no run, as ι does not soften, so it reads d, then y. */
  lemma {:induction false} DecodeDi(w: seq<Greek>)
    requires |w| == 4 && w[2] == Delta && w[3] == Iota
    ensures DecodeFrom(w, 2) == [D, Y]
  {
    assert RunScan(w, 2, 1, false) == 1;
    assert DecodeStep(w, 2) == Decoded([D], 1);
    assert SoftenableRun(w, 3) == 0;
    assert DecodeStep(w, 3) == Decoded([Y], 1);
    assert DecodeFrom(w, 4) == [];
  }

  /** The parse of κέδι: κ, then έ as j and e, then d and y. */
  lemma {:induction false} DecodeKedy(w: seq<Greek>)
    requires |w| == 4 && w[0] == Kappa && w[1] == EpsilonAcute && w[2] == Delta && w[3] == Iota
    ensures var r := Decode(w);
      |r| == 5 && r[0] == K && r[1] == J && r[2] == E && r[3] == D && r[4] == Y
  {
    DecodeEdi(w);
    assert SoftenableRun(w, 0) == 0;
    assert DecodeStep(w, 0) == Decoded([K], 1);
    assert DecodeFrom(w, 0) == [K, J, E, D, Y];
  }

  /** From the accented epsilon on, κέδι reads as j, e, d, y. */
  lemma {:induction false} DecodeEdi(w: seq<Greek>)
    requires |w| == 4 && w[0] == Kappa && w[1] == EpsilonAcute && w[2] == Delta && w[3] == Iota
    ensures DecodeFrom(w, 1) == [J, E, D, Y]
  {
    DecodeDi(w);
    assert SoftenableRun(w, 1) == 0;
    var d := DecodeStep(w, 1);
    assert d.sounds == [J, E] && d.consumed == 1;
  }
}
