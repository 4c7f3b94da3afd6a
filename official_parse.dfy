/**
 * Reading Polish spelling as sounds.  Every rule looks at the text from a
 * position `at` onwards (the source hands each rule the slice starting
 * there, so "the rest of the input is n characters long" is `|s| - at == n`)
 * and either recognises a few characters or consumes nothing.  The rules are
 * tried in a fixed order, so the longest spelling wins: dzi+vowel, dż,
 * ci/si/zi/ni(+vowel), i+vowel, two-letter digraphs, then single letters.
 */
module OfficialParse {
  import opened Wrappers
  import opened Sounds
  import opened Casing
  import opened Parts
  import opened Seqs

  /** What a rule read: the sounds it produced and how many characters it used. */
  datatype ConsumeResult = ConsumeResult(result: seq<Sound>, consumed: nat)

  const Nothing := ConsumeResult([], 0)

  /** `single_naive`: the sound of one lowercase Polish letter. */
  function SingleNaive(c: char): Option<Sound> {
    match c
    case 'a' => Some(A)
    case 'ą' => Some(Ox)
    case 'b' => Some(B)
    case 'c' => Some(C)
    case 'ć' => Some(Tx)
    case 'd' => Some(D)
    case 'e' => Some(E)
    case 'ę' => Some(Ex)
    case 'f' => Some(F)
    case 'g' => Some(G)
    case 'h' => Some(H)
    case 'i' => Some(I)
    case 'j' => Some(J)
    case 'k' => Some(K)
    case 'l' => Some(L)
    case 'ł' => Some(Lx)
    case 'm' => Some(M)
    case 'n' => Some(N)
    case 'ń' => Some(Nx)
    case 'o' => Some(O)
    case 'ó' => Some(Ou)
    case 'p' => Some(P)
    case 'r' => Some(R)
    case 's' => Some(S)
    case 'ś' => Some(Sx)
    case 't' => Some(T)
    case 'u' => Some(U)
    case 'w' => Some(W)
    case 'y' => Some(Y)
    case 'z' => Some(Z)
    case 'ż' => Some(Zh)
    case 'ź' => Some(Zx)
    case _ => None
  }

  /** The vowel letters that an `i` before them only softens: a, ą, e, ę, o, ó, u. */
  function VowelAfterI(c: char): Option<Sound> {
    match c
    case 'a' => Some(A)
    case 'ą' => Some(Ox)
    case 'e' => Some(E)
    case 'ę' => Some(Ex)
    case 'o' => Some(O)
    case 'ó' => Some(Ou)
    case 'u' => Some(U)
    case _ => None
  }

  /** The letters that an `i` after them softens: c, s, z, n. */
  function SoftInitial(c: char): Option<Sound> {
    match c
    case 'c' => Some(Tx)
    case 's' => Some(Sx)
    case 'z' => Some(Zx)
    case 'n' => Some(Nx)
    case _ => None
  }

  /** `try_dzx`: "dzi" before a vowel is dź plus that vowel; "dzi" otherwise is dź plus i. */
  function TryDzx(s: string, at: nat): ConsumeResult
    requires at <= |s|
  {
    if |s| - at < 3 || s[at] != 'd' then Nothing
    else if s[at + 1] != 'z' then Nothing
    else if |s| - at == 3 && s[at + 2] == 'i' then ConsumeResult([Dx, I], 3)
    else if |s| - at > 3 then
      if s[at + 2] != 'i' then Nothing
      else match VowelAfterI(s[at + 3])
        case Some(v) => ConsumeResult([Dx, v], 4)
        case None => ConsumeResult([Dx, I], 3)
    else Nothing
  }

  /** `try_ci_si_zi`: c, s, z or n then `i` is the soft consonant, plus the vowel after the `i` if there is one. */
  function TryCiSiZi(s: string, at: nat): ConsumeResult
    requires at <= |s|
  {
    if |s| - at < 2 then Nothing
    else match SoftInitial(s[at])
      case None => Nothing
      case Some(init) =>
        if |s| - at == 2 then
          if s[at + 1] == 'i' then ConsumeResult([init, I], 2) else Nothing
        else if s[at + 1] == 'i' then
          match VowelAfterI(s[at + 2])
          case Some(v) => ConsumeResult([init, v], 3)
          case None => ConsumeResult([init, I], 2)
        else Nothing
  }

  /** `try_i_samogl`: `i` before a vowel is the glide j plus that vowel. */
  function TryISamogl(s: string, at: nat): ConsumeResult
    requires at <= |s|
  {
    if |s| - at < 2 || s[at] != 'i' then Nothing
    else match VowelAfterI(s[at + 1])
      case Some(v) => ConsumeResult([J, v], 2)
      case None => Nothing
  }

  /** `try_dwuznak`: the two-letter spellings cz, sz, dz, dź, rz, lx, ch; each uses two characters. */
  function TryDwuznak(s: string, at: nat): Option<Sound>
    requires at <= |s|
  {
    if |s| - at < 2 then None
    else match (s[at], s[at + 1])
      case ('c', 'z') => Some(Ch)
      case ('s', 'z') => Some(Sh)
      case ('d', 'z') => Some(Dz)
      case ('d', 'ź') => Some(Dx)
      case ('r', 'z') => Some(Rx)
      case ('l', 'x') => Some(Lx)
      case ('c', 'h') => Some(H)
      case _ => None
  }

  /** One round of `parse_word`'s loop: the first rule in priority order that recognises something. */
  function ParseStep(s: string, at: nat): (r: ConsumeResult)
    requires at < |s|
    ensures r.consumed <= |s| - at
  {
    var dzx := TryDzx(s, at);
    if dzx.consumed > 0 then dzx
    else if |s| - at >= 2 && s[at] == 'd' && s[at + 1] == 'ż' then ConsumeResult([Dh], 2)
    else
      var cisizi := TryCiSiZi(s, at);
      if cisizi.consumed > 0 then cisizi
      else
        var ivowel := TryISamogl(s, at);
        if ivowel.consumed > 0 then ivowel
        else match TryDwuznak(s, at)
          case Some(d) => ConsumeResult([d], 2)
          case None =>
            match SingleNaive(s[at])
            case Some(x) => ConsumeResult([x], 1)
            case None => Nothing
  }

  /** `parse_word` on the text from `at`: apply rounds until the text ends or no rule applies. */
  function ParseWordFrom(s: string, at: nat): (r: ConsumeResult)
    requires at <= |s|
    ensures r.consumed <= |s| - at
    decreases |s| - at
  {
    if at == |s| then Nothing
    else
      var step := ParseStep(s, at);
      if step.consumed == 0 then Nothing
      else
        var rest := ParseWordFrom(s, at + step.consumed);
        ConsumeResult(step.result + rest.result, step.consumed + rest.consumed)
  }

  /**
   * One round of `parse_word`, as the source writes it: the rules in order,
   * the first that recognises something wins.
   */
  method ParseWordStep(s: string, at: nat) returns (sounds: seq<Sound>, consumed: nat)
    requires at < |s|
    ensures ConsumeResult(sounds, consumed) == ParseStep(s, at)
  {
    var cr := TryDzx(s, at);
    if cr.consumed > 0 {
      return cr.result, cr.consumed;
    }
    if |s| - at >= 2 && s[at] == 'd' && s[at + 1] == 'ż' {
      return [Dh], 2;
    }
    cr := TryCiSiZi(s, at);
    if cr.consumed > 0 {
      return cr.result, cr.consumed;
    }
    cr := TryISamogl(s, at);
    if cr.consumed > 0 {
      return cr.result, cr.consumed;
    }
    var dwuznak := TryDwuznak(s, at);
    if dwuznak.Some? {
      return [dwuznak.value], 2;
    }
    var single := SingleNaive(s[at]);
    if single.Some? {
      return [single.value], 1;
    }
    return [], 0;
  }

  /**
   * One round of `parse_word`: nothing recognised ends the word; otherwise
   * what the round reads, followed by the word after it, is the word from `at`.
   */
  method WordRound(s: string, at: nat) returns (sounds: seq<Sound>, step: nat)
    requires at < |s|
    ensures at + step <= |s|
    ensures step == 0 ==> ParseWordFrom(s, at) == Nothing
    ensures step > 0 ==>
      && ParseWordFrom(s, at).result == sounds + ParseWordFrom(s, at + step).result
      && ParseWordFrom(s, at).consumed == step + ParseWordFrom(s, at + step).consumed
  {
    sounds, step := ParseWordStep(s, at);
    assert ParseStep(s, at).result == sounds && ParseStep(s, at).consumed == step;
  }

  /**
   * `parse_word`, on the slice of `s` that starts at `start`: read rounds
   * until the slice ends or nothing is recognised.
   */
  method ParseWord(s: string, start: nat) returns (result: seq<Sound>, consumed: nat)
    requires start <= |s|
    ensures ConsumeResult(result, consumed) == ParseWordFrom(s, start)
  {
    var at := start;
    result := [];
    while at < |s|
      invariant start <= at <= |s|
      invariant result + ParseWordFrom(s, at).result == ParseWordFrom(s, start).result
      invariant (at - start) + ParseWordFrom(s, at).consumed == ParseWordFrom(s, start).consumed
      decreases |s| - at
    {
      var sounds, step := WordRound(s, at);
      if step == 0 {
        break;
      }
      Advance(ParseWordFrom(s, start).result, result, sounds,
        ParseWordFrom(s, at).result, ParseWordFrom(s, at + step).result);
      result, at := result + sounds, at + step;
    }
    assert ParseWordFrom(s, at) == Nothing && result + [] == result;
    consumed := at - start;
  }

  /** The length of the run of unrecognised characters starting at `at`. */
  function UnknownRun(low: string, at: nat): (n: nat)
    requires at <= |low|
    ensures at + n <= |low|
    decreases |low| - at
  {
    if at == |low| || SingleNaive(low[at]).Some? then 0 else 1 + UnknownRun(low, at + 1)
  }

  /** `UnknownRun` covers exactly the unrecognised characters. */
  lemma {:induction false} UnknownRunShape(low: string, at: nat)
    requires at <= |low|
    ensures var n := UnknownRun(low, at);
      && (forall k :: at <= k < at + n ==> SingleNaive(low[k]).None?)
      && (at + n == |low| || SingleNaive(low[at + n]).Some?)
    decreases |low| - at
  {
    if at < |low| && SingleNaive(low[at]).None? {
      UnknownRunShape(low, at + 1);
    }
  }

  /**
   * How many characters the part starting at `at` covers: the run of
   * unrecognised characters there, or else the word `parse_word` reads.
   */
  function HeadLen(low: string, at: nat): (n: nat)
    requires at < |low|
    ensures at + n <= |low|
  {
    var n := UnknownRun(low, at);
    if n > 0 then n else ParseWordFrom(low, at).consumed
  }

  /**
   * The part starting at `at` of the lowercased text `low`: an unrecognised
   * run, or the word read there with the capitalisation mode detected on the
   * same characters of the original text `orig`.
   */
  function HeadPart(orig: string, low: string, at: nat): Part<Sound>
    requires |orig| == |low| && at < |low|
  {
    var n := UnknownRun(low, at);
    if n > 0 then Arbitrary(low[at..at + n])
    else
      var w := ParseWordFrom(low, at);
      Word(w.result, Detect(orig[at..at + w.consumed]))
  }

  /**
   * `parse` on the lowercased text `low` from `at`.  When a part covers no
   * characters the source reports a failure and stops; `HeadLenPositive`
   * shows that this never happens.
   */
  function ParseFrom(orig: string, low: string, at: nat): seq<Part<Sound>>
    requires |orig| == |low| && at <= |low|
    decreases |low| - at
  {
    if at == |low| then []
    else
      var n := HeadLen(low, at);
      if n == 0 then [] else [HeadPart(orig, low, at)] + ParseFrom(orig, low, at + n)
  }

  /** `parse`, as a function of the input text. */
  function Parse(input: string): seq<Part<Sound>> {
    ParseFrom(input, Lowered(input), 0)
  }

  /**
   * One round of `parse`'s loop at position `i`: the unrecognised run there,
   * or else the word `parse_word` reads; `n == 0` is the source's failure exit.
   */
  method TakePart(casePreserving: string, charsi: string, i: nat) returns (part: Part<Sound>, n: nat)
    requires |casePreserving| == |charsi| && i < |charsi|
    ensures n == HeadLen(charsi, i)
    ensures n > 0 ==> part == HeadPart(casePreserving, charsi, i)
  {
    var j := 0;
    while i + j < |charsi| && SingleNaive(charsi[i + j]) == None
      invariant i + j <= |charsi|
      invariant UnknownRun(charsi, i + j) + j == UnknownRun(charsi, i)
    {
      j := j + 1;
    }
    if j > 0 {
      return Arbitrary(charsi[i..i + j]), j;
    }
    var result, consumed := ParseWord(charsi, i);
    part := Word(result, Detect(casePreserving[i..i + consumed]));
    n := consumed;
  }

  /**
   * One round of `parse`'s loop with its bookkeeping: the parts so far plus
   * the parts from the new position are still the whole result.  A round
   * that takes nothing is the source's failure exit, where nothing is left.
   */
  method ParseRound(casePreserving: string, charsi: string, i: nat, ghost whole: seq<Part<Sound>>,
                    parts: seq<Part<Sound>>) returns (parts': seq<Part<Sound>>, i': nat)
    requires |casePreserving| == |charsi| && i < |charsi|
    requires parts + ParseFrom(casePreserving, charsi, i) == whole
    ensures i <= i' <= |charsi|
    ensures parts' + ParseFrom(casePreserving, charsi, i') == whole
    ensures i' == i ==> parts' == whole
  {
    var part, n := TakePart(casePreserving, charsi, i);
    if n == 0 {
      assert ParseFrom(casePreserving, charsi, i) == [];
      return parts, i;
    }
    Advance(whole, parts, [part], ParseFrom(casePreserving, charsi, i), ParseFrom(casePreserving, charsi, i + n));
    parts', i' := parts + [part], i + n;
  }

  /** `parse`: lowercase the text, then take parts one after another until it is used up. */
  method ParseText(input: string) returns (parts: seq<Part<Sound>>)
    ensures parts == Parse(input)
  {
    var casePreserving := input;
    var charsi := Lowered(input);
    parts := [];
    var i := 0;
    while i < |charsi|
      invariant i <= |charsi|
      invariant parts + ParseFrom(casePreserving, charsi, i) == Parse(input)
      decreases |charsi| - i
    {
      var next;
      parts, next := ParseRound(casePreserving, charsi, i, Parse(input), parts);
      if next == i {
        return;
      }
      i := next;
    }
  }
}

/** Properties of the Polish reader. */
module OfficialParseFacts {
  import opened Wrappers
  import opened Sounds
  import opened Casing
  import opened Parts
  import opened OfficialParse

  /** The 32 lowercase letters of the Polish alphabet. */
  const PolishLetters: set<char> := {'a', 'ą', 'b', 'c', 'ć', 'd', 'e', 'ę', 'f', 'g', 'h', 'i', 'j', 'k', 'l', 'ł', 'm', 'n', 'ń', 'o', 'ó', 'p', 'r', 's', 'ś', 't', 'u', 'w', 'y', 'z', 'ż', 'ź'}

  /** `single_naive` recognises exactly the Polish letters. */
  lemma {:induction false} SingleNaiveRecognises(c: char)
    ensures SingleNaive(c).Some? <==> c in PolishLetters
  {
  }

  /** No two letters share a sound. */
  lemma {:induction false} SingleNaiveInjective(c: char, d: char)
    requires SingleNaive(c).Some? && SingleNaive(c) == SingleNaive(d)
    ensures c == d
  {
  }

  /** `try_dzx` fires exactly on "dzi"; it takes the vowel after it too when there is one. */
  lemma {:induction false} TryDzxCases(s: string, at: nat)
    requires at <= |s|
    ensures var r := TryDzx(s, at);
      && (r.consumed > 0 <==> at + 3 <= |s| && s[at..at + 3] == "dzi")
      && (r.consumed == 4 <==> at + 4 <= |s| && s[at..at + 3] == "dzi" && VowelAfterI(s[at + 3]).Some?)
      && (r.consumed == 4 ==> r.result == [Dx, VowelAfterI(s[at + 3]).value])
      && (r.consumed == 3 ==> r.result == [Dx, I])
      && (r.consumed == 0 ==> r.result == [])
  {
    if at + 3 <= |s| {
      assert s[at..at + 3] == [s[at], s[at + 1], s[at + 2]];
    }
  }

  /** `try_ci_si_zi` fires exactly on c, s, z or n followed by `i`; it takes the vowel after it too when there is one. */
  lemma {:induction false} TryCiSiZiCases(s: string, at: nat)
    requires at <= |s|
    ensures var r := TryCiSiZi(s, at);
      && (r.consumed > 0 <==> at + 2 <= |s| && SoftInitial(s[at]).Some? && s[at + 1] == 'i')
      && (r.consumed == 3 <==>
            at + 3 <= |s| && SoftInitial(s[at]).Some? && s[at + 1] == 'i' && VowelAfterI(s[at + 2]).Some?)
      && (r.consumed == 3 ==> r.result == [SoftInitial(s[at]).value, VowelAfterI(s[at + 2]).value])
      && (r.consumed == 2 ==> r.result == [SoftInitial(s[at]).value, I])
      && (r.consumed == 0 ==> r.result == [])
  {
  }

  /** `try_i_samogl` fires exactly on `i` before a vowel, and reads it as j plus the vowel. */
  lemma {:induction false} TryISamoglCases(s: string, at: nat)
    requires at <= |s|
    ensures var r := TryISamogl(s, at);
      && (r.consumed > 0 <==> at + 2 <= |s| && s[at] == 'i' && VowelAfterI(s[at + 1]).Some?)
      && (r.consumed > 0 ==> r.consumed == 2 && r.result == [J, VowelAfterI(s[at + 1]).value])
      && (r.consumed == 0 ==> r.result == [])
  {
  }

  /**
   * A round of `parse_word` reads something exactly when the character at
   * `at` is a Polish letter: every multi-letter rule starts with one.  It
   * reads at most four characters, and one or two sounds.
   */
  lemma {:induction false} ParseStepProgress(s: string, at: nat)
    requires at < |s|
    ensures var r := ParseStep(s, at);
      && (r.consumed > 0 <==> SingleNaive(s[at]).Some?)
      && r.consumed <= 4
      && (r.consumed > 0 ==> 1 <= |r.result| <= 2)
  {
  }

  /** The word read at `at` is non-empty exactly when a Polish letter is there. */
  lemma {:induction false} ParseWordProgress(s: string, at: nat)
    requires at < |s|
    ensures ParseWordFrom(s, at).consumed > 0 <==> SingleNaive(s[at]).Some?
    ensures ParseWordFrom(s, at).consumed > 0 ==> |ParseWordFrom(s, at).result| > 0
  {
    ParseStepProgress(s, at);
  }

  /**
   * Every part covers at least one character, so the source's "failed to
   * parse" exit is never taken.
   */
  lemma {:induction false} HeadLenPositive(low: string, at: nat)
    requires at < |low|
    ensures HeadLen(low, at) > 0
  {
    ParseWordProgress(low, at);
  }

  /** `parse_word` stops at the end of the text or before a character that is not a Polish letter. */
  lemma {:induction false} ParseWordEnd(s: string, at: nat)
    requires at <= |s|
    ensures var p := at + ParseWordFrom(s, at).consumed;
      p == |s| || SingleNaive(s[p]).None?
    decreases |s| - at
  {
    if at < |s| {
      var step := ParseStep(s, at);
      ParseStepProgress(s, at);
      if step.consumed > 0 {
        ParseWordEnd(s, at + step.consumed);
      }
    }
  }

  /** Whether a part is well formed: a non-empty word, or a non-empty run of characters that are not Polish letters. */
  predicate WellFormedPart(p: Part<Sound>) {
    match p
    case Word(w, _) => |w| > 0
    case Arbitrary(t) => |t| > 0 && forall k :: 0 <= k < |t| ==> SingleNaive(t[k]).None?
  }

  /**
   * The head part is a word exactly when a Polish letter starts there; it is
   * well formed; and the character after it, if any, is of the other kind.
   */
  lemma {:induction false} HeadKind(orig: string, low: string, at: nat)
    requires |orig| == |low| && at < |low|
    ensures HeadPart(orig, low, at).Word? <==> SingleNaive(low[at]).Some?
    ensures WellFormedPart(HeadPart(orig, low, at))
    ensures at + HeadLen(low, at) < |low| ==>
      (SingleNaive(low[at + HeadLen(low, at)]).Some? <==> HeadPart(orig, low, at).Arbitrary?)
  {
    UnknownRunShape(low, at);
    ParseWordProgress(low, at);
    ParseWordEnd(low, at);
  }

  /** Every part `parse` produces is well formed. */
  lemma {:induction false} ParseFromWellFormed(orig: string, low: string, at: nat)
    requires |orig| == |low| && at <= |low|
    ensures forall k :: 0 <= k < |ParseFrom(orig, low, at)| ==> WellFormedPart(ParseFrom(orig, low, at)[k])
    decreases |low| - at
  {
    if at < |low| {
      var n := HeadLen(low, at);
      HeadLenPositive(low, at);
      HeadKind(orig, low, at);
      ParseFromWellFormed(orig, low, at + n);
      var parts := ParseFrom(orig, low, at);
      assert forall k :: 1 <= k < |parts| ==> parts[k] == ParseFrom(orig, low, at + n)[k - 1];
    }
  }

  /**
   * Words and arbitrary runs alternate, and the first part is a word exactly
   * when the text starts with a Polish letter.
   */
  lemma {:induction false} ParseFromAlternating(orig: string, low: string, at: nat)
    requires |orig| == |low| && at <= |low|
    ensures Alternating(ParseFrom(orig, low, at))
    ensures at < |low| ==> (|ParseFrom(orig, low, at)| > 0
      && (ParseFrom(orig, low, at)[0].Word? <==> SingleNaive(low[at]).Some?))
    decreases |low| - at
  {
    if at < |low| {
      var n := HeadLen(low, at);
      HeadLenPositive(low, at);
      HeadKind(orig, low, at);
      ParseFromAlternating(orig, low, at + n);
      var parts, head, rest := ParseFrom(orig, low, at), HeadPart(orig, low, at), ParseFrom(orig, low, at + n);
      assert parts == [head] + rest;
      AlternatingCons(head, rest);
    }
  }

  /** The parts of a parsed text are well formed and alternate between words and arbitrary runs. */
  lemma {:induction false} ParseShape(input: string)
    ensures var parts := Parse(input);
      && Alternating(parts)
      && (forall k :: 0 <= k < |parts| ==> WellFormedPart(parts[k]))
  {
    ParseFromWellFormed(input, Lowered(input), 0);
    ParseFromAlternating(input, Lowered(input), 0);
  }
}

/** Worked examples of the Polish reader. */
module OfficialParseExamples {
  import opened Sounds
  import opened Casing
  import opened Parts
  import opened OfficialParse

  /** The tail "zilni" of a 14-letter word: zi before a consonant, l, and ni at the end of the text. */
  lemma {:induction false} ZilniAtEnd(s: string)
    requires |s| == 14 && s[9] == 'z' && s[10] == 'i' && s[11] == 'l' && s[12] == 'n' && s[13] == 'i'
    ensures ParseWordFrom(s, 9) == ConsumeResult([Zx, I, L, Nx, I], 5)
  {
    assert ParseWordFrom(s, 14) == Nothing;
    assert ParseStep(s, 12) == ConsumeResult([Nx, I], 2);
    assert ParseWordFrom(s, 12) == ConsumeResult([Nx, I], 2);
    assert ParseStep(s, 11) == ConsumeResult([L], 1);
    assert ParseWordFrom(s, 11) == ConsumeResult([L, Nx, I], 3);
    assert ParseStep(s, 9) == ConsumeResult([Zx, I], 2);
  }

  /** "siaki" before it: si before a vowel, k, and a lone i (a consonant follows it). */
  lemma {:induction false} SiakiZilniAtEnd(s: string)
    requires |s| == 14 && s[4] == 's' && s[5] == 'i' && s[6] == 'a' && s[7] == 'k' && s[8] == 'i'
    requires s[9] == 'z' && s[10] == 'i' && s[11] == 'l' && s[12] == 'n' && s[13] == 'i'
    ensures ParseWordFrom(s, 4) == ConsumeResult([Sx, A, K, I, Zx, I, L, Nx, I], 10)
  {
    ZilniAtEnd(s);
    assert ParseStep(s, 8) == ConsumeResult([I], 1);
    assert ParseWordFrom(s, 8) == ConsumeResult([I, Zx, I, L, Nx, I], 6);
    assert ParseStep(s, 7) == ConsumeResult([K], 1);
    assert ParseWordFrom(s, 7) == ConsumeResult([K, I, Zx, I, L, Nx, I], 7);
    assert ParseStep(s, 4) == ConsumeResult([Sx, A], 3);
  }

  /** The whole of "ciaksiakizilni": ci before a vowel and k in front of the rest. */
  lemma {:induction false} CiakSiakiZilni(s: string)
    requires |s| == 14 && s[0] == 'c' && s[1] == 'i' && s[2] == 'a' && s[3] == 'k'
    requires s[4] == 's' && s[5] == 'i' && s[6] == 'a' && s[7] == 'k' && s[8] == 'i'
    requires s[9] == 'z' && s[10] == 'i' && s[11] == 'l' && s[12] == 'n' && s[13] == 'i'
    ensures ParseWordFrom(s, 0) == ConsumeResult([Tx, A, K, Sx, A, K, I, Zx, I, L, Nx, I], 14)
  {
    SiakiZilniAtEnd(s);
    assert ParseStep(s, 3) == ConsumeResult([K], 1);
    assert ParseWordFrom(s, 3) == ConsumeResult([K, Sx, A, K, I, Zx, I, L, Nx, I], 11);
    assert ParseStep(s, 0) == ConsumeResult([Tx, A], 3);
  }

  /** Every rule of the cascade at work: ci+vowel, si+vowel, a lone i, zi before a consonant, ni at the end. */
  lemma {:induction false} ParseWordCiaksiakizilni()
    ensures ParseWordFrom("ciaksiakizilni", 0) == ConsumeResult([Tx, A, K, Sx, A, K, I, Zx, I, L, Nx, I], 14)
  {
    CiakSiakiZilni("ciaksiakizilni");
  }

  /** "działo": dzi before a vowel, then ł as one sound. */
  lemma {:induction false} ParseWordDzialo()
    ensures ParseWordFrom("działo", 0) == ConsumeResult([Dx, A, Lx, O], 6)
  {
    var s := "działo";
    assert ParseWordFrom(s, 6) == Nothing;
    assert ParseStep(s, 5) == ConsumeResult([O], 1);
    assert ParseWordFrom(s, 5) == ConsumeResult([O], 1);
    assert ParseStep(s, 4) == ConsumeResult([Lx], 1);
    assert ParseWordFrom(s, 4) == ConsumeResult([Lx, O], 2);
    assert ParseStep(s, 0) == ConsumeResult([Dx, A], 4);
  }

  /** From character 3 on, "test" reads "t" one round at a time. */
  lemma {:induction false} TestFrom3(s: string)
    requires |s| == 4 && s[3] == 't'
    ensures ParseWordFrom(s, 3) == ConsumeResult([T], 1)
  {
    assert ParseWordFrom(s, 4) == Nothing;
    assert ParseStep(s, 3) == ConsumeResult([T], 1);
  }

  /** From character 2 on, "test" reads "st" one round at a time. */
  lemma {:induction false} TestFrom2(s: string)
    requires |s| == 4 && s[2] == 's' && s[3] == 't'
    ensures ParseWordFrom(s, 2) == ConsumeResult([S] + [T], 2)
  {
    TestFrom3(s);
    assert ParseStep(s, 2) == ConsumeResult([S], 1);
  }

  /** From character 1 on, "test" reads "est" one round at a time. */
  lemma {:induction false} TestFrom1(s: string)
    requires |s| == 4 && s[1] == 'e' && s[2] == 's' && s[3] == 't'
    ensures ParseWordFrom(s, 1) == ConsumeResult([E] + ([S] + [T]), 3)
  {
    TestFrom2(s);
    assert ParseStep(s, 1) == ConsumeResult([E], 1);
  }

  /** From character 0 on, "test" reads "test" one round at a time. */
  lemma {:induction false} TestFrom0(s: string)
    requires |s| == 4 && s[0] == 't' && s[1] == 'e' && s[2] == 's' && s[3] == 't'
    ensures ParseWordFrom(s, 0) == ConsumeResult([T] + ([E] + ([S] + [T])), 4)
  {
    TestFrom1(s);
    assert ParseStep(s, 0) == ConsumeResult([T], 1);
  }

  /** The sounds of "test", read one round at a time. */
  lemma {:induction false} TestSounds()
    ensures [T] + ([E] + ([S] + [T])) == [T, E, S, T]
  {
  }

  /** "test": four letters read one at a time. */
  lemma {:induction false} ParseWordTest()
    ensures ParseWordFrom("test", 0) == ConsumeResult([T, E, S, T], 4)
  {
    TestFrom0("test");
    TestSounds();
  }

  /** From character 7 on, "działało" reads "o" one round at a time. */
  lemma {:induction false} DzialaloFrom7(s: string)
    requires |s| == 8 && s[7] == 'o'
    ensures ParseWordFrom(s, 7) == ConsumeResult([O], 1)
  {
    assert ParseWordFrom(s, 8) == Nothing;
    assert ParseStep(s, 7) == ConsumeResult([O], 1);
  }

  /** From character 6 on, "działało" reads "ło" one round at a time. */
  lemma {:induction false} DzialaloFrom6(s: string)
    requires |s| == 8 && s[6] == 'ł' && s[7] == 'o'
    ensures ParseWordFrom(s, 6) == ConsumeResult([Lx] + [O], 2)
  {
    DzialaloFrom7(s);
    assert ParseStep(s, 6) == ConsumeResult([Lx], 1);
  }

  /** From character 5 on, "działało" reads "ało" one round at a time. */
  lemma {:induction false} DzialaloFrom5(s: string)
    requires |s| == 8 && s[5] == 'a' && s[6] == 'ł' && s[7] == 'o'
    ensures ParseWordFrom(s, 5) == ConsumeResult([A] + ([Lx] + [O]), 3)
  {
    DzialaloFrom6(s);
    assert ParseStep(s, 5) == ConsumeResult([A], 1);
  }

  /** From character 4 on, "działało" reads "łało" one round at a time. */
  lemma {:induction false} DzialaloFrom4(s: string)
    requires |s| == 8 && s[4] == 'ł' && s[5] == 'a' && s[6] == 'ł' && s[7] == 'o'
    ensures ParseWordFrom(s, 4) == ConsumeResult([Lx] + ([A] + ([Lx] + [O])), 4)
  {
    DzialaloFrom5(s);
    assert ParseStep(s, 4) == ConsumeResult([Lx], 1);
  }

  /** From character 0 on, "działało" reads "działało" one round at a time. */
  lemma {:induction false} DzialaloFrom0(s: string)
    requires |s| == 8 && s[0] == 'd' && s[1] == 'z' && s[2] == 'i' && s[3] == 'a' && s[4] == 'ł'
    requires s[5] == 'a' && s[6] == 'ł' && s[7] == 'o'
    ensures ParseWordFrom(s, 0) == ConsumeResult([Dx, A] + ([Lx] + ([A] + ([Lx] + [O]))), 8)
  {
    DzialaloFrom4(s);
    assert ParseStep(s, 0) == ConsumeResult([Dx, A], 4);
  }

  /** The sounds of "działało", read one round at a time. */
  lemma {:induction false} DzialaloSounds()
    ensures [Dx, A] + ([Lx] + ([A] + ([Lx] + [O]))) == [Dx, A, Lx, A, Lx, O]
  {
  }

  /** "działało": dzi before a vowel, then ł, a, ł, o. */
  lemma {:induction false} ParseWordDzialalo()
    ensures ParseWordFrom("działało", 0) == ConsumeResult([Dx, A, Lx, A, Lx, O], 8)
  {
    DzialaloFrom0("działało");
    DzialaloSounds();
  }

  /** From character 7 on, "ojczyzno" reads "o" one round at a time. */
  lemma {:induction false} OjczyznoFrom7(s: string)
    requires |s| == 8 && s[7] == 'o'
    ensures ParseWordFrom(s, 7) == ConsumeResult([O], 1)
  {
    assert ParseWordFrom(s, 8) == Nothing;
    assert ParseStep(s, 7) == ConsumeResult([O], 1);
  }

  /** From character 6 on, "ojczyzno" reads "no" one round at a time. */
  lemma {:induction false} OjczyznoFrom6(s: string)
    requires |s| == 8 && s[6] == 'n' && s[7] == 'o'
    ensures ParseWordFrom(s, 6) == ConsumeResult([N] + [O], 2)
  {
    OjczyznoFrom7(s);
    assert ParseStep(s, 6) == ConsumeResult([N], 1);
  }

  /** From character 5 on, "ojczyzno" reads "zno" one round at a time. */
  lemma {:induction false} OjczyznoFrom5(s: string)
    requires |s| == 8 && s[5] == 'z' && s[6] == 'n' && s[7] == 'o'
    ensures ParseWordFrom(s, 5) == ConsumeResult([Z] + ([N] + [O]), 3)
  {
    OjczyznoFrom6(s);
    assert ParseStep(s, 5) == ConsumeResult([Z], 1);
  }

  /** From character 4 on, "ojczyzno" reads "yzno" one round at a time. */
  lemma {:induction false} OjczyznoFrom4(s: string)
    requires |s| == 8 && s[4] == 'y' && s[5] == 'z' && s[6] == 'n' && s[7] == 'o'
    ensures ParseWordFrom(s, 4) == ConsumeResult([Y] + ([Z] + ([N] + [O])), 4)
  {
    OjczyznoFrom5(s);
    assert ParseStep(s, 4) == ConsumeResult([Y], 1);
  }

  /** From character 2 on, "ojczyzno" reads "czyzno" one round at a time. */
  lemma {:induction false} OjczyznoFrom2(s: string)
    requires |s| == 8 && s[2] == 'c' && s[3] == 'z' && s[4] == 'y' && s[5] == 'z' && s[6] == 'n'
    requires s[7] == 'o'
    ensures ParseWordFrom(s, 2) == ConsumeResult([Ch] + ([Y] + ([Z] + ([N] + [O]))), 6)
  {
    OjczyznoFrom4(s);
    assert ParseStep(s, 2) == ConsumeResult([Ch], 2);
  }

  /** From character 1 on, "ojczyzno" reads "jczyzno" one round at a time. */
  lemma {:induction false} OjczyznoFrom1(s: string)
    requires |s| == 8 && s[1] == 'j' && s[2] == 'c' && s[3] == 'z' && s[4] == 'y' && s[5] == 'z'
    requires s[6] == 'n' && s[7] == 'o'
    ensures ParseWordFrom(s, 1) == ConsumeResult([J] + ([Ch] + ([Y] + ([Z] + ([N] + [O])))), 7)
  {
    OjczyznoFrom2(s);
    assert ParseStep(s, 1) == ConsumeResult([J], 1);
  }

  /** From character 0 on, "ojczyzno" reads "ojczyzno" one round at a time. */
  lemma {:induction false} OjczyznoFrom0(s: string)
    requires |s| == 8 && s[0] == 'o' && s[1] == 'j' && s[2] == 'c' && s[3] == 'z' && s[4] == 'y'
    requires s[5] == 'z' && s[6] == 'n' && s[7] == 'o'
    ensures ParseWordFrom(s, 0) == ConsumeResult([O] + ([J] + ([Ch] + ([Y] + ([Z] + ([N] + [O]))))), 8)
  {
    OjczyznoFrom1(s);
    assert ParseStep(s, 0) == ConsumeResult([O], 1);
  }

  /** The sounds of "ojczyzno", read one round at a time. */
  lemma {:induction false} OjczyznoSounds()
    ensures [O] + ([J] + ([Ch] + ([Y] + ([Z] + ([N] + [O]))))) == [O, J, Ch, Y, Z, N, O]
  {
  }

  /** "ojczyzno": cz is one sound; z and n before letters other than i stay hard. */
  lemma {:induction false} ParseWordOjczyzno()
    ensures ParseWordFrom("ojczyzno", 0) == ConsumeResult([O, J, Ch, Y, Z, N, O], 8)
  {
    OjczyznoFrom0("ojczyzno");
    OjczyznoSounds();
  }

  /** From character 5 on, "chmura" reads "a" one round at a time. */
  lemma {:induction false} ChmuraFrom5(s: string)
    requires |s| == 6 && s[5] == 'a'
    ensures ParseWordFrom(s, 5) == ConsumeResult([A], 1)
  {
    assert ParseWordFrom(s, 6) == Nothing;
    assert ParseStep(s, 5) == ConsumeResult([A], 1);
  }

  /** From character 4 on, "chmura" reads "ra" one round at a time. */
  lemma {:induction false} ChmuraFrom4(s: string)
    requires |s| == 6 && s[4] == 'r' && s[5] == 'a'
    ensures ParseWordFrom(s, 4) == ConsumeResult([R] + [A], 2)
  {
    ChmuraFrom5(s);
    assert ParseStep(s, 4) == ConsumeResult([R], 1);
  }

  /** From character 3 on, "chmura" reads "ura" one round at a time. */
  lemma {:induction false} ChmuraFrom3(s: string)
    requires |s| == 6 && s[3] == 'u' && s[4] == 'r' && s[5] == 'a'
    ensures ParseWordFrom(s, 3) == ConsumeResult([U] + ([R] + [A]), 3)
  {
    ChmuraFrom4(s);
    assert ParseStep(s, 3) == ConsumeResult([U], 1);
  }

  /** From character 2 on, "chmura" reads "mura" one round at a time. */
  lemma {:induction false} ChmuraFrom2(s: string)
    requires |s| == 6 && s[2] == 'm' && s[3] == 'u' && s[4] == 'r' && s[5] == 'a'
    ensures ParseWordFrom(s, 2) == ConsumeResult([M] + ([U] + ([R] + [A])), 4)
  {
    ChmuraFrom3(s);
    assert ParseStep(s, 2) == ConsumeResult([M], 1);
  }

  /** From character 0 on, "chmura" reads "chmura" one round at a time. */
  lemma {:induction false} ChmuraFrom0(s: string)
    requires |s| == 6 && s[0] == 'c' && s[1] == 'h' && s[2] == 'm' && s[3] == 'u' && s[4] == 'r'
    requires s[5] == 'a'
    ensures ParseWordFrom(s, 0) == ConsumeResult([H] + ([M] + ([U] + ([R] + [A]))), 6)
  {
    ChmuraFrom2(s);
    assert ParseStep(s, 0) == ConsumeResult([H], 2);
  }

  /** The sounds of "chmura", read one round at a time. */
  lemma {:induction false} ChmuraSounds()
    ensures [H] + ([M] + ([U] + ([R] + [A]))) == [H, M, U, R, A]
  {
  }

  /** "chmura": ch is one sound, h. */
  lemma {:induction false} ParseWordChmura()
    ensures ParseWordFrom("chmura", 0) == ConsumeResult([H, M, U, R, A], 6)
  {
    ChmuraFrom0("chmura");
    ChmuraSounds();
  }

  /** From character 2 on, "dzw" reads "w" one round at a time. */
  lemma {:induction false} DzwFrom2(s: string)
    requires |s| == 3 && s[2] == 'w'
    ensures ParseWordFrom(s, 2) == ConsumeResult([W], 1)
  {
    assert ParseWordFrom(s, 3) == Nothing;
    assert ParseStep(s, 2) == ConsumeResult([W], 1);
  }

  /** From character 0 on, "dzw" reads "dzw" one round at a time. */
  lemma {:induction false} DzwFrom0(s: string)
    requires |s| == 3 && s[0] == 'd' && s[1] == 'z' && s[2] == 'w'
    ensures ParseWordFrom(s, 0) == ConsumeResult([Dz] + [W], 3)
  {
    DzwFrom2(s);
    assert ParseStep(s, 0) == ConsumeResult([Dz], 2);
  }

  /** The sounds of "dzw", read one round at a time. */
  lemma {:induction false} DzwSounds()
    ensures [Dz] + [W] == [Dz, W]
  {
  }

  /** "dzw": dz without an i after it is the digraph dz, then w. */
  lemma {:induction false} ParseWordDzw()
    ensures ParseWordFrom("dzw", 0) == ConsumeResult([Dz, W], 3)
  {
    DzwFrom0("dzw");
    DzwSounds();
  }

  /** From character 3 on, "dzwo" reads "o" one round at a time. */
  lemma {:induction false} DzwoFrom3(s: string)
    requires |s| == 4 && s[3] == 'o'
    ensures ParseWordFrom(s, 3) == ConsumeResult([O], 1)
  {
    assert ParseWordFrom(s, 4) == Nothing;
    assert ParseStep(s, 3) == ConsumeResult([O], 1);
  }

  /** From character 2 on, "dzwo" reads "wo" one round at a time. */
  lemma {:induction false} DzwoFrom2(s: string)
    requires |s| == 4 && s[2] == 'w' && s[3] == 'o'
    ensures ParseWordFrom(s, 2) == ConsumeResult([W] + [O], 2)
  {
    DzwoFrom3(s);
    assert ParseStep(s, 2) == ConsumeResult([W], 1);
  }

  /** From character 0 on, "dzwo" reads "dzwo" one round at a time. */
  lemma {:induction false} DzwoFrom0(s: string)
    requires |s| == 4 && s[0] == 'd' && s[1] == 'z' && s[2] == 'w' && s[3] == 'o'
    ensures ParseWordFrom(s, 0) == ConsumeResult([Dz] + ([W] + [O]), 4)
  {
    DzwoFrom2(s);
    assert ParseStep(s, 0) == ConsumeResult([Dz], 2);
  }

  /** The sounds of "dzwo", read one round at a time. */
  lemma {:induction false} DzwoSounds()
    ensures [Dz] + ([W] + [O]) == [Dz, W, O]
  {
  }

  /** "dzwo": dz before w, with more text after it, is still the digraph dz. */
  lemma {:induction false} ParseWordDzwo()
    ensures ParseWordFrom("dzwo", 0) == ConsumeResult([Dz, W, O], 4)
  {
    DzwoFrom0("dzwo");
    DzwoSounds();
  }

  // parse("ala ma \nkota!"): three words and the runs of other characters between them

  /** The end of "ala": a, with a space after it that no rule recognises. */
  lemma {:induction false} AlaEnd(low: string)
    requires |low| == 13 && low[2] == 'a' && low[3] == ' '
    ensures ParseWordFrom(low, 2) == ConsumeResult([A], 1)
  {
    assert ParseStep(low, 3) == Nothing;
    assert ParseStep(low, 2) == ConsumeResult([A], 1);
  }

  /** From the l on, "ala" reads l, a. */
  lemma {:induction false} AlaFrom1(low: string)
    requires |low| == 13 && low[1] == 'l' && low[2] == 'a' && low[3] == ' '
    ensures ParseWordFrom(low, 1) == ConsumeResult([L] + [A], 2)
  {
    AlaEnd(low);
    assert ParseStep(low, 1) == ConsumeResult([L], 1);
  }

  /** The word "ala" at the start of the text reads a, l, a and stops at the space. */
  lemma {:induction false} AlaWord(low: string)
    requires |low| == 13 && low[0] == 'a' && low[1] == 'l' && low[2] == 'a' && low[3] == ' '
    ensures ParseWordFrom(low, 0) == ConsumeResult([A, L, A], 3)
  {
    AlaFrom1(low);
    assert ParseStep(low, 0) == ConsumeResult([A], 1);
    assert [A] + ([L] + [A]) == [A, L, A];
  }

  /** The end of "ma": a, with a space after it. */
  lemma {:induction false} MaEnd(low: string)
    requires |low| == 13 && low[5] == 'a' && low[6] == ' '
    ensures ParseWordFrom(low, 5) == ConsumeResult([A], 1)
  {
    assert ParseStep(low, 6) == Nothing;
    assert ParseStep(low, 5) == ConsumeResult([A], 1);
  }

  /** The word "ma" reads m, a and stops at the space. */
  lemma {:induction false} MaWord(low: string)
    requires |low| == 13 && low[4] == 'm' && low[5] == 'a' && low[6] == ' '
    ensures ParseWordFrom(low, 4) == ConsumeResult([M, A], 2)
  {
    MaEnd(low);
    assert ParseStep(low, 4) == ConsumeResult([M], 1);
  }

  /** The end of "kota": a, with an exclamation mark after it. */
  lemma {:induction false} KotaEnd(low: string)
    requires |low| == 13 && low[11] == 'a' && low[12] == '!'
    ensures ParseWordFrom(low, 11) == ConsumeResult([A], 1)
  {
    assert ParseStep(low, 12) == Nothing;
    assert ParseStep(low, 11) == ConsumeResult([A], 1);
  }

  /** From the t on, "kota" reads t, a. */
  lemma {:induction false} KotaFrom10(low: string)
    requires |low| == 13 && low[10] == 't' && low[11] == 'a' && low[12] == '!'
    ensures ParseWordFrom(low, 10) == ConsumeResult([T] + [A], 2)
  {
    KotaEnd(low);
    assert ParseStep(low, 10) == ConsumeResult([T], 1);
  }

  /** From the o on, "kota" reads o, t, a. */
  lemma {:induction false} KotaFrom9(low: string)
    requires |low| == 13 && low[9] == 'o' && low[10] == 't' && low[11] == 'a' && low[12] == '!'
    ensures ParseWordFrom(low, 9) == ConsumeResult([O] + ([T] + [A]), 3)
  {
    KotaFrom10(low);
    assert ParseStep(low, 9) == ConsumeResult([O], 1);
  }

  /** The word "kota" reads k, o, t, a and stops at the exclamation mark. */
  lemma {:induction false} KotaWord(low: string)
    requires |low| == 13 && low[8] == 'k' && low[9] == 'o' && low[10] == 't' && low[11] == 'a' && low[12] == '!'
    ensures ParseWordFrom(low, 8) == ConsumeResult([K, O, T, A], 4)
  {
    KotaFrom9(low);
    assert ParseStep(low, 8) == ConsumeResult([K], 1);
    assert [K] + ([O] + ([T] + [A])) == [K, O, T, A];
  }

  /** A word that starts with a character that is not uppercase is lowercase. */
  lemma {:induction false} DetectLowerStart(word: string)
    requires |word| > 0 && !IsUpper(word[0])
    ensures Detect(word) == Lowercase
  {
  }

  /** The last part: the exclamation mark, which no rule recognises, up to the end of the text. */
  lemma {:induction false} PartsFrom12(orig: string, low: string)
    requires |orig| == |low| == 13 && low[12] == '!'
    ensures ParseFrom(orig, low, 12) == [Arbitrary("!")]
  {
    assert UnknownRun(low, 13) == 0;
    assert UnknownRun(low, 12) == 1;
    assert low[12..13] == "!";
    assert ParseFrom(orig, low, 13) == [];
  }

  /** From the k on: the word "kota", then the exclamation mark. */
  lemma {:induction false} PartsFrom8(orig: string, low: string)
    requires |orig| == |low| == 13 && !IsUpper(orig[8])
    requires low[8] == 'k' && low[9] == 'o' && low[10] == 't' && low[11] == 'a' && low[12] == '!'
    ensures ParseFrom(orig, low, 8) == [Word([K, O, T, A], Lowercase)] + [Arbitrary("!")]
  {
    PartsFrom12(orig, low);
    KotaWord(low);
    assert UnknownRun(low, 8) == 0;
    DetectLowerStart(orig[8..12]);
  }

  /** From the second space on: the space and the newline, then "kota" and the exclamation mark. */
  lemma {:induction false} PartsFrom6(orig: string, low: string)
    requires |orig| == |low| == 13 && !IsUpper(orig[8])
    requires low[6] == ' ' && low[7] == '\n' && low[8] == 'k' && low[9] == 'o' && low[10] == 't' && low[11] == 'a' && low[12] == '!'
    ensures ParseFrom(orig, low, 6) == [Arbitrary(" \n")] + ([Word([K, O, T, A], Lowercase)] + [Arbitrary("!")])
  {
    PartsFrom8(orig, low);
    assert UnknownRun(low, 8) == 0;
    assert UnknownRun(low, 7) == 1;
    assert UnknownRun(low, 6) == 2;
    assert low[6..8] == " \n";
  }

  /** From the m on: the word "ma", then the rest. */
  lemma {:induction false} PartsFrom4(orig: string, low: string)
    requires |orig| == |low| == 13 && !IsUpper(orig[4]) && !IsUpper(orig[8])
    requires low[4] == 'm' && low[5] == 'a' && low[6] == ' ' && low[7] == '\n'
    requires low[8] == 'k' && low[9] == 'o' && low[10] == 't' && low[11] == 'a' && low[12] == '!'
    ensures ParseFrom(orig, low, 4) == [Word([M, A], Lowercase)] + ([Arbitrary(" \n")] + ([Word([K, O, T, A], Lowercase)] + [Arbitrary("!")]))
  {
    PartsFrom6(orig, low);
    MaWord(low);
    assert UnknownRun(low, 4) == 0;
    DetectLowerStart(orig[4..6]);
  }

  /** From the first space on: the space, then "ma" and the rest. */
  lemma {:induction false} PartsFrom3(orig: string, low: string)
    requires |orig| == |low| == 13 && !IsUpper(orig[4]) && !IsUpper(orig[8])
    requires low[3] == ' ' && low[4] == 'm' && low[5] == 'a' && low[6] == ' ' && low[7] == '\n'
    requires low[8] == 'k' && low[9] == 'o' && low[10] == 't' && low[11] == 'a' && low[12] == '!'
    ensures ParseFrom(orig, low, 3) == [Arbitrary(" ")] + ([Word([M, A], Lowercase)] + ([Arbitrary(" \n")] + ([Word([K, O, T, A], Lowercase)] + [Arbitrary("!")])))
  {
    PartsFrom4(orig, low);
    assert UnknownRun(low, 4) == 0;
    assert UnknownRun(low, 3) == 1;
    assert low[3..4] == " ";
  }

  /** The whole text: "ala", then the rest. */
  lemma {:induction false} PartsFrom0(orig: string, low: string)
    requires |orig| == |low| == 13 && !IsUpper(orig[0]) && !IsUpper(orig[4]) && !IsUpper(orig[8])
    requires low[0] == 'a' && low[1] == 'l' && low[2] == 'a' && low[3] == ' ' && low[4] == 'm' && low[5] == 'a' && low[6] == ' '
    requires low[7] == '\n' && low[8] == 'k' && low[9] == 'o' && low[10] == 't' && low[11] == 'a' && low[12] == '!'
    ensures ParseFrom(orig, low, 0) == [Word([A, L, A], Lowercase)] + ([Arbitrary(" ")] + ([Word([M, A], Lowercase)] + ([Arbitrary(" \n")] + ([Word([K, O, T, A], Lowercase)] + [Arbitrary("!")]))))
  {
    PartsFrom3(orig, low);
    AlaWord(low);
    assert UnknownRun(low, 0) == 0;
    DetectLowerStart(orig[0..3]);
  }

  /** The parts of "ala ma \nkota!", one at a time. */
  lemma {:induction false} AlaMaKotaParts()
    ensures [Word([A, L, A], Lowercase)] + ([Arbitrary(" ")] + ([Word([M, A], Lowercase)] + ([Arbitrary(" \n")] + ([Word([K, O, T, A], Lowercase)] + [Arbitrary("!")]))))
      == [Word([A, L, A], Lowercase), Arbitrary(" "), Word([M, A], Lowercase), Arbitrary(" \n"), Word([K, O, T, A], Lowercase), Arbitrary("!")]
  {
  }

  /** "ala ma \nkota!" has no uppercase letter, so lowering it changes nothing. */
  lemma {:induction false} AlaMaKotaLowered(s: string)
    requires s == "ala ma \nkota!"
    ensures Lowered(s) == s
  {
    forall k | 0 <= k < |s|
      ensures Lowered(s)[k] == s[k]
    {
      assert !IsUpper(s[k]);
    }
  }

  /**
   * The source's test of `parse`: "ala ma \nkota!" is the words ala, ma and
   * kota, each lowercase, with a space, a space and a newline, and an
   * exclamation mark after them.
   */
  lemma {:induction false} ParseAlaMaKota()
    ensures Parse("ala ma \nkota!") == [Word([A, L, A], Lowercase), Arbitrary(" "), Word([M, A], Lowercase), Arbitrary(" \n"), Word([K, O, T, A], Lowercase), Arbitrary("!")]
  {
    var s := "ala ma \nkota!";
    AlaMaKotaLowered(s);
    PartsFrom0(s, s);
    AlaMaKotaParts();
  }
}
