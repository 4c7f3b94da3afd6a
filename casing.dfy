/**
 * Per-word capitalisation: a word is lowercase, uppercase or titlecase.  The
 * mode is detected on the original characters of a word and re-applied to the
 * lowercase rendering of that word in the other alphabet.
 *
 * Case mapping is restricted to the letters this system transliterates: the
 * ASCII letters, the Polish letters ą ć ę ł ń ó ś ź ż and the Greek letters
 * with their tonos forms.  On these, lowering and raising are one character
 * to one character, so a word keeps its length.
 */
module Casing {

  datatype CapitalisationMode = Lowercase | Uppercase | Titlecase

  predicate IsUpper(c: char) {
    || 'A' <= c <= 'Z'
    || 'Α' <= c <= 'Ρ' || 'Σ' <= c <= 'Ω'
    || c in {'Ą', 'Ć', 'Ę', 'Ł', 'Ń', 'Ó', 'Ś', 'Ź', 'Ż', 'Ά', 'Έ', 'Ή', 'Ί', 'Ό', 'Ύ', 'Ώ'}
  }

  predicate IsLower(c: char) {
    || 'a' <= c <= 'z'
    || 'α' <= c <= 'ρ' || 'σ' <= c <= 'ω'
    || c in {'ą', 'ć', 'ę', 'ł', 'ń', 'ó', 'ś', 'ź', 'ż', 'ά', 'έ', 'ή', 'ί', 'ό', 'ύ', 'ώ'}
  }

  function ToUpper(c: char): (d: char)
    ensures IsLower(c) ==> IsUpper(d)
    ensures !IsLower(c) ==> d == c
  {
    if 'a' <= c <= 'z' || 'α' <= c <= 'ρ' || 'σ' <= c <= 'ω' then (c as int - 32) as char
    else match c
      case 'ą' => 'Ą' case 'ć' => 'Ć' case 'ę' => 'Ę' case 'ł' => 'Ł' case 'ń' => 'Ń'
      case 'ó' => 'Ó' case 'ś' => 'Ś' case 'ź' => 'Ź' case 'ż' => 'Ż'
      case 'ά' => 'Ά' case 'έ' => 'Έ' case 'ή' => 'Ή' case 'ί' => 'Ί' case 'ό' => 'Ό'
      case 'ύ' => 'Ύ' case 'ώ' => 'Ώ'
      case _ => c
  }

  function ToLower(c: char): (d: char)
    ensures IsUpper(c) ==> IsLower(d) && ToUpper(d) == c
    ensures !IsUpper(c) ==> d == c
  {
    if 'A' <= c <= 'Z' || 'Α' <= c <= 'Ρ' || 'Σ' <= c <= 'Ω' then (c as int + 32) as char
    else match c
      case 'Ą' => 'ą' case 'Ć' => 'ć' case 'Ę' => 'ę' case 'Ł' => 'ł' case 'Ń' => 'ń'
      case 'Ó' => 'ó' case 'Ś' => 'ś' case 'Ź' => 'ź' case 'Ż' => 'ż'
      case 'Ά' => 'ά' case 'Έ' => 'έ' case 'Ή' => 'ή' case 'Ί' => 'ί' case 'Ό' => 'ό'
      case 'Ύ' => 'ύ' case 'Ώ' => 'ώ'
      case _ => c
  }

  lemma {:induction false} UpperLowerRoundTrip(c: char)
    requires IsLower(c)
    ensures ToLower(ToUpper(c)) == c
  {
  }

  /** The lowercase form of a text, character by character. */
  function Lowered(s: string): (r: string)
    ensures |r| == |s|
    ensures forall k :: 0 <= k < |s| ==> !IsUpper(r[k]) && (IsUpper(s[k]) || r[k] == s[k])
  {
    seq(|s|, k requires 0 <= k < |s| => ToLower(s[k]))
  }

  function Uppered(s: string): (r: string)
    ensures |r| == |s|
    ensures forall k :: 0 <= k < |s| ==> !IsLower(r[k]) && (IsLower(s[k]) || r[k] == s[k])
  {
    seq(|s|, k requires 0 <= k < |s| => ToUpper(s[k]))
  }

  /** Re-applies a mode to the lowercase rendering of a word. */
  function Apply(mode: CapitalisationMode, lowercase: string): (r: string)
    ensures |r| == |lowercase|
    ensures mode == Lowercase ==> r == lowercase
    ensures mode == Titlecase && |lowercase| > 0 ==> r[0] == ToUpper(lowercase[0]) && r[1..] == lowercase[1..]
  {
    match mode
    case Lowercase => lowercase
    case Uppercase => Uppered(lowercase)
    case Titlecase => if |lowercase| == 0 then "" else [ToUpper(lowercase[0])] + lowercase[1..]
  }

  /** Detects the mode of a word from its original characters, as the source does. */
  function Detect(word: seq<char>): CapitalisationMode {
    if |word| == 0 then Lowercase
    else if forall k :: 0 <= k < |word| ==> IsUpper(word[k]) then Uppercase
    else if IsUpper(word[0]) then Titlecase
    else Lowercase
  }

  /**
   * Detection that looks only at cased characters: a word with an uppercase
   * letter and no lowercase letter is uppercase even if it also holds a
   * caseless mark such as ' or \.
   */
  function DetectCorrected(word: seq<char>): CapitalisationMode {
    if |word| == 0 then Lowercase
    else if (forall k :: 0 <= k < |word| ==> !IsLower(word[k])) && (exists k :: 0 <= k < |word| && IsUpper(word[k])) then Uppercase
    else if IsUpper(word[0]) then Titlecase
    else Lowercase
  }

  /** Which detection a word's mode comes from: `detect` as the source writes it, or the corrected one. */
  datatype Detection = SourceDetection | CorrectedDetection

  function DetectWith(d: Detection, word: seq<char>): CapitalisationMode {
    match d
    case SourceDetection => Detect(word)
    case CorrectedDetection => DetectCorrected(word)
  }

  /** A word whose casing one of the three modes describes exactly. */
  predicate WellCased(word: string) {
    || (forall k :: 0 <= k < |word| ==> IsUpper(word[k]))
    || (forall k :: 1 <= k < |word| ==> !IsUpper(word[k]))
  }

  /** Lowering a well-cased word and re-applying its detected mode gives the word back. */
  lemma {:induction false} CasingRoundTrip(word: string)
    requires WellCased(word)
    ensures Apply(Detect(word), Lowered(word)) == word
  {
    var low := Lowered(word);
    match Detect(word)
    case Uppercase =>
      assert forall k :: 0 <= k < |word| ==> Uppered(low)[k] == word[k];
    case Titlecase =>
      assert forall k :: 1 <= k < |word| ==> low[k] == word[k];
      assert Apply(Titlecase, low) == [word[0]] + word[1..];
    case Lowercase =>
      if |word| > 0 {
        assert !IsUpper(word[0]);
        assert forall k :: 0 <= k < |word| ==> low[k] == word[k];
      }
  }

  /** On a word made of letters only, the corrected detection agrees with the source's. */
  lemma {:induction false} DetectCorrectedOnLetters(word: seq<char>)
    requires forall k :: 0 <= k < |word| ==> IsUpper(word[k]) || IsLower(word[k])
    ensures DetectCorrected(word) == Detect(word)
  {
    if |word| > 0 && forall k :: 0 <= k < |word| ==> !IsLower(word[k]) {
      assert IsUpper(word[0]);
    }
  }

  /** A lowercase rendering in which every character is a letter lets the source's detection recover any mode. */
  lemma {:induction false} DetectRecoversMode(mode: CapitalisationMode, lowercase: string)
    requires |lowercase| > 0 && forall k :: 0 <= k < |lowercase| ==> IsLower(lowercase[k])
    requires mode == Titlecase ==> |lowercase| > 1
    ensures Detect(Apply(mode, lowercase)) == mode
  {
    var r := Apply(mode, lowercase);
    if mode == Titlecase {
      assert r[1] == lowercase[1];
    }
  }

  /** The source's detection turns an uppercase word holding the acute mark into titlecase. */
  lemma {:induction false} DetectLosesUppercaseAsWritten()
    ensures Apply(Uppercase, "ραδοστ'") == "ΡΑΔΟΣΤ'"
    ensures Detect("ΡΑΔΟΣΤ'") == Titlecase
  {
    assert !IsUpper("ΡΑΔΟΣΤ'"[6]);
  }

  /**
   * The corrected detection recovers the applied mode of any lowercase rendering that
   * holds a letter, whatever caseless marks it also holds.
   */
  lemma {:induction false} DetectCorrectedRecoversMode(mode: CapitalisationMode, lowercase: string)
    requires forall k :: 0 <= k < |lowercase| ==> !IsUpper(lowercase[k])
    requires exists k :: 0 <= k < |lowercase| && IsLower(lowercase[k])
    requires mode == Titlecase ==> IsLower(lowercase[0]) && exists k :: 1 <= k < |lowercase| && IsLower(lowercase[k])
    ensures DetectCorrected(Apply(mode, lowercase)) == mode
  {
    var r := Apply(mode, lowercase);
    var k :| 0 <= k < |lowercase| && IsLower(lowercase[k]);
    match mode
    case Lowercase =>
    case Uppercase =>
      assert IsUpper(r[k]);
    case Titlecase =>
      var j :| 1 <= j < |lowercase| && IsLower(lowercase[j]);
      assert IsLower(r[j]);
  }

  /** A text with no uppercase letter. */
  predicate NoUpper(t: string) {
    forall k {:trigger IsUpper(t[k])} :: 0 <= k < |t| ==> !IsUpper(t[k])
  }

  /** Lowering distributes over concatenation. */
  lemma {:induction false} LoweredAppend(a: string, b: string)
    ensures Lowered(a + b) == Lowered(a) + Lowered(b)
  {
  }

  /** Lowering a text that has no uppercase letter changes nothing. */
  lemma {:induction false} LoweredNoUpper(t: string)
    requires NoUpper(t)
    ensures Lowered(t) == t
  {
  }

  /** Whatever mode is applied to a text with no uppercase letter, lowering the result gives the text back. */
  lemma {:induction false} LoweredApply(mode: CapitalisationMode, t: string)
    requires NoUpper(t)
    ensures Lowered(Apply(mode, t)) == t
  {
    var r := Apply(mode, t);
    forall k | 0 <= k < |t|
      ensures ToLower(r[k]) == t[k]
    {
      if IsLower(t[k]) {
        UpperLowerRoundTrip(t[k]);
      }
    }
  }
}
