/** The correction extractor of `AICallingAgent`: the model's reply is tried
    against four fixed patterns of the shape  PHRASE \s* "([^"]+)"  (case
    insensitive), in order, and the quoted span of the first pattern that
    matches anywhere becomes the correction. */
module Correction {
  import opened Common

  /** The literal phrases of the four patterns, in the order they are tried. */
  const Patterns: seq<string> := [
    "I think you meant:",
    "The correct way is:",
    "You should say:",
    "Standard pronunciation:"
  ]

  /** What the extractor reports; `corrected` and `explanation` are null
      (None) when nothing matched. */
  datatype CorrectionResult = CorrectionResult(
    hasCorrection: bool,
    corrected: Option<string>,
    original: string,
    explanation: Option<string>)

  // ---------------------------------------------------------------------
  // Characters

  /** JavaScript's `\s`: the WhiteSpace and LineTerminator code points. */
  predicate IsSpace(c: char) {
    var n := c as int;
    n == 0x09 || n == 0x0A || n == 0x0B || n == 0x0C || n == 0x0D || n == 0x20
    || n == 0xA0 || n == 0x1680 || (0x2000 <= n <= 0x200A) || n == 0x2028 || n == 0x2029
    || n == 0x202F || n == 0x205F || n == 0x3000 || n == 0xFEFF
  }

  /** Upper-cases ASCII letters and leaves every other character alone. With
      the `i` flag and no `u` flag, a non-ASCII character never canonicalises
      to an ASCII one, so for the all-ASCII phrases above comparing folded
      characters is exactly the regular expression's case-insensitive test. */
  function Fold(c: char): char {
    if 'a' <= c <= 'z' then (c as int - 32) as char else c
  }

  /** `phrase` occurs at position `i` of `text`, ignoring case. */
  predicate PhraseAt(text: string, phrase: string, i: nat) {
    i + |phrase| <= |text|
    && forall m :: 0 <= m < |phrase| ==> Fold(text[i + m]) == Fold(phrase[m])
  }

  // ---------------------------------------------------------------------
  // The regular expression, as the language it denotes

  /** The pattern matches `text` at start `i`, with `\s*` spanning [i+|phrase|, j),
      the opening quote at j, the group `[^"]+` spanning (j, k) and the closing
      quote at k. */
  ghost predicate MatchShape(text: string, phrase: string, i: nat, j: nat, k: nat) {
    && PhraseAt(text, phrase, i)
    && i + |phrase| <= j
    && j + 1 < k < |text|
    && (forall m :: i + |phrase| <= m < j ==> IsSpace(text[m]))
    && text[j] == '"'
    && (forall m :: j < m < k ==> text[m] != '"')
    && text[k] == '"'
  }

  /** Some way of matching the pattern at `i` captures `s`. */
  ghost predicate RegexMatch(text: string, phrase: string, i: nat, s: string) {
    exists j: nat, k: nat :: MatchShape(text, phrase, i, j, k) && s == text[j + 1 .. k]
  }

  // ---------------------------------------------------------------------
  // A deterministic matcher

  /** The end of the run of `\s` characters that starts at `j`. */
  function SkipSpaces(text: string, j: nat): (k: nat)
    requires j <= |text|
    ensures j <= k <= |text|
    ensures forall m :: j <= m < k ==> IsSpace(text[m])
    ensures k < |text| ==> !IsSpace(text[k])
    decreases |text| - j
  {
    if j < |text| && IsSpace(text[j]) then SkipSpaces(text, j + 1) else j
  }

  /** The first position at or after `j` holding a double quote, or |text|. */
  function NextQuote(text: string, j: nat): (k: nat)
    requires j <= |text|
    ensures j <= k <= |text|
    ensures forall m :: j <= m < k ==> text[m] != '"'
    ensures k < |text| ==> text[k] == '"'
    decreases |text| - j
  {
    if j < |text| && text[j] != '"' then NextQuote(text, j + 1) else j
  }

  /** The capture of the pattern tried at start `i`, if it matches there. */
  function MatchAt(text: string, phrase: string, i: nat): (r: Option<string>)
    requires i <= |text|
    ensures r.Some? ==> |r.value| > 0 && '"' !in r.value
  {
    if !PhraseAt(text, phrase, i) then None
    else
      var j := SkipSpaces(text, i + |phrase|);
      if j < |text| && text[j] == '"' then
        var k := NextQuote(text, j + 1);
        if j + 1 < k < |text| then
          Some(text[j + 1 .. k])
        else None
      else None
  }

  /** Whatever the matcher returns at `i` is a match of the regular expression. */
  lemma MatchAtSound(text: string, phrase: string, i: nat)
    requires i <= |text|
    ensures MatchAt(text, phrase, i).Some? ==> RegexMatch(text, phrase, i, MatchAt(text, phrase, i).value)
  {
    if MatchAt(text, phrase, i).Some? {
      var j := SkipSpaces(text, i + |phrase|);
      var k := NextQuote(text, j + 1);
      assert MatchShape(text, phrase, i, j, k);
    }
  }

  /** Every match of the regular expression at `i` is the one the matcher finds:
      the match at a given start is unique. */
  lemma MatchAtComplete(text: string, phrase: string, i: nat, s: string)
    requires i <= |text|
    requires RegexMatch(text, phrase, i, s)
    ensures MatchAt(text, phrase, i) == Some(s)
  {
    var j: nat, k: nat :| MatchShape(text, phrase, i, j, k) && s == text[j + 1 .. k];
    assert SkipSpaces(text, i + |phrase|) == j;
    assert NextQuote(text, j + 1) == k;
  }

  /** The matcher agrees with the regular expression in both directions. */
  lemma MatchAtIff(text: string, phrase: string, i: nat, s: string)
    requires i <= |text|
    ensures MatchAt(text, phrase, i) == Some(s) <==> RegexMatch(text, phrase, i, s)
  {
    MatchAtSound(text, phrase, i);
    if RegexMatch(text, phrase, i, s) {
      MatchAtComplete(text, phrase, i, s);
    }
  }

  /** Where a match starts and what it captured. */
  datatype Hit = Hit(at: nat, capture: string)

  /** `String.prototype.match` with a non-global pattern: the match whose start
      is leftmost, searching from `from`. */
  function Search(text: string, phrase: string, from: nat): (r: Option<Hit>)
    requires from <= |text|
    ensures r.Some? ==> from <= r.value.at <= |text| && MatchAt(text, phrase, r.value.at) == Some(r.value.capture)
    ensures r.Some? ==> forall i :: from <= i < r.value.at ==> MatchAt(text, phrase, i).None?
    ensures r.None? ==> forall i :: from <= i <= |text| ==> MatchAt(text, phrase, i).None?
    decreases |text| - from
  {
    var here := MatchAt(text, phrase, from);
    if here.Some? then Some(Hit(from, here.value))
    else if from == |text| then None
    else
      var r := Search(text, phrase, from + 1);
      r
  }

  /** The pattern built from `phrase`, applied to the whole reply. */
  function Exec(text: string, phrase: string): Option<Hit> {
    Search(text, phrase, 0)
  }

  /** A reply without a double quote matches none of the patterns. */
  lemma {:induction false} NoQuoteNoMatch(text: string, phrase: string, from: nat)
    requires from <= |text|
    requires '"' !in text
    ensures Search(text, phrase, from).None?
    decreases |text| - from
  {
    if from < |text| {
      NoQuoteNoMatch(text, phrase, from + 1);
    }
  }

  // ---------------------------------------------------------------------
  // The extractor

  /** The capture of the first phrase of `phrases` whose pattern matches. */
  function FirstCorrection(reply: string, phrases: seq<string>): Option<string> {
    if phrases == [] then None
    else match Exec(reply, phrases[0])
      case Some(h) => Some(h.capture)
      case None => FirstCorrection(reply, phrases[1..])
  }

  /** `extractCorrection(aiResponse, userInput)`. */
  function Extract(reply: string, userInput: string): (r: CorrectionResult)
    ensures r.original == userInput
    ensures r.hasCorrection <==> r.corrected.Some?
    ensures r.explanation == (if r.hasCorrection then Some(reply) else None)
  {
    match FirstCorrection(reply, Patterns)
    case Some(s) => CorrectionResult(true, Some(s), userInput, Some(reply))
    case None => CorrectionResult(false, None, userInput, None)
  }

  /** The patterns are tried in order and the first one with any match decides:
      a correction is found exactly when some pattern matches, and then its
      text is the leftmost capture of the first matching pattern. */
  lemma {:induction false} FirstCorrectionSpec(reply: string, phrases: seq<string>)
    ensures FirstCorrection(reply, phrases).None? <==> forall k :: 0 <= k < |phrases| ==> Exec(reply, phrases[k]).None?
    ensures FirstCorrection(reply, phrases).Some? ==>
      exists k :: 0 <= k < |phrases|
        && (forall m :: 0 <= m < k ==> Exec(reply, phrases[m]).None?)
        && Exec(reply, phrases[k]).Some?
        && FirstCorrection(reply, phrases).value == Exec(reply, phrases[k]).value.capture
  {
    if phrases != [] {
      FirstCorrectionSpec(reply, phrases[1..]);
      if Exec(reply, phrases[0]).None? {
        if FirstCorrection(reply, phrases).Some? {
          var k :| 0 <= k < |phrases[1..]|
            && (forall m :: 0 <= m < k ==> Exec(reply, phrases[1..][m]).None?)
            && Exec(reply, phrases[1..][k]).Some?
            && FirstCorrection(reply, phrases[1..]).value == Exec(reply, phrases[1..][k]).value.capture;
          assert forall m :: 0 <= m < k + 1 ==> Exec(reply, phrases[m]).None? by {
            forall m | 0 <= m < k + 1 ensures Exec(reply, phrases[m]).None? {
              if m > 0 { assert phrases[m] == phrases[1..][m - 1]; }
            }
          }
          assert phrases[k + 1] == phrases[1..][k];
        } else {
          forall k | 0 <= k < |phrases| ensures Exec(reply, phrases[k]).None? {
            if k > 0 { assert phrases[k] == phrases[1..][k - 1]; }
          }
        }
      }
    }
  }

  /** The result of the extractor, stated without reference to its definition:
      `original` is always the user's input; a correction is reported exactly
      when one of the four patterns matches the reply, and then `corrected` is
      the non-empty, quote-free leftmost capture of the first such pattern and
      `explanation` the whole reply; otherwise both are null. */
  lemma ExtractSpec(reply: string, userInput: string)
    ensures Extract(reply, userInput).original == userInput
    ensures Extract(reply, userInput).hasCorrection <==>
      exists k :: 0 <= k < |Patterns| && Exec(reply, Patterns[k]).Some?
    ensures !Extract(reply, userInput).hasCorrection ==>
      Extract(reply, userInput).corrected.None? && Extract(reply, userInput).explanation.None?
    ensures Extract(reply, userInput).hasCorrection ==>
      && Extract(reply, userInput).explanation == Some(reply)
      && Extract(reply, userInput).corrected.Some?
      && |Extract(reply, userInput).corrected.value| > 0
      && '"' !in Extract(reply, userInput).corrected.value
      && (exists k ::
            && 0 <= k < |Patterns|
            && (forall m :: 0 <= m < k ==> Exec(reply, Patterns[m]).None?)
            && Exec(reply, Patterns[k]).Some?
            && Extract(reply, userInput).corrected.value == Exec(reply, Patterns[k]).value.capture)
  {
    FirstCorrectionSpec(reply, Patterns);
  }

  /** `extractCorrection`: the loop over the pattern array with an early return. */
  method ExtractCorrection(reply: string, userInput: string) returns (c: CorrectionResult)
    ensures c == Extract(reply, userInput)
  {
    for k := 0 to |Patterns|
      invariant FirstCorrection(reply, Patterns) == FirstCorrection(reply, Patterns[k..])
    {
      var m := Exec(reply, Patterns[k]);
      if m.Some? {
        return CorrectionResult(true, Some(m.value.capture), userInput, Some(reply));
      }
      assert Patterns[k..][1..] == Patterns[k + 1..];
    }
    return CorrectionResult(false, None, userInput, None);
  }

  /** A reply with no double quote in it never yields a correction. */
  lemma NoQuoteNoCorrection(reply: string, userInput: string)
    requires '"' !in reply
    ensures !Extract(reply, userInput).hasCorrection
    ensures Extract(reply, userInput) == CorrectionResult(false, None, userInput, None)
  {
    forall k | 0 <= k < |Patterns| ensures Exec(reply, Patterns[k]).None? {
      NoQuoteNoMatch(reply, Patterns[k], 0);
    }
    FirstCorrectionSpec(reply, Patterns);
  }

  /** A reply that opens with the phrase, blanks and a quoted, quote-free text
      is matched at its very start, capturing that text. */
  lemma LeadingMatch(phrase: string, gap: string, fix: string)
    requires forall m :: 0 <= m < |gap| ==> IsSpace(gap[m])
    requires |fix| > 0 && '"' !in fix
    ensures Exec(phrase + gap + "\"" + fix + "\"", phrase) == Some(Hit(0, fix))
  {
    var reply := phrase + gap + "\"" + fix + "\"";
    var j := |phrase| + |gap|;
    var k := |reply| - 1;
    assert forall m :: 0 <= m < |phrase| ==> reply[m] == phrase[m];
    assert forall m :: |phrase| <= m < j ==> reply[m] == gap[m - |phrase|];
    assert forall m :: j < m < k ==> reply[m] == fix[m - j - 1];
    assert MatchShape(reply, phrase, 0, j, k);
    assert reply[j + 1 .. k] == fix;
    MatchAtComplete(reply, phrase, 0, fix);
  }

  /** The extractor on a reply of the form `I think you meant: "…"`, such as
      `I think you meant: "She doesn't like it"`: the quoted text is the
      correction and the whole reply its explanation. */
  lemma ExampleGrammarCorrection(fix: string, userInput: string)
    requires |fix| > 0 && '"' !in fix
    ensures var reply := Patterns[0] + " " + "\"" + fix + "\"";
      Extract(reply, userInput) == CorrectionResult(true, Some(fix), userInput, Some(reply))
  {
    LeadingMatch(Patterns[0], " ", fix);
  }

  /** The extractor on the reply `That's great, keep going!`. */
  lemma ExampleNoCorrection()
    ensures !Extract("That's great, keep going!", "I goed to school").hasCorrection
    ensures Extract("That's great, keep going!", "I goed to school")
         == CorrectionResult(false, None, "I goed to school", None)
  {
    NoQuoteNoCorrection("That's great, keep going!", "I goed to school");
  }
}
