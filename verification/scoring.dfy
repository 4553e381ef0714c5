/** What `/end` computes from a session's conversation and mistakes: the
    elapsed whole seconds, the score and the feedback text. */
module Scoring {
  import opened Common

  /** `Math.floor((endTime - startTime) / 1000)` for millisecond times. */
  function ElapsedSeconds(startTime: Timestamp, endTime: Timestamp): (d: int)
    ensures d * 1000 <= endTime - startTime < (d + 1) * 1000
  {
    (endTime - startTime) / 1000
  }

  /** `mistakeRate`: mistakes per user entry, 0 when the user never spoke. */
  function MistakeRate(conversation: seq<Turn>, mistakes: seq<Mistake>): real {
    var total := UserTurns(conversation);
    if total > 0 then (|mistakes| as real) / (total as real) else 0.0
  }

  /** `overallScore = Math.max(0, 100 - mistakeRate * 100)`, in exact arithmetic. */
  function Score(conversation: seq<Turn>, mistakes: seq<Mistake>): real {
    var raw := 100.0 - MistakeRate(conversation, mistakes) * 100.0;
    if 0.0 > raw then 0.0 else raw
  }

  /** With no user entries the rate is 0 and the score 100. */
  lemma ScoreWithoutUserTurns(conversation: seq<Turn>, mistakes: seq<Mistake>)
    requires UserTurns(conversation) == 0
    ensures MistakeRate(conversation, mistakes) == 0.0
    ensures Score(conversation, mistakes) == 100.0
  {
  }

  /** When there are at most as many mistakes as user entries, the score is the
      percentage of user entries without a mistake, and so lies in [0, 100]. */
  lemma ScoreIsCleanPercentage(conversation: seq<Turn>, mistakes: seq<Mistake>)
    requires |mistakes| <= UserTurns(conversation)
    ensures 0.0 <= Score(conversation, mistakes) <= 100.0
    ensures UserTurns(conversation) > 0 ==>
      Score(conversation, mistakes) * (UserTurns(conversation) as real)
        == 100.0 * ((UserTurns(conversation) - |mistakes|) as real)
  {
    var u := UserTurns(conversation);
    if u > 0 {
      RateFacts(|mistakes|, u);
    }
  }

  /** The arithmetic behind the score, for m mistakes among u user entries. */
  lemma RateFacts(m: nat, u: nat)
    requires 0 < u && m <= u
    ensures 0.0 <= (m as real) / (u as real) <= 1.0
    ensures (100.0 - ((m as real) / (u as real)) * 100.0) * (u as real) == 100.0 * ((u - m) as real)
  {
    var r := (m as real) / (u as real);
    assert r * (u as real) == m as real;
    assert r * (u as real) <= 1.0 * (u as real);
  }

  /** The score never leaves [0, 100] whatever the counts. */
  lemma ScoreAtMostHundred(conversation: seq<Turn>, mistakes: seq<Mistake>)
    ensures 0.0 <= Score(conversation, mistakes) <= 100.0
  {
    var u := UserTurns(conversation);
    if u > 0 {
      assert 0.0 <= (|mistakes| as real) / (u as real);
    }
  }

  /** Four user entries and one mistake give 75. */
  lemma ScoreExample(conversation: seq<Turn>, mistakes: seq<Mistake>)
    requires UserTurns(conversation) == 4 && |mistakes| == 1
    ensures Score(conversation, mistakes) == 75.0
  {
    ScoreIsCleanPercentage(conversation, mistakes);
  }

  // ---------------------------------------------------------------------
  // Feedback text

  /** A decimal digit character. */
  function DigitChar(d: nat): char
    requires d < 10
  {
    "0123456789"[d]
  }

  predicate IsDigit(c: char) { '0' <= c <= '9' }

  /** `${n}` for a non-negative integer: its decimal digits. */
  function NatToString(n: nat): (s: string)
    ensures |s| > 0
    ensures forall i :: 0 <= i < |s| ==> IsDigit(s[i])
    ensures |s| == 1 || s[0] != '0'
    ensures n > 0 ==> s[0] != '0'
  {
    if n < 10 then [DigitChar(n)] else NatToString(n / 10) + [DigitChar(n % 10)]
  }

  /** The value of a string of decimal digits. */
  function ParseDecimal(s: string): nat
    requires forall i :: 0 <= i < |s| ==> IsDigit(s[i])
  {
    if s == [] then 0
    else
      var d := s[|s| - 1] as int - '0' as int;
      assert IsDigit(s[|s| - 1]);
      ParseDecimal(s[..|s| - 1]) * 10 + d
  }

  /** Reading the printed count back gives the count: the text names it exactly. */
  lemma {:induction false} ParseNatToString(n: nat)
    ensures ParseDecimal(NatToString(n)) == n
  {
    var s := NatToString(n);
    if n >= 10 {
      ParseNatToString(n / 10);
      assert s[..|s| - 1] == NatToString(n / 10);
    }
  }

  /** The separator between original and corrected text. The source file holds
      the UTF-8 bytes of an arrow read back as Windows-1252, so the text it
      builds contains these three characters. */
  const Arrow: string := " \U{00E2}\U{2020}\U{2019} "

  const ExcellentFeedback: string := "Excellent conversation! Your English is very good."
  const FeedbackHead: string := "Great job! You had "
  const FeedbackMiddle: string := " corrections. Focus on: "

  /** `m.original + ' → ' + m.corrected`. */
  function PairText(m: Mistake): string {
    m.original + Arrow + m.corrected
  }

  /** `ms.map(PairText).join(', ')`. */
  function JoinPairs(ms: seq<Mistake>): string {
    if ms == [] then ""
    else if |ms| == 1 then PairText(ms[0])
    else JoinPairs(ms[..|ms| - 1]) + ", " + PairText(ms[|ms| - 1])
  }

  /** The feedback of `/end`. */
  function Feedback(mistakes: seq<Mistake>): string {
    if |mistakes| > 0 then
      FeedbackHead + NatToString(|mistakes|) + FeedbackMiddle + JoinPairs(mistakes[..Min(3, |mistakes|)])
    else ExcellentFeedback
  }

  /** With mistakes the feedback is the fixed head, a run of digits that reads
      back as the number of mistakes, and the first min(3, n) mistakes in order;
      without mistakes it is the fixed congratulation. */
  lemma FeedbackSpec(mistakes: seq<Mistake>)
    ensures |mistakes| == 0 ==> Feedback(mistakes) == ExcellentFeedback
    ensures |mistakes| > 0 ==>
      exists digits: string ::
        && (forall i :: 0 <= i < |digits| ==> IsDigit(digits[i]))
        && |digits| > 0
        && (|digits| == 1 || digits[0] != '0')
        && ParseDecimal(digits) == |mistakes|
        && Feedback(mistakes) == FeedbackHead + digits + FeedbackMiddle + JoinPairs(mistakes[..Min(3, |mistakes|)])
  {
    if |mistakes| > 0 {
      var digits := NatToString(|mistakes|);
      ParseNatToString(|mistakes|);
      assert Feedback(mistakes) == FeedbackHead + digits + FeedbackMiddle + JoinPairs(mistakes[..Min(3, |mistakes|)]);
    }
  }

  /** Mistakes after the third change the feedback only through their count. */
  lemma FeedbackListsFirstThree(a: seq<Mistake>, b: seq<Mistake>)
    requires |a| == |b| > 0
    requires forall i :: 0 <= i < Min(3, |a|) ==> PairText(a[i]) == PairText(b[i])
    ensures Feedback(a) == Feedback(b)
  {
    var k := Min(3, |a|);
    JoinPairsCongruent(a[..k], b[..k]);
  }

  /** Joining depends only on the texts of the pairs. */
  lemma {:induction false} JoinPairsCongruent(a: seq<Mistake>, b: seq<Mistake>)
    requires |a| == |b|
    requires forall i :: 0 <= i < |a| ==> PairText(a[i]) == PairText(b[i])
    ensures JoinPairs(a) == JoinPairs(b)
  {
    if |a| > 1 {
      JoinPairsCongruent(a[..|a| - 1], b[..|b| - 1]);
    }
  }
}
