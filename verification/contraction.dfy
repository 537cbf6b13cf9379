/** The pure helpers of the contraction timer
    (app/src/screens/ContractionTimerScreen.tsx): the `MM:SS` duration label
    and the 5-1-1 alert rule. Start times are milliseconds since the epoch,
    as `Date.getTime()` gives them. */
module Contraction {
  import opened Wrappers
  import opened Js

  // ---------------------------------------------------------------------
  // Duration label
  // ---------------------------------------------------------------------

  /** `formatDuration`: floored minutes and JavaScript-remainder seconds,
      each rendered in decimal and padded to two characters with zeros. */
  function FormatDuration(seconds: int): (r: string)
    ensures seconds >= 0 ==> Label(r)
  {
    var minutes := FloorDiv(seconds, 60);
    var rest := Rem(seconds, 60);
    var m := PadStart2(IntToString(minutes));
    var s := PadStart2(IntToString(rest));
    if seconds < 0 then m + ":" + s
    else
      LabelShape(minutes, rest);
      m + ":" + s
  }

  /** The shape of a timer label: at least five characters, a colon third
      from the end, and decimal digits everywhere else. */
  predicate Label(r: string) {
    && |r| >= 5 && r[|r| - 3] == ':'
    && forall i :: 0 <= i < |r| && i != |r| - 3 ==> IsDigit(r[i])
  }

  /** The label of a non-negative minute count and a second count below
      60 has the timer-label shape. */
  lemma LabelShape(minutes: nat, rest: nat)
    requires rest < 60
    ensures Label(PadStart2(IntToString(minutes)) + ":" + PadStart2(IntToString(rest)))
  {
    NonNegativeRendering(minutes);
    NonNegativeRendering(rest);
    PaddedValue(minutes);
    PaddedValue(rest);
    TwoDigits(rest);
    SplitAtColon(PadStart2(NatToString(minutes)), PadStart2(NatToString(rest)));
  }

  predicate IsDigit(c: char) {
    '0' <= c <= '9'
  }

  /** The value of a string of decimal digits, leading zeros allowed; each
      character counts as its distance from `'0'`, which is its digit value
      on the digit strings it is applied to. */
  function DigitsValue(s: string): int {
    if |s| == 0 then 0
    else DigitsValue(s[..|s| - 1]) * 10 + ((s[|s| - 1] as int) - ('0' as int))
  }

  lemma {:induction false} NatToStringValue(n: nat)
    ensures DigitsValue(NatToString(n)) == n
    decreases n
  {
    var s := NatToString(n);
    if n >= 10 {
      NatToStringValue(n / 10);
      assert s[..|s| - 1] == NatToString(n / 10);
    }
  }

  /** A leading zero does not change the value. */
  lemma {:induction false} LeadingZeroValue(s: string)
    ensures DigitsValue("0" + s) == DigitsValue(s)
  {
    if |s| > 0 {
      LeadingZeroValue(s[..|s| - 1]);
      assert ("0" + s)[..|s|] == "0" + s[..|s| - 1];
    }
  }

  lemma PaddedValue(n: nat)
    ensures var p := PadStart2(NatToString(n));
      && (forall i :: 0 <= i < |p| ==> IsDigit(p[i]))
      && DigitsValue(p) == n
      && |p| >= 2
  {
    NatToStringValue(n);
    if |NatToString(n)| == 1 {
      LeadingZeroValue(NatToString(n));
    }
  }

  /** A number below 60 pads to exactly two digits. */
  lemma TwoDigits(n: nat)
    requires n < 60
    ensures |PadStart2(NatToString(n))| == 2
  {
    if n >= 10 {
      assert NatToString(n) == NatToString(n / 10) + [DigitChar(n % 10)];
    }
  }

  /** A label `m:s` of digit strings, `s` of two characters, splits back
      into its parts at the third character from the end. */
  lemma SplitAtColon(m: string, s: string)
    requires |s| == 2 && |m| >= 2
    requires forall i :: 0 <= i < |m| ==> IsDigit(m[i])
    requires forall i :: 0 <= i < |s| ==> IsDigit(s[i])
    ensures var r := m + ":" + s;
      && |r| >= 5 && r[|r| - 3] == ':' && r[..|r| - 3] == m && r[|r| - 2..] == s
      && forall i :: 0 <= i < |r| && i != |r| - 3 ==> IsDigit(r[i])
  {
    var r := m + ":" + s;
    forall i | 0 <= i < |r| && i != |r| - 3 ensures IsDigit(r[i]) {
      if i < |m| {
        assert r[i] == m[i];
      } else {
        assert r[i] == s[i - |m| - 1];
      }
    }
  }

  /** On a non-negative duration the JavaScript operators are the plain
      quotient and remainder. */
  lemma FormatDurationNat(seconds: nat)
    ensures FormatDuration(seconds) == PadStart2(NatToString(seconds / 60)) + ":" + PadStart2(NatToString(seconds % 60))
  {
  }

  /** For a non-negative duration the label reads back: the digits before the
      colon are the minutes, the two digits after it the seconds. */
  lemma FormatDurationReadsBack(seconds: nat)
    ensures var r := FormatDuration(seconds);
      && Label(r)
      && DigitsValue(r[..|r| - 3]) * 60 + DigitsValue(r[|r| - 2..]) == seconds
  {
    FormatDurationNat(seconds);
    LabelReadsBack(seconds);
  }

  /** The label of a non-negative duration, built from the plain quotient
      and remainder by 60, reads back as the duration. */
  lemma LabelReadsBack(seconds: nat)
    ensures var r := PadStart2(NatToString(seconds / 60)) + ":" + PadStart2(NatToString(seconds % 60));
      DigitsValue(r[..|r| - 3]) * 60 + DigitsValue(r[|r| - 2..]) == seconds
  {
    var q, k := seconds / 60, seconds % 60;
    var m, s := PadStart2(NatToString(q)), PadStart2(NatToString(k));
    PaddedValue(q);
    PaddedValue(k);
    TwoDigits(k);
    SplitAtColon(m, s);
  }

  // ---------------------------------------------------------------------
  // The 5-1-1 rule
  // ---------------------------------------------------------------------

  /** A logged contraction, newest first in the list the screen keeps. */
  datatype ContractionRecord = ContractionRecord(startMs: int, durationSeconds: Option<int>)

  const PatternSize: nat := 12
  const MinDurationSeconds: int := 60
  const MinuteMs: int := 60000
  /** The span the twelve starts must cover: 55 minutes. */
  const MinSpanMs: int := 55 * MinuteMs
  /** The largest gap allowed between adjacent starts: 5 minutes. */
  const MaxGapMs: int := 5 * MinuteMs

  function Abs(x: int): nat {
    if x < 0 then -x else x
  }

  /** A missing duration counts as zero seconds. */
  predicate LongEnough(c: ContractionRecord) {
    c.durationSeconds.GetOr(0) >= MinDurationSeconds
  }

  function Gap(rs: seq<ContractionRecord>, i: int): nat
    requires 0 <= i < |rs| - 1
  {
    Abs(rs[i].startMs - rs[i + 1].startMs)
  }

  /** The rule as `check511Pattern` states it, on the first twelve records:
      each lasts a minute, the first and the twelfth start at least 55
      minutes apart, and no two adjacent starts more than 5 minutes apart.
      Minutes compare exactly in milliseconds. */
  predicate FiveOneOne(records: seq<ContractionRecord>) {
    && |records| >= PatternSize
    && (forall i :: 0 <= i < PatternSize ==> LongEnough(records[i]))
    && Abs(records[0].startMs - records[PatternSize - 1].startMs) >= MinSpanMs
    && (forall i :: 0 <= i < PatternSize - 1 ==> Gap(records, i) <= MaxGapMs)
  }

  /** `check511Pattern`. */
  method Check511Pattern(records: seq<ContractionRecord>) returns (r: bool)
    ensures r <==> FiveOneOne(records)
  {
    if |records| < PatternSize {
      return false;
    }
    var recent := records[..PatternSize];
    var i := 0;
    while i < |recent|
      invariant 0 <= i <= |recent|
      invariant forall j :: 0 <= j < i ==> LongEnough(records[j])
    {
      if recent[i].durationSeconds.GetOr(0) < MinDurationSeconds {
        return false;
      }
      i := i + 1;
    }
    var span := Abs(recent[0].startMs - recent[|recent| - 1].startMs);
    if span < MinSpanMs {
      return false;
    }
    i := 0;
    while i < |recent| - 1
      invariant 0 <= i <= |recent| - 1
      invariant forall j :: 0 <= j < i ==> Gap(records, j) <= MaxGapMs
    {
      if Abs(recent[i].startMs - recent[i + 1].startMs) > MaxGapMs {
        assert Gap(records, i) > MaxGapMs;
        return false;
      }
      i := i + 1;
    }
    return true;
  }

  /** Only the first twelve records matter. */
  lemma OnlyFirstTwelve(records: seq<ContractionRecord>)
    requires |records| >= PatternSize
    ensures FiveOneOne(records) <==> FiveOneOne(records[..PatternSize])
  {
    var p := records[..PatternSize];
    assert forall i :: 0 <= i < PatternSize - 1 ==> Gap(p, i) == Gap(records, i);
  }

  /** The total of the gaps between starts `lo` and `hi`. */
  function GapSum(rs: seq<ContractionRecord>, lo: int, hi: int): nat
    requires 0 <= lo <= hi < |rs|
    decreases hi - lo
  {
    if lo == hi then 0 else Gap(rs, lo) + GapSum(rs, lo + 1, hi)
  }

  /** The distance between two starts is at most the sum of the gaps. */
  lemma {:induction false} SpanWithinGaps(rs: seq<ContractionRecord>, lo: int, hi: int)
    requires 0 <= lo <= hi < |rs|
    ensures Abs(rs[lo].startMs - rs[hi].startMs) <= GapSum(rs, lo, hi)
    decreases hi - lo
  {
    if lo < hi {
      SpanWithinGaps(rs, lo + 1, hi);
    }
  }

  /** Gaps each at most `MaxGapMs` sum to at most that many times the count,
      and strictly less as soon as one gap is shorter. */
  lemma {:induction false} GapSumBound(rs: seq<ContractionRecord>, lo: int, hi: int)
    requires 0 <= lo <= hi < |rs|
    requires forall i :: lo <= i < hi ==> Gap(rs, i) <= MaxGapMs
    ensures GapSum(rs, lo, hi) <= (hi - lo) * MaxGapMs
    ensures (exists i :: lo <= i < hi && Gap(rs, i) < MaxGapMs) ==> GapSum(rs, lo, hi) < (hi - lo) * MaxGapMs
    decreases hi - lo
  {
    if lo < hi {
      GapSumBound(rs, lo + 1, hi);
      if exists i :: lo <= i < hi && Gap(rs, i) < MaxGapMs {
        var i :| lo <= i < hi && Gap(rs, i) < MaxGapMs;
        if i > lo {
          assert exists j :: lo + 1 <= j < hi && Gap(rs, j) < MaxGapMs;
        }
      }
    }
  }

  /** As written, the rule fires only when every one of the eleven gaps is
      exactly five minutes: eleven gaps of at most five minutes cannot
      cover more than 55 minutes, and the rule demands at least 55. */
  lemma FiveOneOneNeedsExactGaps(records: seq<ContractionRecord>)
    requires FiveOneOne(records)
    ensures forall i :: 0 <= i < PatternSize - 1 ==> Gap(records, i) == MaxGapMs
  {
    SpanWithinGaps(records, 0, PatternSize - 1);
    GapSumBound(records, 0, PatternSize - 1);
  }

  /** Twelve minute-long contractions every four and a half minutes, then
      two more: well within the rule's intent, never an alert as written. */
  const EveryFourAndAHalf: seq<ContractionRecord> :=
    seq(14, i => ContractionRecord((13 - i) * 270000, Some(60)))

  lemma SteadyLabourMissed()
    ensures !FiveOneOne(EveryFourAndAHalf)
    ensures SustainedPattern(EveryFourAndAHalf)
  {
    var rs := EveryFourAndAHalf;
    assert Abs(rs[0].startMs - rs[11].startMs) == 2970000;
    assert forall i :: 0 <= i < 13 ==> Gap(rs, i) == 270000;
    assert Abs(rs[0].startMs - rs[13].startMs) == 3510000;
    assert SteadyRun(rs, 13);
  }

  /** Records `0..k` keep the pattern: each lasts a minute and adjacent
      starts are at most five minutes apart. */
  predicate SteadyRun(records: seq<ContractionRecord>, k: int) {
    && 0 <= k < |records|
    && (forall i :: 0 <= i <= k ==> LongEnough(records[i]))
    && (forall i :: 0 <= i < k ==> Gap(records, i) <= MaxGapMs)
  }

  /** The rule as a 5-1-1 alert means it: the most recent contractions keep
      the pattern over a stretch of at least 55 minutes, however many of
      them that takes. */
  predicate SustainedPattern(records: seq<ContractionRecord>) {
    exists k :: 0 <= k < |records| && SteadyRun(records, k) && Abs(records[0].startMs - records[k].startMs) >= MinSpanMs
  }

  /** The corrected check: walk back from the newest record while the
      pattern holds, and answer yes once the stretch reaches 55 minutes. */
  method CheckSustainedPattern(records: seq<ContractionRecord>) returns (r: bool)
    ensures r <==> SustainedPattern(records)
  {
    var k := 0;
    while k < |records|
      invariant 0 <= k <= |records|
      invariant k > 0 ==> SteadyRun(records, k - 1)
      invariant forall j :: 0 <= j < k ==> Abs(records[0].startMs - records[j].startMs) < MinSpanMs
    {
      if !LongEnough(records[k]) {
        assert forall j :: k <= j < |records| ==> !SteadyRun(records, j);
        return false;
      }
      if k > 0 && Gap(records, k - 1) > MaxGapMs {
        assert forall j :: k <= j < |records| ==> !SteadyRun(records, j);
        return false;
      }
      if Abs(records[0].startMs - records[k].startMs) >= MinSpanMs {
        assert SteadyRun(records, k);
        return true;
      }
      k := k + 1;
    }
    return false;
  }

  /** Whatever fires as written also fires under the corrected rule. */
  lemma FiveOneOneIsSustained(records: seq<ContractionRecord>)
    requires FiveOneOne(records)
    ensures SustainedPattern(records)
  {
    assert SteadyRun(records, PatternSize - 1);
  }
}
