/** The sentiment statistics of `_generate_sentiment_chart` and
    `_generate_full_report`: three bands against the thresholds
    `(low, high)`, a label per score, and the overview numbers. Scores are
    real numbers; the floating-point rounding of Python's floats is not
    modelled. */
module Sentiment {

  /** 负面, 中性 and 正面. */
  datatype Band = Negative | Neutral | Positive

  /** The chart's test for a band: `s < low`, `low <= s <= high`, `s > high`. */
  predicate InChartBand(x: real, b: Band, low: real, high: real)
  {
    match b
    case Negative => x < low
    case Neutral => low <= x <= high
    case Positive => x > high
  }

  /** `sum(1 for s in sentiments if <test of band b>)`, one of the three
      values of the chart's `counts`. */
  function ChartCount(s: seq<real>, b: Band, low: real, high: real): (n: nat)
    ensures n <= |s|
  {
    if s == [] then 0
    else (if InChartBand(s[0], b, low, high) then 1 else 0) + ChartCount(s[1..], b, low, high)
  }

  /** The report's label of one score: '正面' above `high`, else '中性' from
      `low` on, else '负面'. */
  function Label(x: real, low: real, high: real): Band
  {
    if x > high then Positive else if x >= low then Neutral else Negative
  }

  function Labels(s: seq<real>, low: real, high: real): (ls: seq<Band>)
    ensures |ls| == |s|
    ensures forall i :: 0 <= i < |s| ==> ls[i] == Label(s[i], low, high)
  {
    if s == [] then [] else [Label(s[0], low, high)] + Labels(s[1..], low, high)
  }

  function Occurrences(ls: seq<Band>, b: Band): nat
  {
    if ls == [] then 0 else (if ls[0] == b then 1 else 0) + Occurrences(ls[1..], b)
  }

  /** With ordered thresholds a score gets the label of the one chart band
      that counts it. */
  lemma LabelIsChartBand(x: real, low: real, high: real)
    requires low <= high
    ensures forall b :: Label(x, low, high) == b <==> InChartBand(x, b, low, high)
  {
    forall b ensures Label(x, low, high) == b <==> InChartBand(x, b, low, high) {
      match b
      case Negative =>
      case Neutral =>
      case Positive =>
    }
  }

  /** With ordered thresholds the three chart counts add up to the number of
      scores: every score lands in exactly one band. */
  lemma {:induction false} BandsPartition(s: seq<real>, low: real, high: real)
    requires low <= high
    ensures ChartCount(s, Negative, low, high) + ChartCount(s, Neutral, low, high)
            + ChartCount(s, Positive, low, high) == |s|
    decreases |s|
  {
    if s != [] {
      BandsPartition(s[1..], low, high);
    }
  }

  /** With ordered thresholds the labels of the report sheet agree with the
      chart: as many scores carry each label as the chart counts in that
      band. */
  lemma {:induction false} LabelsMatchChart(s: seq<real>, low: real, high: real, b: Band)
    requires low <= high
    ensures Occurrences(Labels(s, low, high), b) == ChartCount(s, b, low, high)
    decreases |s|
  {
    if s != [] {
      LabelIsChartBand(s[0], low, high);
      LabelsMatchChart(s[1..], low, high, b);
    }
  }

  /** The number of scores strictly between `a` and `b`. */
  function CountBetween(s: seq<real>, a: real, b: real): nat
  {
    if s == [] then 0 else (if a < s[0] < b then 1 else 0) + CountBetween(s[1..], a, b)
  }

  /** Reversed thresholds break the partition: the chart counts every score
      strictly between them twice, as negative and as positive, and every
      other score once. */
  lemma {:induction false} ReversedThresholdsOvercount(s: seq<real>, low: real, high: real)
    requires high < low
    ensures ChartCount(s, Negative, low, high) + ChartCount(s, Neutral, low, high)
            + ChartCount(s, Positive, low, high) == |s| + CountBetween(s, high, low)
    decreases |s|
  {
    if s != [] {
      ReversedThresholdsOvercount(s[1..], low, high);
    }
  }

  function Sum(s: seq<real>): real
  {
    if s == [] then 0.0 else s[0] + Sum(s[1..])
  }

  lemma {:induction false} SumOfUnitScores(s: seq<real>)
    requires forall i :: 0 <= i < |s| ==> 0.0 <= s[i] <= 1.0
    ensures 0.0 <= Sum(s) <= |s| as real
    decreases |s|
  {
    if s != [] {
      SumOfUnitScores(s[1..]);
    }
  }

  /** The '统计概览' sheet: number of scores, mean score, share of positive
      and share of negative scores. */
  datatype Summary = Summary(total: nat, average: real, positiveRate: real, negativeRate: real)

  /** The overview divides by `len(sentiments)`, so it exists only for a
      non-empty list; the two shares are fractions of the scores and, with
      ordered thresholds, never add up to more than the whole. */
  function Summarize(s: seq<real>, low: real, high: real): (r: Summary)
    requires |s| > 0
    ensures r.total == |s|
    ensures 0.0 <= r.positiveRate <= 1.0 && 0.0 <= r.negativeRate <= 1.0
    ensures low <= high ==> r.positiveRate + r.negativeRate <= 1.0
    ensures (forall i :: 0 <= i < |s| ==> 0.0 <= s[i] <= 1.0) ==> 0.0 <= r.average <= 1.0
  {
    var n := |s| as real;
    var positive := ChartCount(s, Positive, low, high) as real;
    var negative := ChartCount(s, Negative, low, high) as real;
    ShareBounds(positive, n);
    ShareBounds(negative, n);
    assert low <= high ==> positive / n + negative / n <= 1.0 by {
      if low <= high {
        BandsPartition(s, low, high);
        SharesAdd(positive, negative, n);
        ShareBounds(positive + negative, n);
      }
    }
    assert (forall i :: 0 <= i < |s| ==> 0.0 <= s[i] <= 1.0) ==> 0.0 <= Sum(s) / n <= 1.0 by {
      if forall i :: 0 <= i < |s| ==> 0.0 <= s[i] <= 1.0 {
        SumOfUnitScores(s);
        ShareBounds(Sum(s), n);
      }
    }
    Summary(|s|, Sum(s) / n, positive / n, negative / n)
  }

  /** A part of a positive whole is a share between 0 and 1 of it. */
  lemma ShareBounds(a: real, n: real)
    requires n > 0.0
    ensures 0.0 <= a <= n ==> 0.0 <= a / n <= 1.0
  {
    var q := a / n;
    assert q * n == a;
  }

  /** Shares of the same whole add up. */
  lemma SharesAdd(a: real, b: real, n: real)
    requires n > 0.0
    ensures a / n + b / n == (a + b) / n
  {
    var p, q := a / n, b / n;
    assert p * n == a && q * n == b;
    assert (p + q) * n == a + b;
  }
}
