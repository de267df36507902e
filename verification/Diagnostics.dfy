/** Off-policy diagnostics: what one micro-batch reports, how reports accumulate over
    micro-batches and ranks, and the metrics read off the total. */
module Diagnostics {
  import opened Histogram
  import opened Wrappers
  import opened Sequences

  /** One token: its importance ratio, its advantage, and whether it is trained on. */
  datatype Sample = Sample(ratio: real, advantage: real, assistant: bool, weight: real)

  datatype Clip = Clip(ppo: bool, epsilon: real, epsilonHigh: real)

  datatype Report = Report(ratioSum: real, clipped: nat, tokens: nat, histogram: Counts)

  datatype Metrics = Metrics(ratioMean: real, p95: real, p99: real, clippedFraction: real)

  predicate Trained(s: Sample) {
    s.assistant && s.weight != 0.0
  }

  function TrainedOnly(samples: seq<Sample>): (t: seq<Sample>)
    ensures forall s :: s in t ==> Trained(s)
  {
    if samples == [] then []
    else if Trained(samples[0]) then [samples[0]] + TrainedOnly(samples[1..])
    else TrainedOnly(samples[1..])
  }

  function Ratios(samples: seq<Sample>): (r: seq<real>)
    ensures |r| == |samples|
  {
    seq(|samples|, i requires 0 <= i < |samples| => samples[i].ratio)
  }

  function SumOf(x: seq<real>): real {
    if x == [] then 0.0 else x[0] + SumOf(x[1..])
  }

  predicate Clipped(s: Sample, c: Clip) {
    var lower, upper := 1.0 - c.epsilon, 1.0 + c.epsilonHigh;
    if c.ppo then (s.advantage > 0.0 && s.ratio > upper) || (s.advantage < 0.0 && s.ratio < lower)
    else s.ratio < lower || s.ratio > upper
  }

  function ClippedCount(samples: seq<Sample>, c: Clip): nat {
    if samples == [] then 0 else (if Clipped(samples[0], c) then 1 else 0) + ClippedCount(samples[1..], c)
  }

  function Empty(e: seq<real>): Report {
    Report(0.0, 0, 0, seq(|e| + 1, _ => 0))
  }

  function FromSamples(samples: seq<Sample>, c: Clip, e: seq<real>): (r: Report)
    requires Edges(e)
    ensures |r.histogram| == |e| + 1
  {
    var t := TrainedOnly(samples);
    if t == [] then Empty(e)
    else Report(SumOf(Ratios(t)), ClippedCount(t, c), |t|, Count(Ratios(t), e))
  }

  function Plus(a: Report, b: Report): (r: Report)
    requires |a.histogram| == |b.histogram|
    ensures |r.histogram| == |a.histogram|
  {
    Report(a.ratioSum + b.ratioSum, a.clipped + b.clipped, a.tokens + b.tokens, Merge(a.histogram, b.histogram))
  }

  function ReadOff(r: Report, e: seq<real>): Metrics
    requires Edges(e) && |r.histogram| == |e| + 1
  {
    var denominator := if r.tokens < 1 then 1.0 else r.tokens as real;
    Metrics(r.ratioSum / denominator, Quantile(r.histogram, e, 0.95), Quantile(r.histogram, e, 0.99),
            r.clipped as real / denominator)
  }

  /** Accumulates the reports of one rank. */
  class Accumulator {
    var total: Option<Report>

    constructor ()
      ensures total == None
    {
      total := None;
    }

    /** Nothing to add changes nothing; the first report is taken as it is. */
    method Add(report: Option<Report>)
      requires report.Some? && total.Some? ==> |report.value.histogram| == |total.value.histogram|
      modifies this
      ensures report.None? ==> total == old(total)
      ensures report.Some? ==>
        total == Some(if old(total).Some? then Plus(old(total).value, report.value) else report.value)
    {
      if report.None? {
        return;
      }
      if total.None? {
        total := report;
        return;
      }
      total := Some(Plus(total.value, report.value));
    }

    /** The metrics, after the reports of the other ranks have been summed in; none before any report. */
    method ToMetrics(others: seq<Report>, e: seq<real>) returns (metrics: Option<Metrics>)
      requires Edges(e) && (total.Some? ==> |total.value.histogram| == |e| + 1)
      requires forall r :: r in others ==> |r.histogram| == |e| + 1
      ensures metrics.None? <==> total.None?
      ensures total.Some? ==> metrics == Some(ReadOff(SumReports(total.value, others), e))
    {
      if total.None? {
        return None;
      }
      var sum := total.value;
      for k := 0 to |others|
        invariant |sum.histogram| == |e| + 1
        invariant SumReports(total.value, others) == SumReports(sum, others[k..])
      {
        assert others[k..][1..] == others[k + 1..];
        sum := Plus(sum, others[k]);
      }
      metrics := Some(ReadOff(sum, e));
    }

    /** One rank's training step: a report from every micro-batch. */
    method AddAll(batches: seq<seq<Sample>>, c: Clip, e: seq<real>)
      requires Edges(e) && total.None?
      modifies this
      ensures total == if batches == [] then None else Some(FromSamples(Concat(batches), c, e))
    {
      for k := 0 to |batches|
        invariant total == if k == 0 then None else Some(FromSamples(Concat(batches[..k]), c, e))
      {
        Add(Some(FromSamples(batches[k], c, e)));
        assert batches[..k + 1] == batches[..k] + [batches[k]];
        ConcatSnoc(batches[..k], batches[k]);
        assert k == 0 ==> Concat(batches[..k]) + batches[k] == batches[k];
        ReportsAdd(Concat(batches[..k]), batches[k], c, e);
      }
      assert batches[..|batches|] == batches;
    }
  }

  function SumReports(first: Report, others: seq<Report>): (r: Report)
    requires forall o :: o in others ==> |o.histogram| == |first.histogram|
    ensures |r.histogram| == |first.histogram|
    decreases |others|
  {
    if others == [] then first else SumReports(Plus(first, others[0]), others[1..])
  }

  lemma {:induction false} TrainedOnlyAdds(a: seq<Sample>, b: seq<Sample>)
    ensures TrainedOnly(a + b) == TrainedOnly(a) + TrainedOnly(b)
  {
    if a == [] {
      assert [] + b == b;
    } else {
      assert (a + b)[1..] == a[1..] + b;
      TrainedOnlyAdds(a[1..], b);
    }
  }

  lemma {:induction false} SumAdds(a: seq<real>, b: seq<real>)
    ensures SumOf(a + b) == SumOf(a) + SumOf(b)
  {
    if a == [] {
      assert [] + b == b;
    } else {
      assert (a + b)[1..] == a[1..] + b;
      SumAdds(a[1..], b);
    }
  }

  lemma {:induction false} ClippedAdds(a: seq<Sample>, b: seq<Sample>, c: Clip)
    ensures ClippedCount(a + b, c) == ClippedCount(a, c) + ClippedCount(b, c)
  {
    if a == [] {
      assert [] + b == b;
    } else {
      assert (a + b)[1..] == a[1..] + b;
      ClippedAdds(a[1..], b, c);
    }
  }

  lemma {:induction false} CountInAdds(a: seq<real>, b: seq<real>, e: seq<real>, k: nat)
    requires Edges(e)
    ensures CountIn(a + b, e, k) == CountIn(a, e, k) + CountIn(b, e, k)
  {
    if a == [] {
      assert [] + b == b;
    } else {
      assert (a + b)[1..] == a[1..] + b;
      CountInAdds(a[1..], b, e, k);
    }
  }

  lemma CountAdds(a: seq<real>, b: seq<real>, e: seq<real>)
    requires Edges(e)
    ensures Count(a + b, e) == Merge(Count(a, e), Count(b, e))
  {
    forall k | 0 <= k < |e| + 1 ensures Count(a + b, e)[k] == Merge(Count(a, e), Count(b, e))[k] {
      CountInAdds(a, b, e, k);
    }
  }

  /** A report without the shortcut for no trained token says the same. */
  lemma ReportOf(samples: seq<Sample>, c: Clip, e: seq<real>)
    requires Edges(e)
    ensures var t := TrainedOnly(samples);
      FromSamples(samples, c, e) == Report(SumOf(Ratios(t)), ClippedCount(t, c), |t|, Count(Ratios(t), e))
  {
    assert Count([], e) == seq(|e| + 1, _ => 0);
  }

  /** The report of two micro-batches together is the sum of their reports. */
  lemma ReportsAdd(a: seq<Sample>, b: seq<Sample>, c: Clip, e: seq<real>)
    requires Edges(e)
    ensures FromSamples(a + b, c, e) == Plus(FromSamples(a, c, e), FromSamples(b, c, e))
  {
    var s, t := TrainedOnly(a), TrainedOnly(b);
    TrainedOnlyAdds(a, b);
    ReportOf(a, c, e);
    ReportOf(b, c, e);
    ReportOf(a + b, c, e);
    assert Ratios(s + t) == Ratios(s) + Ratios(t);
    SumAdds(Ratios(s), Ratios(t));
    ClippedAdds(s, t, c);
    CountAdds(Ratios(s), Ratios(t), e);
  }

  // --------------------------------------------------------- what a report counts

  /** At how many places the samples are of this kind. */
  ghost function HowMany(samples: seq<Sample>, kind: Sample -> bool): nat {
    |set i | 0 <= i < |samples| && kind(samples[i])|
  }

  lemma HowManyOneMore(samples: seq<Sample>, last: Sample, kind: Sample -> bool)
    ensures HowMany(samples + [last], kind) == HowMany(samples, kind) + if kind(last) then 1 else 0
  {
    var n := |samples|;
    var before := set i | 0 <= i < n && kind(samples[i]);
    var after := set i | 0 <= i < n + 1 && kind((samples + [last])[i]);
    assert after == if kind(last) then before + {n} else before;
  }

  /** The value is in bucket `k`: above the edge before it and not above its own. */
  ghost predicate FallsIn(v: real, e: seq<real>, k: nat) {
    k <= |e| && (k > 0 ==> e[k - 1] < v) && (k < |e| ==> v <= e[k])
  }

  /** PPO counts a ratio that the advantage pushes further out of the range, the others every ratio out of it. */
  ghost predicate PushedOut(s: Sample, c: Clip) {
    var low, high := 1.0 - c.epsilon, 1.0 + c.epsilonHigh;
    if c.ppo then (if s.advantage > 0.0 then s.ratio > high else s.advantage < 0.0 && s.ratio < low)
    else !(low <= s.ratio <= high)
  }

  ghost function RatioTotal(samples: seq<Sample>): real {
    if samples == [] then 0.0
    else
      var last := samples[|samples| - 1];
      RatioTotal(samples[..|samples| - 1]) + if last.assistant && last.weight != 0.0 then last.ratio else 0.0
  }

  /** A report says of the tokens that are the assistant's and have a weight how many they are, what
      their ratios add up to, how many are pushed out of the range, and how many fall into a bucket. */
  ghost predicate Reports(r: Report, samples: seq<Sample>, c: Clip, e: seq<real>) {
    && r.tokens == HowMany(samples, (s: Sample) => s.assistant && s.weight != 0.0)
    && r.clipped == HowMany(samples, (s: Sample) => s.assistant && s.weight != 0.0 && PushedOut(s, c))
    && r.ratioSum == RatioTotal(samples)
    && |r.histogram| == |e| + 1
    && forall k | 0 <= k <= |e| :: r.histogram[k] == InBucket(samples, e, k)
  }

  ghost function InBucket(samples: seq<Sample>, e: seq<real>, k: nat): nat {
    HowMany(samples, (s: Sample) => s.assistant && s.weight != 0.0 && FallsIn(s.ratio, e, k))
  }

  lemma ReportOfOne(s: Sample, c: Clip, e: seq<real>)
    requires Edges(e)
    ensures var r := FromSamples([s], c, e);
      var counts := s.assistant && s.weight != 0.0;
      && r.tokens == (if counts then 1 else 0) && r.ratioSum == (if counts then s.ratio else 0.0)
      && r.clipped == (if counts && PushedOut(s, c) then 1 else 0)
      && forall k | 0 <= k <= |e| :: r.histogram[k] == if counts && FallsIn(s.ratio, e, k) then 1 else 0
  {
    ReportOf([s], c, e);
    assert [s][1..] == [] && TrainedOnly([s]) == if Trained(s) then [s] else [];
    assert Ratios([s]) == [s.ratio] && Ratios([]) == [] && [s.ratio][1..] == [];
    assert SumOf([s.ratio]) == s.ratio && ClippedCount([s], c) == if Clipped(s, c) then 1 else 0;
    forall k | 0 <= k <= |e|
      ensures CountIn([s.ratio], e, k) == if FallsIn(s.ratio, e, k) then 1 else 0
      ensures CountIn([], e, k) == 0
    {
    }
    hide FromSamples, CountIn, SumOf, TrainedOnly, ClippedCount;
  }

  lemma {:induction false} ReportCounts(samples: seq<Sample>, c: Clip, e: seq<real>)
    requires Edges(e)
    ensures Reports(FromSamples(samples, c, e), samples, c, e)
  {
    if samples == [] {
      assert forall kind :: HowMany([], kind) == 0;
    } else {
      var n := |samples| - 1;
      var before, last := samples[..n], samples[n];
      assert samples == before + [last];
      ReportCounts(before, c, e);
      ReportsAdd(before, [last], c, e);
      ReportOfOne(last, c, e);
      HowManyOneMore(before, last, (s: Sample) => s.assistant && s.weight != 0.0);
      HowManyOneMore(before, last, (s: Sample) => s.assistant && s.weight != 0.0 && PushedOut(s, c));
      forall k | 0 <= k <= |e|
        ensures InBucket(samples, e, k) == InBucket(before, e, k) +
          if last.assistant && last.weight != 0.0 && FallsIn(last.ratio, e, k) then 1 else 0
      {
        HowManyOneMore(before, last, (s: Sample) => s.assistant && s.weight != 0.0 && FallsIn(s.ratio, e, k));
      }
      hide FromSamples, HowMany, PushedOut, FallsIn;
    }
  }

  lemma {:induction false} NothingCounted(n: nat)
    ensures Total(seq(n, _ => 0)) == 0
  {
    if n > 0 {
      NothingCounted(n - 1);
      assert seq(n, _ => 0)[1..] == seq(n - 1, _ => 0);
    }
  }

  /** The mean ratio and the clipped fraction are over the tokens, if there are any, and zero otherwise;
      the quantiles are the 95th and the 99th percentile. */
  lemma MetricsAre(samples: seq<Sample>, c: Clip, e: seq<real>)
    requires Edges(e)
    ensures var r := FromSamples(samples, c, e);
      var m := ReadOff(r, e);
      && (r.tokens > 0 ==> m.ratioMean * r.tokens as real == r.ratioSum)
      && (r.tokens > 0 ==> m.clippedFraction * r.tokens as real == r.clipped as real)
      && (r.tokens == 0 ==> m.ratioMean == m.clippedFraction == m.p95 == m.p99 == 0.0)
      && m.p95 == Quantile(r.histogram, e, 0.95) && m.p99 == Quantile(r.histogram, e, 0.99)
  {
    ReportOf(samples, c, e);
    NothingCounted(|e| + 1);
    hide Histogram.Count, Total;
  }

  /** What one rank has accumulated, if it has accumulated anything. */
  function RankReports(ranks: seq<seq<seq<Sample>>>, c: Clip, e: seq<real>): (r: seq<Report>)
    requires Edges(e)
    ensures |r| == |ranks| && forall k :: 0 <= k < |r| ==> |r[k].histogram| == |e| + 1
  {
    seq(|ranks|, k requires 0 <= k < |ranks| => FromSamples(Concat(ranks[k]), c, e))
  }

  function AllSamples(ranks: seq<seq<seq<Sample>>>): seq<Sample> {
    if ranks == [] then [] else Concat(ranks[0]) + AllSamples(ranks[1..])
  }

  lemma NextRank(first: seq<Sample>, ranks: seq<seq<seq<Sample>>>, c: Clip, e: seq<real>)
    requires Edges(e) && ranks != []
    ensures RankReports(ranks, c, e)[0] == FromSamples(Concat(ranks[0]), c, e)
    ensures RankReports(ranks, c, e)[1..] == RankReports(ranks[1..], c, e)
    ensures first + Concat(ranks[0]) + AllSamples(ranks[1..]) == first + AllSamples(ranks)
  {
    hide FromSamples, Concat;
  }

  lemma {:induction false} RanksAdd(first: seq<Sample>, ranks: seq<seq<seq<Sample>>>, c: Clip, e: seq<real>)
    requires Edges(e)
    ensures SumReports(FromSamples(first, c, e), RankReports(ranks, c, e)) ==
      FromSamples(first + AllSamples(ranks), c, e)
    decreases |ranks|
  {
    hide FromSamples, Plus, Concat, Edges, RankReports;
    if ranks == [] {
      assert first + [] == first;
    } else {
      hide AllSamples;
      var next := Concat(ranks[0]);
      ReportsAdd(first, next, c, e);
      NextRank(first, ranks, c, e);
      RanksAdd(first + next, ranks[1..], c, e);
    }
  }

  lemma SumsOne(a: Report, b: Report, c: Report)
    requires |a.histogram| == |b.histogram| == |c.histogram|
    ensures Plus(a, b) == Plus(b, a) && Plus(Plus(a, b), c) == Plus(a, Plus(b, c))
  {
  }

  lemma {:induction false} SumTakesOut(a: Report, b: Report, others: seq<Report>)
    requires |a.histogram| == |b.histogram| && forall o :: o in others ==> |o.histogram| == |b.histogram|
    ensures SumReports(Plus(a, b), others) == Plus(a, SumReports(b, others))
    decreases |others|
  {
    if others != [] {
      SumsOne(a, b, others[0]);
      SumTakesOut(a, Plus(b, others[0]), others[1..]);
      hide Plus;
    }
  }

  /** The sum over the ranks is the same whichever rank it starts from. */
  lemma {:induction false} AnyRankFirst(reports: seq<Report>, k: nat)
    requires k < |reports| && forall r :: r in reports ==> |r.histogram| == |reports[0].histogram|
    ensures SumReports(reports[k], Without(reports, k)) == SumReports(reports[0], reports[1..])
  {
    if k == 0 {
      assert Without(reports, k) == reports[1..];
    } else {
      var rest := reports[1..];
      assert Without(reports, k) == [reports[0]] + Without(rest, k - 1);
      assert forall r :: r in Without(rest, k - 1) ==> r in rest && r in reports;
      SumsOne(reports[k], reports[0], reports[0]);
      SumTakesOut(reports[0], reports[k], Without(rest, k - 1));
      AnyRankFirst(rest, k - 1);
      SumTakesOut(reports[0], rest[0], rest[1..]);
      hide Plus;
    }
  }

  /** Accumulating micro-batches on every rank and summing over the ranks, from whichever rank, gives
      the metrics of one report over all tokens, and the 95th percentile is not above the 99th. */
  lemma DistributedMetricsAreOneShot(ranks: seq<seq<seq<Sample>>>, k: nat, c: Clip, e: seq<real>)
    requires Edges(e) && k < |ranks|
    ensures var reports := RankReports(ranks, c, e);
      var m := ReadOff(SumReports(reports[k], Without(reports, k)), e);
      m == ReadOff(FromSamples(AllSamples(ranks), c, e), e) && m.p95 <= m.p99
  {
    hide FromSamples, Concat, Quantile, Plus, RankReports;
    var reports := RankReports(ranks, c, e);
    AnyRankFirst(reports, k);
    NextRank([], ranks, c, e);
    RanksAdd(Concat(ranks[0]), ranks[1..], c, e);
    assert [] + AllSamples(ranks) == AllSamples(ranks);
    assert [] + Concat(ranks[0]) == Concat(ranks[0]);
    QuantileIsMonotone(SumReports(reports[0], reports[1..]).histogram, e, 0.95, 0.99);
  }

  /** One rank's training step, while every other rank does the same: each adds its micro-batches, and
      what they have added is summed over all.  Every rank gets the metrics of one report over all
      tokens of all ranks. */
  method RankMetrics(ranks: seq<seq<seq<Sample>>>, k: nat, c: Clip, e: seq<real>) returns (metrics: Option<Metrics>)
    requires Edges(e) && k < |ranks| && forall r <- ranks :: r != []
    ensures metrics == Some(ReadOff(FromSamples(AllSamples(ranks), c, e), e))
  {
    hide FromSamples, Concat, Edges, SumReports, AllSamples, ReadOff;
    var accumulator := new Accumulator();
    assert ranks[k] in ranks;
    accumulator.AddAll(ranks[k], c, e);
    DistributedMetricsAreOneShot(ranks, k, c, e);
    metrics := accumulator.ToMetrics(Without(RankReports(ranks, c, e), k), e);
  }
}
