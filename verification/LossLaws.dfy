/** What the policy loss of a token is, said of the ratio, the advantage and the configuration alone. */
module LossLaws {
  import opened Histogram
  import opened Diagnostics
  import opened Wrappers
  import opened PolicyLoss

  /** How the loss of one token comes about: the bounds of the clipping range, the ratio after its cap, after
      masking and after clipping, the loss before truncation, and the factor of truncation. */
  datatype Parts = Parts(low: real, high: real, capped: real, ratio: real, clipped: real, loss: real, factor: real)

  /** The clipping range: 0.2 to either side for PPO; else from 0 to 5; a missing upper one is the lower one. */
  ghost predicate RangeIs(c: Config, p: Parts) {
    && p.low == 1.0 - (if c.epsilon.Some? then c.epsilon.value else if c.ppo then 0.2 else 1.0)
    && match c.epsilonHigh
       case Given(v) => p.high == 1.0 + v
       case Null => p.high - 1.0 == 1.0 - p.low
       case Default => if c.ppo then p.high - 1.0 == 1.0 - p.low else p.high == 5.0
  }

  /** The ratio is capped from above, and with masking it is zero outside the open range. */
  ghost predicate RatioIs(c: Config, raw: real, p: Parts) {
    && (c.maxNegative == 0.0 ==> p.capped == raw)
    && (c.maxNegative != 0.0 ==> p.capped <= raw && p.capped <= c.maxNegative && p.capped in {raw, c.maxNegative})
    && (!c.maskRatio || p.low < p.capped < p.high ==> p.ratio == p.capped)
    && (c.maskRatio && !(p.low < p.capped < p.high) ==> p.ratio == 0.0)
  }

  /** The clipped ratio is the nearest to the ratio in the range. */
  ghost predicate ClippedIs(p: Parts) {
    && (p.low <= p.ratio <= p.high ==> p.clipped == p.ratio)
    && (p.ratio > p.high ==> p.clipped == p.high)
    && (p.ratio < p.low <= p.high ==> p.clipped == p.low)
    && (p.high < p.low ==> p.clipped == p.high)
  }

  /** PPO takes the larger of the losses with and without clipping; else the clipped ratio weighs the logprob. */
  ghost predicate LossIs(c: Config, advantage: real, logprob: real, p: Parts) {
    if c.ppo then
      && p.loss >= -(p.ratio * advantage) && p.loss >= -(p.clipped * advantage)
      && p.loss in {-(p.ratio * advantage), -(p.clipped * advantage)}
    else p.loss == -(p.clipped * advantage * logprob)
  }

  /** Truncation takes the smaller of its ratio and its bound. */
  ghost predicate FactorIs(c: Config, truncation: real, p: Parts) {
    && (c.truncated == 0.0 ==> p.factor == 1.0)
    && (c.truncated != 0.0 ==>
         p.factor <= truncation && p.factor <= c.truncated && p.factor in {truncation, c.truncated})
  }

  /** The old logprob of an assistant's position, or the current one where it is missing. */
  ghost predicate BeforeIs(x: Inputs, y: Outputs, i: nat, before: real)
    requires Aligned(x, y) && i < |x.mask|
  {
    match x.sampled[i] case Some(v) => before == v case None => before == y.current[i]
  }

  lemma RangeOf(c: Config, p: Parts)
    requires p.low == 1.0 - Epsilon(c) && p.high == 1.0 + EpsilonHigh(c)
    ensures RangeIs(c, p)
  {
  }

  lemma RatioOf(c: Config, raw: real, p: Parts)
    requires p.low == 1.0 - Epsilon(c) && p.high == 1.0 + EpsilonHigh(c) && p.ratio == Ratio(c, raw)
    requires p.capped == if c.maxNegative != 0.0 then AtMost(raw, c.maxNegative) else raw
    ensures RatioIs(c, raw, p)
  {
    hide Epsilon, EpsilonHigh;
  }

  lemma LargerOfBoth(u: real, v: real)
    ensures -Min(u, v) >= -u && -Min(u, v) >= -v && -Min(u, v) in {-u, -v}
  {
  }

  lemma ClippedOf(p: Parts)
    requires p.clipped == PolicyLoss.Clamp(p.ratio, p.low, p.high)
    ensures ClippedIs(p)
  {
  }

  lemma FactorOf(c: Config, truncation: real, p: Parts)
    requires p.factor == if c.truncated != 0.0 then AtMost(truncation, c.truncated) else 1.0
    ensures FactorIs(c, truncation, p)
  {
  }

  lemma PartsOfOne(c: Config, raw: real, advantage: real, logprob: real, truncation: real) returns (p: Parts)
    ensures RangeIs(c, p) && RatioIs(c, raw, p) && ClippedIs(p) && LossIs(c, advantage, logprob, p)
    ensures FactorIs(c, truncation, p) && p.ratio == Ratio(c, raw)
    ensures Surrogate(c, raw, advantage, logprob, truncation) == p.loss * p.factor
  {
    hide Ratio, Epsilon, EpsilonHigh, RangeIs, RatioIs, ClippedIs, FactorIs, PolicyLoss.Clamp;
    var low, high := 1.0 - Epsilon(c), 1.0 + EpsilonHigh(c);
    var ratio := Ratio(c, raw);
    var clipped := PolicyLoss.Clamp(ratio, low, high);
    var u, v, w := ratio * advantage, clipped * advantage, clipped * advantage * logprob;
    var loss := if c.ppo then -Min(u, v) else -w;
    var factor := if c.truncated != 0.0 then AtMost(truncation, c.truncated) else 1.0;
    assert Surrogate(c, raw, advantage, logprob, truncation) == if c.truncated != 0.0 then loss * factor else loss;
    LargerOfBoth(u, v);
    var capped := if c.maxNegative != 0.0 then AtMost(raw, c.maxNegative) else raw;
    hide Surrogate, Min, AtMost;
    p := Parts(low, high, capped, ratio, clipped, loss, factor);
    assert LossIs(c, advantage, logprob, p);
    RangeOf(c, p);
    RatioOf(c, raw, p);
    ClippedOf(p);
    FactorOf(c, truncation, p);
  }

  lemma PartsOf(b: Borrowed, c: Config, x: Inputs, y: Outputs, i: nat) returns (p: Parts)
    requires Aligned(x, y) && Shaped(b, |x.mask|) && i < |x.mask|
    ensures RangeIs(c, p) && RatioIs(c, RawRatios(b, c, x, y)[i], p) && ClippedIs(p)
    ensures x.mask[i] ==> LossIs(c, Advantages(c, x, y)[i], y.current[i], p)
    ensures FactorIs(c, TruncationRatios(b, c, x, y)[i], p)
    ensures TokenLosses(b, c, x, y)[i] == if x.mask[i] then p.loss * p.factor * x.weights[i] else 0.0
    ensures x.original.None? ==> TruncationRatios(b, c, x, y)[i] == p.ratio
  {
    hide RawRatios, Advantages, Surrogate, RangeIs, RatioIs, ClippedIs, LossIs, FactorIs, Ratio, Old;
    p := PartsOfOne(c, RawRatios(b, c, x, y)[i], Advantages(c, x, y)[i], Masked(y.current, x.mask)[i],
                    TruncationRatios(b, c, x, y)[i]);
  }

  /** With the original logprobs at hand, truncation looks at the old policy against the original one. */
  lemma TruncationIs(b: Borrowed, c: Config, x: Inputs, y: Outputs, i: nat) returns (before: real)
    requires Aligned(x, y) && Shaped(b, |x.mask|) && i < |x.mask| && x.mask[i] && x.original.Some?
    ensures BeforeIs(x, y, i, before)
    ensures TruncationRatios(b, c, x, y)[i] ==
      b.exp(before - match x.original.value[i] case Some(v) => v case None => y.current[i])
  {
    before := Old(x, y)[i];
  }

  // ------------------------------------------------------------- ratios and advantages

  /** The differences of the logprobs, zero where nothing counts. */
  ghost predicate DifferencesAre(x: Inputs, y: Outputs, d: seq<real>)
    requires Aligned(x, y)
  {
    |d| == |x.mask| && forall i :: 0 <= i < |d| ==>
      if x.mask[i] then BeforeIs(x, y, i, y.current[i] - d[i]) else d[i] == 0.0
  }

  lemma DifferencesOf(x: Inputs, y: Outputs)
    requires Aligned(x, y)
    ensures DifferencesAre(x, y, LogprobDiff(x, y))
  {
  }

  /** The importance ratio by token, by group, or as either mean of both. */
  lemma RawRatioIs(b: Borrowed, c: Config, x: Inputs, y: Outputs, i: nat) returns (d: seq<real>, g: seq<int>)
    requires Aligned(x, y) && Shaped(b, |x.mask|) && i < |x.mask|
    ensures DifferencesAre(x, y, d)
    ensures |g| == |x.mask| && forall j :: 0 <= j < |g| ==> g[j] == if x.mask[j] then x.groups[j] else 0
    ensures |b.groupMean(d, g)| == |x.mask|
    ensures var raw, token, group := RawRatios(b, c, x, y)[i], b.exp(d[i]), b.exp(b.groupMean(d, g)[i]);
      match c.level
      case Token => raw == token
      case Sequence => raw == group
      case Average => raw + raw == token + group
      case GeometricAverage => raw == b.root(token) * b.root(group)
  {
    d, g := LogprobDiff(x, y), MaskedGroups(x);
  }

  /** What one position diverges from the reference. */
  ghost predicate DivergesBy(c: Config, x: Inputs, y: Outputs, i: nat, kl: real)
    requires Aligned(x, y) && i < |x.mask| && y.ref.Some?
  {
    if !x.mask[i] then kl == 0.0
    else if c.klSource == SampledPolicy then BeforeIs(x, y, i, kl + y.ref.value[i])
    else kl + y.ref.value[i] == y.current[i]
  }

  ghost function Count(mask: seq<bool>): nat {
    if mask == [] then 0 else (if mask[0] then 1 else 0) + Count(mask[1..])
  }

  lemma {:induction false} IndicatorIsCount(mask: seq<bool>)
    ensures PolicyLoss.Sum(Indicator(mask)) == Count(mask) as real
  {
    if mask != [] {
      IndicatorIsCount(mask[1..]);
      assert Indicator(mask)[1..] == Indicator(mask[1..]);
    }
  }

  lemma DivergenceIs(c: Config, x: Inputs, y: Outputs, i: nat)
    requires Aligned(x, y) && y.ref.Some? && i < |x.mask|
    ensures DivergesBy(c, x, y, i, KlPerToken(c, x, y)[i])
  {
  }

  /** The average divergence is over the assistant's positions. */
  lemma AverageIs(c: Config, x: Inputs, y: Outputs)
    requires Aligned(x, y) && y.ref.Some?
    ensures AverageKl(c, x, y) * (Count(x.mask) as real + 0.000000000000000001) == PolicyLoss.Sum(KlPerToken(c, x, y))
  {
    IndicatorIsCount(x.mask);
    hide KlPerToken, Indicator, PolicyLoss.Sum;
  }

  /** An advantage is corrected by tau times the difference, and by the coefficient times what the position's
      divergence is below the average. */
  lemma AdvantageIs(c: Config, x: Inputs, y: Outputs, i: nat) returns (d: seq<real>)
    requires Aligned(x, y) && i < |x.mask| && x.mask[i]
    ensures d == LogprobDiff(x, y)
    ensures Advantages(c, x, y)[i] == x.advantages[i] - c.tau * d[i] +
      if c.klCoef > 0.0 && y.ref.Some? then c.klCoef * (AverageKl(c, x, y) - KlPerToken(c, x, y)[i]) else 0.0
  {
    d := LogprobDiff(x, y);
    hide AverageKl, KlPerToken, LogprobDiff;
    assert Penalized(c, y) ==> KlPenalty(c, x, y)[i] == c.klCoef * (AverageKl(c, x, y) - KlPerToken(c, x, y)[i]);
    hide KlPenalty;
  }

  // ---------------------------------------------------------------------- the totals

  /** The loss is the sum over the tokens, and with the mean reduction that over the count of the assistant's
      positions; likewise the entropy. */
  lemma TotalsAre(b: Borrowed, c: Config, r: Reduction, x: Inputs, y: Outputs, e: seq<real>)
    requires Aligned(x, y) && Shaped(b, |x.mask|) && Edges(e)
    ensures var loss, n := LossOf(b, c, r, x, y, e), Count(x.mask) as real + 0.000000000000000001;
      && loss.policyLossSum == PolicyLoss.Sum(TokenLosses(b, c, x, y))
      && (r == SumUp ==> loss.policyLoss == loss.policyLossSum)
      && (r == Mean ==> loss.policyLoss * n == loss.policyLossSum)
      && (loss.entropy.Some? <==> y.entropies.Some?) && (loss.klPolicyRef.Some? <==> c.klCoef > 0.0 && y.ref.Some?)
      && (y.entropies.Some? && r == SumUp ==> loss.entropy.value == PolicyLoss.Sum(TokenEntropies(x, y)))
      && (y.entropies.Some? && r == Mean ==> loss.entropy.value * n == PolicyLoss.Sum(TokenEntropies(x, y)))
      && (loss.klPolicyRef.Some? ==> loss.klPolicyRef.value == AverageKl(c, x, y))
  {
    IndicatorIsCount(x.mask);
    hide TokenLosses, TokenEntropies, AverageKl, ProbsCorr, Samples, FromSamples, Indicator;
  }

  /** The correlation is over the assistant's positions with an old logprob, in order, and zero for fewer than two. */
  lemma CorrelationIs(b: Borrowed, x: Inputs, y: Outputs) returns (at: seq<nat>, old': seq<real>, now: seq<real>)
    requires Aligned(x, y)
    ensures forall j, k :: 0 <= j < k < |at| ==> at[j] < at[k]
    ensures forall i: nat :: i in at <==> i < |x.mask| && x.mask[i] && x.sampled[i].Some?
    ensures |old'| == |now| == |at|
    ensures forall k :: 0 <= k < |at| ==>
      at[k] in at && old'[k] == b.exp(x.sampled[at[k]].value) && now[k] == b.exp(y.current[at[k]])
    ensures ProbsCorr(b, x, y) == if |at| < 2 then 0.0 else b.correlation(old', now)
  {
    at := KnownAt(x, y, 0);
    var known := Known(x, y, 0);
    old' := seq(|known.0|, i requires 0 <= i < |known.0| => b.exp(known.0[i]));
    now := seq(|known.1|, i requires 0 <= i < |known.1| => b.exp(known.1[i]));
    hide Known;
  }

  lemma {:induction false} KnownAt(x: Inputs, y: Outputs, from: nat) returns (at: seq<nat>)
    requires Aligned(x, y) && from <= |x.mask|
    ensures forall j, k :: 0 <= j < k < |at| ==> at[j] < at[k]
    ensures forall i: nat :: i in at <==> from <= i < |x.mask| && x.mask[i] && x.sampled[i].Some?
    ensures |Known(x, y, from).0| == |at| && forall k :: 0 <= k < |at| ==>
      at[k] in at && Known(x, y, from).0[k] == x.sampled[at[k]].value && Known(x, y, from).1[k] == y.current[at[k]]
    decreases |x.mask| - from
  {
    if from == |x.mask| {
      at := [];
    } else {
      var rest := KnownAt(x, y, from + 1);
      at := if x.mask[from] && x.sampled[from].Some? then [from] + rest else rest;
    }
  }

  lemma EntropyIs(x: Inputs, y: Outputs, i: nat)
    requires Aligned(x, y) && y.entropies.Some? && i < |x.mask|
    ensures TokenEntropies(x, y)[i] == if x.mask[i] then y.entropies.value[i] * x.weights[i] else 0.0
  {
  }

  // ------------------------------------------------------------------ the diagnostics

  /** What the diagnostics know of a position: the ratio before cap and masking, and the corrected advantage. */
  lemma DiagnosticsOf(b: Borrowed, c: Config, r: Reduction, x: Inputs, y: Outputs, e: seq<real>)
    returns (samples: seq<Sample>, clip: Clip)
    requires Aligned(x, y) && Shaped(b, |x.mask|) && Edges(e)
    ensures clip.ppo == c.ppo && RangeIs(c, Parts(1.0 - clip.epsilon, 1.0 + clip.epsilonHigh, 0.0, 0.0, 0.0, 0.0, 0.0))
    ensures |samples| == |x.mask|
    ensures forall i :: 0 <= i < |samples| ==>
      samples[i] == Sample(RawRatios(b, c, x, y)[i], Advantages(c, x, y)[i], x.mask[i], x.weights[i])
    ensures Reports(LossOf(b, c, r, x, y, e).diagnostics, samples, clip, e)
  {
    samples, clip := Samples(b, c, x, y), Clip(c.ppo, Epsilon(c), EpsilonHigh(c));
    ReportCounts(samples, clip, e);
    hide RawRatios, Advantages, Reports, FromSamples, ProbsCorr, TokenLosses, Epsilon, EpsilonHigh;
  }

  lemma LossChanges(r: real, k: real, a: real, low: real, high: real)
    requires low <= high && k == if r < low then low else if r > high then high else r
    ensures (a > 0.0 && r > high) || (a < 0.0 && r < low) <==> PolicyLoss.Min(r * a, k * a) != r * a
  {
    assert r * a - k * a == (r - k) * a;
    if r > k {
      Signed(r - k, a);
    } else if r < k {
      Signed(k - r, a);
      assert (k - r) * a == -((r - k) * a);
    } else {
      assert (r - k) * a == 0.0;
    }
  }

  lemma Signed(d: real, a: real)
    requires d > 0.0
    ensures (d * a > 0.0 <==> a > 0.0) && (d * a < 0.0 <==> a < 0.0)
  {
    if a > 0.0 {
      assert d * a > 0.0;
    } else if a < 0.0 {
      assert d * -a > 0.0;
    }
  }

  /** The diagnostics count as clipped exactly the positions at which clipping changes the loss: with PPO
      those where the loss is not the unclipped one, else those where the ratio is not its own clipping. */
  lemma ClippedIffChanged(b: Borrowed, c: Config, x: Inputs, y: Outputs, i: nat) returns (p: Parts)
    requires Aligned(x, y) && Shaped(b, |x.mask|) && i < |x.mask| && x.mask[i]
    requires c.maxNegative == 0.0 && !c.maskRatio
    ensures RangeIs(c, p) && ClippedIs(p) && LossIs(c, Advantages(c, x, y)[i], y.current[i], p)
    ensures p.ratio == RawRatios(b, c, x, y)[i]
    ensures p.low <= p.high ==>
      (PushedOut(Samples(b, c, x, y)[i], Clip(c.ppo, 1.0 - p.low, p.high - 1.0)) <==>
        if c.ppo then p.loss != -(p.ratio * Advantages(c, x, y)[i]) else p.clipped != p.ratio)
  {
    hide RawRatios, Advantages, PushedOut, Surrogate, Ratio, FactorIs, TruncationRatios, RangeIs, ClippedIs, LossIs;
    var raw, a := RawRatios(b, c, x, y)[i], Advantages(c, x, y)[i];
    p := PartsOfOne(c, raw, a, y.current[i], TruncationRatios(b, c, x, y)[i]);
    RatioIsRaw(c, raw, p);
    if p.low <= p.high {
      ChangedIff(c, Samples(b, c, x, y)[i], y.current[i], p);
    }
    hide Samples;
  }

  lemma RatioIsRaw(c: Config, raw: real, p: Parts)
    requires RatioIs(c, raw, p) && c.maxNegative == 0.0 && !c.maskRatio
    ensures p.ratio == raw
  {
  }

  lemma ChangedIff(c: Config, s: Sample, logprob: real, p: Parts)
    requires ClippedIs(p) && LossIs(c, s.advantage, logprob, p)
    requires p.ratio == s.ratio && p.low <= p.high
    ensures PushedOut(s, Clip(c.ppo, 1.0 - p.low, p.high - 1.0)) <==>
      if c.ppo then p.loss != -(p.ratio * s.advantage) else p.clipped != p.ratio
  {
    if c.ppo {
      LossChanges(p.ratio, p.clipped, s.advantage, p.low, p.high);
    }
  }
}
