/** The policy loss over the aligned positions of a packed batch.  Only assistant positions
    count: everything the loss returns is a function of those. */
module PolicyLoss {
  import opened Histogram
  import opened Diagnostics
  import opened Wrappers

  type Vec = seq<real>

  datatype Level = Token | Sequence | Average | GeometricAverage

  datatype Source = CurrentLearner | SampledPolicy

  /** A setting that may be missing, or present with no value. */
  datatype Setting = Default | Null | Given(value: real)

  /** `maxNegative`, `tau` and `truncated` are off when zero. */
  datatype Config = Config(
    level: Level, ppo: bool, epsilon: Option<real>, epsilonHigh: Setting, maxNegative: real, maskRatio: bool,
    tau: real, klCoef: real, klSource: Source, truncated: real)

  datatype Reduction = Mean | SumUp

  /** The aligned inputs; a missing logprob is `None`. */
  datatype Inputs = Inputs(
    mask: seq<bool>, sampled: seq<Option<real>>, advantages: Vec, weights: Vec, groups: seq<int>,
    original: Option<seq<Option<real>>>)

  /** The network's outputs at the same positions. */
  datatype Outputs = Outputs(current: Vec, ref: Option<Vec>, entropies: Option<Vec>)

  /** The functions the loss borrows: exponential, square root, the mean over groups, and the
      correlation of two lists. */
  datatype Borrowed = Borrowed(
    exp: real -> real, root: real -> real, groupMean: (Vec, seq<int>) -> Vec, correlation: (Vec, Vec) -> real)

  datatype Loss = Loss(policyLoss: real, entropy: Option<real>, policyLossSum: real, probsCorr: real,
                       klPolicyRef: Option<real>, diagnostics: Report)

  const TINY: real := 0.000000000000000001

  ghost predicate Shaped(b: Borrowed, n: nat) {
    forall v: Vec, groups: seq<int> :: |v| == |groups| == n ==> |b.groupMean(v, groups)| == n
  }

  ghost predicate Aligned(x: Inputs, y: Outputs) {
    && |x.sampled| == |x.advantages| == |x.weights| == |x.groups| == |y.current| == |x.mask|
    && (x.original.Some? ==> |x.original.value| == |x.mask|)
    && (y.ref.Some? ==> |y.ref.value| == |x.mask|)
    && (y.entropies.Some? ==> |y.entropies.value| == |x.mask|)
  }

  function Sum(v: Vec): real {
    if v == [] then 0.0 else v[0] + Sum(v[1..])
  }

  /** One for an assistant position, zero for any other. */
  function Indicator(mask: seq<bool>): (v: Vec)
    ensures |v| == |mask|
  {
    seq(|mask|, i requires 0 <= i < |mask| => if mask[i] then 1.0 else 0.0)
  }

  function Masked(v: Vec, mask: seq<bool>): (w: Vec)
    requires |v| == |mask|
    ensures |w| == |mask|
  {
    seq(|mask|, i requires 0 <= i < |mask| => if mask[i] then v[i] else 0.0)
  }

  /** Multiplied by the assistant mask. */
  function Gated(v: real, assistant: bool): (r: real)
    ensures r == if assistant then v else 0.0
  {
    v * (if assistant then 1.0 else 0.0)
  }

  /** Weighted and masked. */
  function Weighed(v: real, weight: real, assistant: bool): (r: real)
    ensures !assistant ==> r == 0.0
  {
    Gated(v * weight, assistant)
  }

  /** The penalty of one position: zero on average, larger where the divergence is smaller. */
  function Penalty(coef: real, average: real, kl: real, assistant: bool): (r: real)
    ensures !assistant ==> r == 0.0
  {
    Gated(coef * (average - kl), assistant)
  }

  function Clamp(v: real, low: real, high: real): real {
    AtMost(if v < low then low else v, high)
  }

  function AtMost(v: real, high: real): real {
    if v > high then high else v
  }

  function Min(a: real, b: real): real {
    if a <= b then a else b
  }

  function Filled(logprob: Option<real>, current: real): real {
    if logprob.Some? then logprob.value else current
  }

  function Epsilon(c: Config): real {
    if c.epsilon.Some? then c.epsilon.value else if c.ppo then 0.2 else 1.0
  }

  function EpsilonHigh(c: Config): real {
    match c.epsilonHigh
    case Given(v) => v
    case Null => Epsilon(c)
    case Default => if c.ppo then Epsilon(c) else 4.0
  }

  /** Old logprobs: zero off the assistant positions, the current policy's where they are missing. */
  function Old(x: Inputs, y: Outputs): (v: Vec)
    requires Aligned(x, y)
    ensures |v| == |x.mask|
  {
    seq(|x.mask|, i requires 0 <= i < |x.mask| => if x.mask[i] then Filled(x.sampled[i], y.current[i]) else 0.0)
  }

  function LogprobDiff(x: Inputs, y: Outputs): (v: Vec)
    requires Aligned(x, y)
    ensures |v| == |x.mask|
  {
    var now, before := Masked(y.current, x.mask), Old(x, y);
    seq(|x.mask|, i requires 0 <= i < |x.mask| => now[i] - before[i])
  }

  /** The group of every assistant position, and group zero for all others. */
  function MaskedGroups(x: Inputs): (g: seq<int>)
    requires |x.groups| == |x.mask|
    ensures |g| == |x.mask|
  {
    seq(|x.mask|, i requires 0 <= i < |x.mask| => if x.mask[i] then x.groups[i] else 0)
  }

  /** The importance ratios before any clipping. */
  function RawRatios(b: Borrowed, c: Config, x: Inputs, y: Outputs): (v: Vec)
    requires Aligned(x, y) && Shaped(b, |x.mask|)
    ensures |v| == |x.mask|
  {
    var diff := LogprobDiff(x, y);
    var means := b.groupMean(diff, MaskedGroups(x));
    seq(|x.mask|, i requires 0 <= i < |x.mask| =>
      var token, sequence := b.exp(diff[i]), b.exp(means[i]);
      match c.level
      case Token => token
      case Sequence => sequence
      case Average => (token + sequence) / 2.0
      case GeometricAverage => b.root(token) * b.root(sequence))
  }

  function Ratio(c: Config, raw: real): real {
    var capped := if c.maxNegative != 0.0 then AtMost(raw, c.maxNegative) else raw;
    if c.maskRatio && !(1.0 - Epsilon(c) < capped < 1.0 + EpsilonHigh(c)) then 0.0 else capped
  }

  function KlPerToken(c: Config, x: Inputs, y: Outputs): (v: Vec)
    requires Aligned(x, y) && y.ref.Some?
    ensures |v| == |x.mask|
  {
    var now, before, ref := Masked(y.current, x.mask), Old(x, y), Masked(y.ref.value, x.mask);
    seq(|x.mask|, i requires 0 <= i < |x.mask| =>
      Gated((if c.klSource == SampledPolicy then before[i] else now[i]) - ref[i], x.mask[i]))
  }

  function AverageKl(c: Config, x: Inputs, y: Outputs): real
    requires Aligned(x, y) && y.ref.Some?
  {
    IndicatorSum(x.mask);
    Sum(KlPerToken(c, x, y)) / (Sum(Indicator(x.mask)) + TINY)
  }

  predicate Penalized(c: Config, y: Outputs) {
    c.klCoef > 0.0 && y.ref.Some?
  }

  /** What the KL penalty adds to the advantages. */
  function KlPenalty(c: Config, x: Inputs, y: Outputs): (v: Vec)
    requires Aligned(x, y) && y.ref.Some?
    ensures |v| == |x.mask|
  {
    var average, kl := AverageKl(c, x, y), KlPerToken(c, x, y);
    seq(|x.mask|, i requires 0 <= i < |x.mask| => Penalty(c.klCoef, average, kl[i], x.mask[i]))
  }

  /** An advantage less its off-policy correction, plus its penalty. */
  function Adjusted(c: Config, advantage: real, diff: real, penalty: real): real {
    advantage - (if c.tau != 0.0 then c.tau * diff else 0.0) + penalty
  }

  function Advantages(c: Config, x: Inputs, y: Outputs): (v: Vec)
    requires Aligned(x, y)
    ensures |v| == |x.mask|
  {
    var diff := LogprobDiff(x, y);
    var penalty := if Penalized(c, y) then KlPenalty(c, x, y) else seq(|x.mask|, _ => 0.0);
    seq(|x.mask|, i requires 0 <= i < |x.mask| => Adjusted(c, x.advantages[i], diff[i], penalty[i]))
  }

  function Samples(b: Borrowed, c: Config, x: Inputs, y: Outputs): (s: seq<Sample>)
    requires Aligned(x, y) && Shaped(b, |x.mask|)
    ensures |s| == |x.mask|
  {
    var raw, advantages := RawRatios(b, c, x, y), Advantages(c, x, y);
    seq(|x.mask|, i requires 0 <= i < |x.mask| => Sample(raw[i], advantages[i], x.mask[i], x.weights[i]))
  }

  /** The importance weight that truncation looks at. */
  function TruncationRatios(b: Borrowed, c: Config, x: Inputs, y: Outputs): (v: Vec)
    requires Aligned(x, y) && Shaped(b, |x.mask|)
    ensures |v| == |x.mask|
  {
    var before, now, raw := Old(x, y), Masked(y.current, x.mask), RawRatios(b, c, x, y);
    seq(|x.mask|, i requires 0 <= i < |x.mask| =>
      if x.original.Some? then b.exp(before[i] - Filled(x.original.value[i], now[i])) else Ratio(c, raw[i]))
  }

  /** The loss of one position before weighting. */
  function Surrogate(c: Config, raw: real, advantage: real, current: real, truncation: real): real {
    var ratio := Ratio(c, raw);
    var clipped := Clamp(ratio, 1.0 - Epsilon(c), 1.0 + EpsilonHigh(c));
    var loss := if c.ppo then -Min(ratio * advantage, clipped * advantage) else -(clipped * advantage * current);
    if c.truncated != 0.0 then loss * AtMost(truncation, c.truncated) else loss
  }

  function TokenLosses(b: Borrowed, c: Config, x: Inputs, y: Outputs): (v: Vec)
    requires Aligned(x, y) && Shaped(b, |x.mask|)
    ensures |v| == |x.mask|
  {
    var raw, advantages, now := RawRatios(b, c, x, y), Advantages(c, x, y), Masked(y.current, x.mask);
    var truncation := TruncationRatios(b, c, x, y);
    seq(|x.mask|, i requires 0 <= i < |x.mask| =>
      Weighed(Surrogate(c, raw[i], advantages[i], now[i], truncation[i]), x.weights[i], x.mask[i]))
  }

  function TokenEntropies(x: Inputs, y: Outputs): (v: Vec)
    requires Aligned(x, y) && y.entropies.Some?
    ensures |v| == |x.mask|
  {
    var masked := Masked(y.entropies.value, x.mask);
    seq(|x.mask|, i requires 0 <= i < |x.mask| => Weighed(masked[i], x.weights[i], x.mask[i]))
  }

  /** The positions whose old probability is known, with the new one beside it. */
  function Known(x: Inputs, y: Outputs, k: nat): (p: (seq<real>, seq<real>))
    requires Aligned(x, y) && k <= |x.mask|
    ensures |p.0| == |p.1|
    decreases |x.mask| - k
  {
    if k == |x.mask| then ([], [])
    else
      var rest := Known(x, y, k + 1);
      if x.mask[k] && x.sampled[k].Some? then ([x.sampled[k].value] + rest.0, [y.current[k]] + rest.1) else rest
  }

  function ProbsCorr(b: Borrowed, x: Inputs, y: Outputs): real
    requires Aligned(x, y)
  {
    var known := Known(x, y, 0);
    if |known.0| < 2 then 0.0
    else b.correlation(seq(|known.0|, i requires 0 <= i < |known.0| => b.exp(known.0[i])),
                       seq(|known.1|, i requires 0 <= i < |known.1| => b.exp(known.1[i])))
  }

  function Denominator(x: Inputs, r: Reduction): real {
    if r == SumUp then 1.0 else Sum(Indicator(x.mask)) + TINY
  }

  lemma {:induction false} IndicatorSum(mask: seq<bool>)
    ensures Sum(Indicator(mask)) >= 0.0
  {
    if mask != [] {
      IndicatorSum(mask[1..]);
      assert Indicator(mask)[1..] == Indicator(mask[1..]);
    }
  }

  function LossOf(b: Borrowed, c: Config, r: Reduction, x: Inputs, y: Outputs, e: seq<real>): Loss
    requires Aligned(x, y) && Shaped(b, |x.mask|) && Edges(e)
  {
    IndicatorSum(x.mask);
    var total := Sum(TokenLosses(b, c, x, y));
    Loss(total / Denominator(x, r),
         if y.entropies.Some? then Some(Sum(TokenEntropies(x, y)) / Denominator(x, r)) else None,
         total,
         ProbsCorr(b, x, y),
         if Penalized(c, y) then Some(AverageKl(c, x, y)) else None,
         FromSamples(Samples(b, c, x, y), Clip(c.ppo, Epsilon(c), EpsilonHigh(c)), e))
  }

  // -------------------------------------------- ignored positions do not interfere

  /** The same batch, except for what stands at positions that are not the assistant's. */
  ghost predicate SameForAssistant(x: Inputs, y: Outputs, x': Inputs, y': Outputs)
    requires Aligned(x, y) && Aligned(x', y')
  {
    && x.mask == x'.mask
    && x.original.Some? == x'.original.Some? && y.ref.Some? == y'.ref.Some?
    && y.entropies.Some? == y'.entropies.Some?
    && forall i :: 0 <= i < |x.mask| && x.mask[i] ==>
         && x.sampled[i] == x'.sampled[i] && x.advantages[i] == x'.advantages[i]
         && x.weights[i] == x'.weights[i] && x.groups[i] == x'.groups[i] && y.current[i] == y'.current[i]
         && (x.original.Some? ==> x.original.value[i] == x'.original.value[i])
         && (y.ref.Some? ==> y.ref.value[i] == y'.ref.value[i])
         && (y.entropies.Some? ==> y.entropies.value[i] == y'.entropies.value[i])
  }

  lemma SameDifferences(x: Inputs, y: Outputs, x': Inputs, y': Outputs)
    requires Aligned(x, y) && Aligned(x', y') && SameForAssistant(x, y, x', y')
    ensures Masked(y.current, x.mask) == Masked(y'.current, x'.mask) && Old(x, y) == Old(x', y')
    ensures LogprobDiff(x, y) == LogprobDiff(x', y') && MaskedGroups(x) == MaskedGroups(x')
  {
    assert Masked(y.current, x.mask) == Masked(y'.current, x'.mask);
    assert Old(x, y) == Old(x', y');
    assert LogprobDiff(x, y) == LogprobDiff(x', y');
  }

  lemma SameRatios(b: Borrowed, c: Config, x: Inputs, y: Outputs, x': Inputs, y': Outputs)
    requires Aligned(x, y) && Aligned(x', y') && SameForAssistant(x, y, x', y') && Shaped(b, |x.mask|)
    ensures RawRatios(b, c, x, y) == RawRatios(b, c, x', y')
  {
    SameDifferences(x, y, x', y');
  }

  lemma SameKl(c: Config, x: Inputs, y: Outputs, x': Inputs, y': Outputs)
    requires Aligned(x, y) && Aligned(x', y') && SameForAssistant(x, y, x', y') && y.ref.Some?
    ensures KlPerToken(c, x, y) == KlPerToken(c, x', y') && AverageKl(c, x, y) == AverageKl(c, x', y')
    ensures KlPenalty(c, x, y) == KlPenalty(c, x', y')
  {
    SameDifferences(x, y, x', y');
    assert Masked(y.ref.value, x.mask) == Masked(y'.ref.value, x'.mask);
    assert KlPerToken(c, x, y) == KlPerToken(c, x', y');
    assert KlPenalty(c, x, y) == KlPenalty(c, x', y');
  }

  lemma SameAdvantages(c: Config, x: Inputs, y: Outputs, x': Inputs, y': Outputs)
    requires Aligned(x, y) && Aligned(x', y') && SameForAssistant(x, y, x', y')
    ensures forall i :: 0 <= i < |x.mask| && x.mask[i] ==> Advantages(c, x, y)[i] == Advantages(c, x', y')[i]
  {
    SameDifferences(x, y, x', y');
    if y.ref.Some? {
      SameKl(c, x, y, x', y');
    }
    hide KlPenalty, LogprobDiff, Adjusted;
  }

  /** Every position contributes the same to the loss, the ignored ones nothing. */
  lemma SameTokenLosses(b: Borrowed, c: Config, x: Inputs, y: Outputs, x': Inputs, y': Outputs)
    requires Aligned(x, y) && Aligned(x', y') && SameForAssistant(x, y, x', y') && Shaped(b, |x.mask|)
    ensures TokenLosses(b, c, x, y) == TokenLosses(b, c, x', y')
    ensures forall i :: 0 <= i < |x.mask| && !x.mask[i] ==> TokenLosses(b, c, x, y)[i] == 0.0
  {
    SameDifferences(x, y, x', y');
    SameRatios(b, c, x, y, x', y');
    SameAdvantages(c, x, y, x', y');
    SameTruncations(b, c, x, y, x', y');
    hide RawRatios, Advantages, LogprobDiff, Old, Masked, TruncationRatios, Surrogate, Weighed;
    var s, t := TokenLosses(b, c, x, y), TokenLosses(b, c, x', y');
    forall i | 0 <= i < |x.mask| ensures s[i] == t[i] {
      if x.mask[i] {
        assert x.weights[i] == x'.weights[i];
      }
    }
  }

  lemma SameTruncations(b: Borrowed, c: Config, x: Inputs, y: Outputs, x': Inputs, y': Outputs)
    requires Aligned(x, y) && Aligned(x', y') && SameForAssistant(x, y, x', y') && Shaped(b, |x.mask|)
    ensures forall i :: 0 <= i < |x.mask| && x.mask[i] ==>
              TruncationRatios(b, c, x, y)[i] == TruncationRatios(b, c, x', y')[i]
  {
    SameDifferences(x, y, x', y');
    SameRatios(b, c, x, y, x', y');
    hide RawRatios, LogprobDiff, Old, Masked, Ratio;
  }

  lemma SameEntropies(x: Inputs, y: Outputs, x': Inputs, y': Outputs)
    requires Aligned(x, y) && Aligned(x', y') && SameForAssistant(x, y, x', y') && y.entropies.Some?
    ensures TokenEntropies(x, y) == TokenEntropies(x', y')
  {
    assert Masked(y.entropies.value, x.mask) == Masked(y'.entropies.value, x'.mask);
    hide Masked, Weighed;
    var s, t := TokenEntropies(x, y), TokenEntropies(x', y');
    forall i | 0 <= i < |x.mask| ensures s[i] == t[i] {
      if x.mask[i] {
        assert x.weights[i] == x'.weights[i];
      }
    }
  }

  lemma {:induction false} SameKnown(x: Inputs, y: Outputs, x': Inputs, y': Outputs, k: nat)
    requires Aligned(x, y) && Aligned(x', y') && SameForAssistant(x, y, x', y') && k <= |x.mask|
    ensures Known(x, y, k) == Known(x', y', k)
    decreases |x.mask| - k
  {
    if k < |x.mask| {
      SameKnown(x, y, x', y', k + 1);
    }
  }

  lemma {:induction false} SameTrained(s: seq<Sample>, t: seq<Sample>)
    requires |s| == |t|
    requires forall i :: 0 <= i < |s| ==> s[i] == t[i] || (!Trained(s[i]) && !Trained(t[i]))
    ensures TrainedOnly(s) == TrainedOnly(t)
  {
    if s != [] {
      SameTrained(s[1..], t[1..]);
    }
  }

  lemma SameSamples(b: Borrowed, c: Config, x: Inputs, y: Outputs, x': Inputs, y': Outputs)
    requires Aligned(x, y) && Aligned(x', y') && SameForAssistant(x, y, x', y') && Shaped(b, |x.mask|)
    ensures TrainedOnly(Samples(b, c, x, y)) == TrainedOnly(Samples(b, c, x', y'))
  {
    SameRatios(b, c, x, y, x', y');
    SameAdvantages(c, x, y, x', y');
    hide RawRatios, Advantages;
    SameTrained(Samples(b, c, x, y), Samples(b, c, x', y'));
  }

  /** Nothing the loss returns depends on what stands at ignored positions: in every
      importance-sampling, clipping, penalty and truncation branch, and for both reductions. */
  lemma IgnoredPositionsDoNotInterfere(b: Borrowed, c: Config, r: Reduction, e: seq<real>,
                                       x: Inputs, y: Outputs, x': Inputs, y': Outputs)
    requires Aligned(x, y) && Aligned(x', y') && SameForAssistant(x, y, x', y')
    requires Shaped(b, |x.mask|) && Edges(e)
    ensures LossOf(b, c, r, x, y, e) == LossOf(b, c, r, x', y', e)
  {
    SameTokenLosses(b, c, x, y, x', y');
    if y.entropies.Some? {
      SameEntropies(x, y, x', y');
    }
    if y.ref.Some? {
      SameKl(c, x, y, x', y');
    }
    SameKnown(x, y, x', y', 0);
    SameSamples(b, c, x, y, x', y');
    hide TokenLosses, TokenEntropies, AverageKl, Known, Samples, Edges;
  }

  // ------------------------------------------------- what the KL penalty adds up to

  /** The penalties of `m` positions whose divergences add up to `s`. */
  function PenaltyTotal(coef: real, average: real, m: real, s: real): real {
    coef * (average * m - s)
  }

  /** What the denominator guard leaves over of a perfectly centred penalty. */
  function Leftover(coef: real, m: real, s: real, tiny: real): real
    requires m + tiny > 0.0
  {
    coef * s * tiny / (m + tiny)
  }

  lemma {:induction false} PenaltySum(coef: real, average: real, kl: Vec, mask: seq<bool>, penalty: Vec)
    requires |kl| == |mask| == |penalty|
    requires forall i :: 0 <= i < |mask| ==> penalty[i] == Penalty(coef, average, kl[i], mask[i])
    requires forall i :: 0 <= i < |mask| && !mask[i] ==> kl[i] == 0.0
    ensures Sum(penalty) == PenaltyTotal(coef, average, Sum(Indicator(mask)), Sum(kl))
  {
    if mask != [] {
      assert Indicator(mask)[1..] == Indicator(mask[1..]);
      hide Penalty, PenaltyTotal;
      PenaltySum(coef, average, kl[1..], mask[1..], penalty[1..]);
      SumStep(penalty);
      SumStep(kl);
      SumStep(Indicator(mask));
      PenaltyStep(coef, average, kl[0], mask[0], Sum(Indicator(mask[1..])), Sum(kl[1..]), penalty[0],
                  Sum(penalty[1..]), Sum(Indicator(mask)), Sum(kl));
    }
  }

  lemma SumStep(v: Vec)
    requires v != []
    ensures Sum(v) == v[0] + Sum(v[1..])
  {
  }

  lemma PenaltyStep(coef: real, average: real, kl: real, on: bool, m: real, s: real, first: real, rest: real,
                    m': real, s': real)
    requires (!on ==> kl == 0.0) && first == Penalty(coef, average, kl, on)
    requires rest == PenaltyTotal(coef, average, m, s)
    requires m' == (if on then 1.0 else 0.0) + m && s' == kl + s
    ensures first + rest == PenaltyTotal(coef, average, m', s')
  {
    if on {
      assert average * m' == average + average * m;
    }
  }

  /** The KL penalty is centred up to the tiny denominator guard: over the assistant positions it
      adds up to exactly -coef * S * tiny / (m + tiny), for m positions with total KL S. */
  lemma KlPenaltyIsCentred(c: Config, x: Inputs, y: Outputs)
    requires Aligned(x, y) && y.ref.Some?
    ensures var m, s := Sum(Indicator(x.mask)), Sum(KlPerToken(c, x, y));
      && m + TINY > 0.0
      && Sum(KlPenalty(c, x, y)) == -Leftover(c.klCoef, m, s, TINY)
  {
    IndicatorSum(x.mask);
    AverageKlForm(c, x, y);
    PenaltySum(c.klCoef, AverageKl(c, x, y), KlPerToken(c, x, y), x.mask, KlPenalty(c, x, y));
    hide *;
    var m, s, a := Sum(Indicator(x.mask)), Sum(KlPerToken(c, x, y)), AverageKl(c, x, y);
    Centre(c.klCoef, a, m, s, TINY, Sum(KlPenalty(c, x, y)));
  }

  lemma AverageKlForm(c: Config, x: Inputs, y: Outputs)
    requires Aligned(x, y) && y.ref.Some?
    ensures Sum(Indicator(x.mask)) + TINY > 0.0
    ensures AverageKl(c, x, y) == Sum(KlPerToken(c, x, y)) / (Sum(Indicator(x.mask)) + TINY)
  {
    IndicatorSum(x.mask);
  }

  lemma Centre(coef: real, a: real, m: real, s: real, tiny: real, total: real)
    requires m + tiny > 0.0 && a == s / (m + tiny) && total == PenaltyTotal(coef, a, m, s)
    ensures total == -Leftover(coef, m, s, tiny)
  {
    var d := m + tiny;
    assert a * d == s;
    assert a * m - s == -(a * tiny);
    Quotient(total, coef * s * tiny, d, coef, a, tiny, s);
  }

  lemma Quotient(total: real, n: real, d: real, coef: real, a: real, tiny: real, s: real)
    requires d > 0.0 && a * d == s && n == coef * s * tiny && total == coef * -(a * tiny)
    ensures total == -(n / d)
  {
    assert coef * (a * d) * tiny == (coef * (a * tiny)) * d;
    assert n == -total * d;
  }
}
