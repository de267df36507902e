/** The bucketed quantile sketch of the importance ratios. */
module Histogram {

  type Counts = seq<nat>

  /** Bucket edges: positive and strictly increasing. */
  ghost predicate Edges(e: seq<real>) {
    |e| > 0 && e[0] > 0.0 && forall i, j :: 0 <= i < j < |e| ==> e[i] < e[j]
  }

  /** The first bucket whose upper edge is not below `v`; past the last edge, the overflow bucket. */
  function Bucket(v: real, e: seq<real>): (b: nat)
    requires Edges(e)
    ensures b <= |e|
    ensures forall i :: 0 <= i < b ==> e[i] < v
    ensures forall i :: b <= i < |e| ==> v <= e[i]
  {
    BucketFrom(v, e, 0)
  }

  function BucketFrom(v: real, e: seq<real>, k: nat): (b: nat)
    requires Edges(e) && k <= |e| && forall i :: 0 <= i < k ==> e[i] < v
    ensures k <= b <= |e|
    ensures forall i :: 0 <= i < b ==> e[i] < v
    ensures forall i :: b <= i < |e| ==> v <= e[i]
    decreases |e| - k
  {
    if k == |e| || v <= e[k] then k else BucketFrom(v, e, k + 1)
  }

  function Lower(e: seq<real>, b: nat): real
    requires Edges(e) && b <= |e|
  {
    if b == 0 then 0.0 else e[b - 1]
  }

  function Upper(e: seq<real>, b: nat): real
    requires Edges(e) && b <= |e|
  {
    if b == |e| then e[|e| - 1] else e[b]
  }

  function Width(e: seq<real>, b: nat): real
    requires Edges(e) && b <= |e|
  {
    Upper(e, b) - Lower(e, b)
  }

  function Total(h: Counts): nat {
    if h == [] then 0 else h[0] + Total(h[1..])
  }

  /** The count in the first `k` buckets. */
  function Cumulative(h: Counts, k: nat): nat
    requires k <= |h|
  {
    if k == 0 then 0 else Cumulative(h, k - 1) + h[k - 1]
  }

  /** The first bucket whose cumulative count reaches the target, and the last one if none does. */
  function Search(h: Counts, target: real): (b: nat)
    requires |h| > 0
    ensures b < |h|
    ensures forall i :: 1 <= i <= b ==> Cumulative(h, i) as real < target
    ensures b < |h| - 1 ==> Cumulative(h, b + 1) as real >= target
  {
    SearchFrom(h, target, 0)
  }

  function SearchFrom(h: Counts, target: real, k: nat): (b: nat)
    requires k < |h| && forall i :: 1 <= i <= k ==> Cumulative(h, i) as real < target
    ensures k <= b < |h|
    ensures forall i :: 1 <= i <= b ==> Cumulative(h, i) as real < target
    ensures b < |h| - 1 ==> Cumulative(h, b + 1) as real >= target
    decreases |h| - k
  {
    if k == |h| - 1 || Cumulative(h, k + 1) as real >= target then k else SearchFrom(h, target, k + 1)
  }

  function Clamp(x: real): real {
    if x < 0.0 then 0.0 else if x > 1.0 then 1.0 else x
  }

  function AtLeastOne(n: nat): (m: nat)
    ensures m >= 1
  {
    if n == 0 then 1 else n
  }

  function Target(h: Counts, q: real): real {
    Total(h) as real * q
  }

  /** How far into the bucket that straddles the target the quantile lies. */
  function Fraction(h: Counts, q: real): real
    requires |h| > 0
  {
    var b := Search(h, Target(h, q));
    Clamp((Target(h, q) - Cumulative(h, b) as real) / AtLeastOne(h[b]) as real)
  }

  /** The interpolated quantile; zero for an empty histogram. */
  function Quantile(h: Counts, e: seq<real>, q: real): real
    requires Edges(e) && |h| == |e| + 1
  {
    if Total(h) == 0 then 0.0
    else
      var b := Search(h, Target(h, q));
      Lower(e, b) + Width(e, b) * Fraction(h, q)
  }

  // ------------------------------------------------------------ counting facts

  lemma {:induction false} CumulativeIsTotal(h: Counts, k: nat)
    requires k <= |h|
    ensures Total(h) == Cumulative(h, k) + Total(h[k..])
  {
    if k == 0 {
      assert h[0..] == h;
    } else {
      CumulativeIsTotal(h, k - 1);
      assert h[k - 1..][1..] == h[k..];
    }
  }

  lemma {:induction false} CumulativeGrows(h: Counts, i: nat, j: nat)
    requires i <= j <= |h|
    ensures Cumulative(h, i) <= Cumulative(h, j)
  {
    if i < j {
      CumulativeGrows(h, i, j - 1);
    }
  }

  lemma CumulativeAll(h: Counts)
    ensures Cumulative(h, |h|) == Total(h)
  {
    CumulativeIsTotal(h, |h|);
    assert h[|h|..] == [];
  }

  lemma TargetInRange(h: Counts, q: real)
    requires Total(h) > 0 && 0.0 < q <= 1.0
    ensures 0.0 < Target(h, q) <= Total(h) as real
  {
    Positive(Total(h) as real, q, Target(h, q));
  }

  lemma Positive(n: real, q: real, t: real)
    requires n > 0.0 && 0.0 < q <= 1.0 && t == n * q
    ensures 0.0 < t <= n
  {
    assert n * (1.0 - q) >= 0.0;
  }

  /** For a quantile in (0, 1] the search ends in a non-empty bucket that straddles the target. */
  lemma SearchStraddles(h: Counts, q: real)
    requires Total(h) > 0 && 0.0 < q <= 1.0
    ensures |h| > 0
    ensures var b := Search(h, Target(h, q));
      Cumulative(h, b) as real < Target(h, q) <= Cumulative(h, b + 1) as real && h[b] >= 1
  {
    assert |h| > 0;
    TargetInRange(h, q);
    CumulativeAll(h);
    hide Target, Total;
    var b := Search(h, Target(h, q));
    if b > 0 {
      assert Cumulative(h, b) as real < Target(h, q);
    }
  }

  // ------------------------------------------- the sketch as a distribution

  /** The part of its bucket that lies below the value. */
  function Share(e: seq<real>, w: real): real
    requires Edges(e) && 0.0 <= w < e[|e| - 1]
  {
    Widths(e, Bucket(w, e));
    (w - Lower(e, Bucket(w, e))) / Width(e, Bucket(w, e))
  }

  /** The count up to the value `w`, spread evenly inside each bucket. */
  function Mass(h: Counts, e: seq<real>, w: real): real
    requires Edges(e) && |h| == |e| + 1 && 0.0 <= w < e[|e| - 1]
  {
    Cumulative(h, Bucket(w, e)) as real + h[Bucket(w, e)] as real * Share(e, w)
  }

  lemma Widths(e: seq<real>, b: nat)
    requires Edges(e) && b <= |e|
    ensures 0.0 <= Lower(e, b) && Width(e, b) == Upper(e, b) - Lower(e, b)
    ensures if b < |e| then Width(e, b) > 0.0 else Width(e, b) == 0.0 && Upper(e, b) == e[|e| - 1]
  {
  }

  lemma Cancel(a: real, b: real, d: real)
    requires d > 0.0
    ensures a <= b <==> a * d <= b * d
  {
    if a <= b {
      assert (b - a) * d >= 0.0;
    } else {
      assert (a - b) * d > 0.0;
    }
  }

  lemma UnitFraction(x: real, d: real, r: real)
    requires 0.0 <= x <= d && d > 0.0 && r == x / d
    ensures r * d == x && 0.0 <= r <= 1.0 && (x > 0.0 ==> r > 0.0)
  {
    assert r * d == x;
    Cancel(0.0, r, d);
    Cancel(r, 1.0, d);
    Cancel(r, 0.0, d);
  }

  lemma ShareBounds(n: real, r: real)
    requires n >= 0.0 && 0.0 <= r <= 1.0
    ensures 0.0 <= n * r <= n
    ensures n > 0.0 && r > 0.0 ==> n * r > 0.0
  {
    assert n * (1.0 - r) >= 0.0;
  }

  /** A value below the last edge lies in its bucket. */
  lemma InBucket(e: seq<real>, w: real)
    requires Edges(e) && 0.0 <= w < e[|e| - 1]
    ensures var b := Bucket(w, e);
      && b < |e| && Lower(e, b) <= w <= Upper(e, b) && (b > 0 ==> Lower(e, b) < w)
      && Upper(e, b) == e[b] && Width(e, b) > 0.0 && 0.0 <= Share(e, w) <= 1.0
  {
    var b := Bucket(w, e);
    Widths(e, b);
    UnitFraction(w - Lower(e, b), Width(e, b), Share(e, w));
  }

  lemma MassBounds(h: Counts, e: seq<real>, w: real)
    requires Edges(e) && |h| == |e| + 1 && 0.0 <= w < e[|e| - 1]
    ensures var b := Bucket(w, e);
      b < |e| && Cumulative(h, b) as real <= Mass(h, e, w) <= Cumulative(h, b + 1) as real
  {
    InBucket(e, w);
    hide Share, Bucket, Width;
    ShareBounds(h[Bucket(w, e)] as real, Share(e, w));
  }

  /** The interpolation stays in the bucket, above its lower edge. */
  lemma FractionIsPositive(h: Counts, q: real)
    requires Total(h) > 0 && 0.0 < q <= 1.0
    ensures |h| > 0
    ensures var b := Search(h, Target(h, q));
      h[b] >= 1 && 0.0 < Fraction(h, q) <= 1.0
      && Fraction(h, q) == (Target(h, q) - Cumulative(h, b) as real) / h[b] as real
  {
    SearchStraddles(h, q);
    hide Target, Total;
    var b := Search(h, Target(h, q));
    var x, n := Target(h, q) - Cumulative(h, b) as real, h[b] as real;
    UnitFraction(x, n, x / n);
  }

  /** Where the quantile lies: above the bucket's lower edge, at most its upper edge. */
  lemma QuantileInBucket(h: Counts, e: seq<real>, q: real)
    requires Edges(e) && |h| == |e| + 1 && Total(h) > 0 && 0.0 < q <= 1.0
    ensures var b := Search(h, Target(h, q));
      && b <= |e| && 0.0 <= Lower(e, b) <= Quantile(h, e, q) <= Upper(e, b)
      && (b < |e| ==> Lower(e, b) < Quantile(h, e, q))
      && (b == |e| ==> Quantile(h, e, q) == e[|e| - 1])
      && Quantile(h, e, q) == Lower(e, b) + Width(e, b) * Fraction(h, q)
  {
    hide *;
    FractionIsPositive(h, q);
    QuantileForm(h, e, q);
    var b := Search(h, Target(h, q));
    Widths(e, b);
    if b == |e| {
      LastEdge(e, b);
    }
    PartOf(Lower(e, b), Upper(e, b), Width(e, b), Fraction(h, q), Quantile(h, e, q));
  }

  lemma LastEdge(e: seq<real>, b: nat)
    requires Edges(e) && b == |e|
    ensures Lower(e, b) == e[|e| - 1]
  {
  }

  /** Part of the way from one to the other. */
  lemma PartOf(lower: real, upper: real, width: real, part: real, value: real)
    requires width == upper - lower && width >= 0.0 && 0.0 < part <= 1.0 && value == lower + width * part
    ensures lower <= value <= upper && (width > 0.0 ==> lower < value) && (width == 0.0 ==> value == lower)
  {
    ShareBounds(width, part);
  }

  lemma QuantileForm(h: Counts, e: seq<real>, q: real)
    requires Edges(e) && |h| == |e| + 1 && Total(h) > 0
    ensures var b := Search(h, Target(h, q));
      Quantile(h, e, q) == Lower(e, b) + Width(e, b) * Fraction(h, q)
  {
  }

  lemma SameBucket(n: real, x: real, d: real, c: real, y: real, f: real)
    requires n > 0.0 && d > 0.0 && y == x / d && f == c / n
    ensures n * y >= c <==> x >= d * f
  {
    assert y * d == x && f * n == c;
    Cancel(f, y, n);
    Cancel(f, y, d);
    assert n * y == y * n && d * f == f * d;
  }

  lemma SameOrder(n: real, d: real, y: real, f: real, cumulative: real, target: real, lower: real, w: real,
                  mass: real, quantile: real)
    requires n > 0.0 && d > 0.0 && y == (w - lower) / d && f == (target - cumulative) / n
    requires mass == cumulative + n * y && quantile == lower + d * f
    ensures quantile <= w <==> mass >= target
  {
    SameBucket(n, w - lower, d, target - cumulative, y, f);
  }

  /** The quantile is the least value whose mass reaches the target. */
  lemma QuantileIsLeast(h: Counts, e: seq<real>, q: real, w: real)
    requires Edges(e) && |h| == |e| + 1 && Total(h) > 0 && 0.0 < q <= 1.0
    requires 0.0 <= w < e[|e| - 1]
    ensures Quantile(h, e, q) <= w <==> Mass(h, e, w) >= Target(h, q)
  {
    var s, b := Search(h, Target(h, q)), Bucket(w, e);
    SearchStraddles(h, q);
    QuantileInBucket(h, e, q);
    InBucket(e, w);
    MassBounds(h, e, w);
    if b < s {
      CumulativeGrows(h, b + 1, s);
      assert e[b] <= Lower(e, s);
      hide *;
    } else if s < b {
      CumulativeGrows(h, s + 1, b);
      assert Upper(e, s) <= Lower(e, b);
      hide *;
    } else {
      SameBucketLeast(h, e, q, w);
    }
  }

  lemma SameBucketLeast(h: Counts, e: seq<real>, q: real, w: real)
    requires Edges(e) && |h| == |e| + 1 && Total(h) > 0 && 0.0 < q <= 1.0
    requires 0.0 <= w < e[|e| - 1] && Search(h, Target(h, q)) == Bucket(w, e)
    ensures Quantile(h, e, q) <= w <==> Mass(h, e, w) >= Target(h, q)
  {
    hide *;
    var b := Bucket(w, e);
    FractionIsPositive(h, q);
    QuantileForm(h, e, q);
    MassForm(h, e, w);
    SameOrder(h[b] as real, Width(e, b), Share(e, w), Fraction(h, q), Cumulative(h, b) as real, Target(h, q),
              Lower(e, b), w, Mass(h, e, w), Quantile(h, e, q));
  }

  lemma MassForm(h: Counts, e: seq<real>, w: real)
    requires Edges(e) && |h| == |e| + 1 && 0.0 <= w < e[|e| - 1]
    ensures var b := Bucket(w, e);
      && b < |e| && Width(e, b) > 0.0
      && Mass(h, e, w) == Cumulative(h, b) as real + h[b] as real * Share(e, w)
      && Share(e, w) == (w - Lower(e, b)) / Width(e, b)
  {
    InBucket(e, w);
  }

  /** The 95th percentile is never above the 99th. */
  lemma QuantileIsMonotone(h: Counts, e: seq<real>, p: real, q: real)
    requires Edges(e) && |h| == |e| + 1 && 0.0 < p <= q <= 1.0
    ensures Quantile(h, e, p) <= Quantile(h, e, q)
  {
    if Total(h) > 0 {
      var w := Quantile(h, e, q);
      InRange(h, e, p);
      InRange(h, e, q);
      TargetGrows(h, p, q);
      if w < e[|e| - 1] {
        hide Quantile, Mass, Target, Total;
        QuantileIsLeast(h, e, q, w);
        QuantileIsLeast(h, e, p, w);
      }
    }
  }

  function MergeAll(parts: seq<Counts>): (m: Counts)
    requires parts != [] && forall h <- parts :: |h| == |parts[0]|
    ensures |m| == |parts[0]|
    decreases |parts|
  {
    var n := |parts| - 1;
    if n == 0 then parts[0] else Merge(MergeAll(parts[..n]), parts[n])
  }

  lemma {:induction false} EmptyCounts(h: Counts, k: nat)
    requires k <= |h| && Cumulative(h, k) == 0
    ensures forall i :: 0 <= i < k ==> h[i] == 0
  {
    if k > 0 {
      EmptyCounts(h, k - 1);
    }
  }

  lemma MergeEmpty(g: Counts, h: Counts)
    requires |g| == |h| && Total(h) == 0
    ensures Merge(g, h) == g && Merge(h, g) == g
  {
    CumulativeAll(h);
    EmptyCounts(h, |h|);
    assert forall i :: 0 <= i < |g| ==> Merge(g, h)[i] == g[i] == Merge(h, g)[i];
  }

  /** So does the quantile of any number of histograms, some of which may be empty. */
  lemma {:induction false} MergedQuantilesAreBetween(parts: seq<Counts>, e: seq<real>, q: real)
    returns (low: nat, high: nat)
    requires Edges(e) && 0.0 < q <= 1.0 && parts != [] && forall h <- parts :: |h| == |e| + 1
    requires Total(MergeAll(parts)) > 0
    ensures low < |parts| && Total(parts[low]) > 0 && high < |parts| && Total(parts[high]) > 0
    ensures Quantile(parts[low], e, q) <= Quantile(MergeAll(parts), e, q) <= Quantile(parts[high], e, q)
    decreases |parts|
  {
    var n := |parts| - 1;
    hide Quantile, Total, Merge;
    if n == 0 {
      return 0, 0;
    }
    var g, h := MergeAll(parts[..n]), parts[n];
    MergeTotal(g, h);
    if Total(g) == 0 {
      MergeEmpty(h, g);
      return n, n;
    }
    low, high := MergedQuantilesAreBetween(parts[..n], e, q);
    if Total(h) == 0 {
      MergeEmpty(g, h);
    } else {
      MergedQuantileIsBetween(g, h, e, q);
      if Quantile(h, e, q) <= Quantile(Merge(g, h), e, q) {
        low := n;
      }
      if Quantile(h, e, q) >= Quantile(Merge(g, h), e, q) {
        high := n;
      }
    }
  }

  lemma TargetGrows(h: Counts, p: real, q: real)
    requires p <= q
    ensures Target(h, p) <= Target(h, q)
  {
    var n := Total(h) as real;
    assert n * (q - p) >= 0.0;
  }

  lemma InRange(h: Counts, e: seq<real>, q: real)
    requires Edges(e) && |h| == |e| + 1 && Total(h) > 0 && 0.0 < q <= 1.0
    ensures 0.0 < Quantile(h, e, q) <= e[|e| - 1]
  {
    QuantileInBucket(h, e, q);
    hide Quantile, Target, Search, Total;
    var b := Search(h, Target(h, q));
  }

  // ------------------------------------------------------------------ merging

  function Merge(g: Counts, h: Counts): (m: Counts)
    requires |g| == |h|
    ensures |m| == |g|
  {
    seq(|g|, i requires 0 <= i < |g| => g[i] + h[i])
  }

  lemma {:induction false} MergeCumulative(g: Counts, h: Counts, k: nat)
    requires |g| == |h| && k <= |g|
    ensures Cumulative(Merge(g, h), k) == Cumulative(g, k) + Cumulative(h, k)
  {
    if k > 0 {
      MergeCumulative(g, h, k - 1);
    }
  }

  lemma MergeTotal(g: Counts, h: Counts)
    requires |g| == |h|
    ensures Total(Merge(g, h)) == Total(g) + Total(h)
  {
    MergeCumulative(g, h, |g|);
    CumulativeIsTotal(g, |g|);
    CumulativeIsTotal(h, |h|);
    CumulativeIsTotal(Merge(g, h), |g|);
  }

  lemma MergeMass(g: Counts, h: Counts, e: seq<real>, w: real)
    requires Edges(e) && |g| == |h| == |e| + 1 && 0.0 <= w < e[|e| - 1]
    ensures Mass(Merge(g, h), e, w) == Mass(g, e, w) + Mass(h, e, w)
  {
    InBucket(e, w);
    var b := Bucket(w, e);
    MergeCumulative(g, h, b);
    hide Share, Cumulative, Bucket;
    AddShares(g[b] as real, h[b] as real, Share(e, w));
  }

  lemma AddShares(a: real, b: real, r: real)
    ensures (a + b) * r == a * r + b * r
  {
  }

  /** The quantile of two merged histograms lies between the quantiles of the parts. */
  lemma MergedQuantileIsBetween(g: Counts, h: Counts, e: seq<real>, q: real)
    requires Edges(e) && |g| == |h| == |e| + 1 && Total(g) > 0 && Total(h) > 0 && 0.0 < q <= 1.0
    ensures var lo, hi, m := Quantile(g, e, q), Quantile(h, e, q), Quantile(Merge(g, h), e, q);
      (lo <= m || hi <= m) && (m <= lo || m <= hi)
  {
    var m := Merge(g, h);
    var a, b, c := Quantile(g, e, q), Quantile(h, e, q), Quantile(m, e, q);
    MergeTotal(g, h);
    MergeTarget(g, h, q);
    InRange(g, e, q);
    InRange(h, e, q);
    InRange(m, e, q);
    var last := e[|e| - 1];
    var w := if a <= b then b else a;
    hide Quantile, Mass, Target, Merge, Total;
    if c < last {
      MergeMass(g, h, e, c);
      QuantileIsLeast(m, e, q, c);
      QuantileIsLeast(g, e, q, c);
      QuantileIsLeast(h, e, q, c);
    }
    if w < last {
      MergeMass(g, h, e, w);
      QuantileIsLeast(m, e, q, w);
      QuantileIsLeast(g, e, q, w);
      QuantileIsLeast(h, e, q, w);
    }
  }

  lemma MergeTarget(g: Counts, h: Counts, q: real)
    requires |g| == |h|
    ensures Target(Merge(g, h), q) == Target(g, q) + Target(h, q)
  {
    MergeTotal(g, h);
    assert (Total(g) + Total(h)) as real * q == Total(g) as real * q + Total(h) as real * q;
  }

  // ------------------------------------------------- against the exact ratios

  /** How many values are at most (or, for `strict`, below) the given one. */
  function CountBelow(x: seq<real>, v: real, strict: bool): nat {
    if x == [] then 0
    else (if x[0] < v || (!strict && x[0] == v) then 1 else 0) + CountBelow(x[1..], v, strict)
  }

  /** The exact order statistic: fewer than `rank` values are below it, at least `rank` at most it. */
  ghost predicate IsOrderStatistic(x: seq<real>, rank: nat, v: real) {
    v in x && CountBelow(x, v, true) < rank <= CountBelow(x, v, false)
  }

  /** How many values fall into one bucket, and the histogram of all of them. */
  function CountIn(x: seq<real>, e: seq<real>, b: nat): nat
    requires Edges(e)
  {
    if x == [] then 0 else (if Bucket(x[0], e) == b then 1 else 0) + CountIn(x[1..], e, b)
  }

  function Count(x: seq<real>, e: seq<real>): (h: Counts)
    requires Edges(e)
    ensures |h| == |e| + 1
  {
    seq(|e| + 1, b requires 0 <= b < |e| + 1 => CountIn(x, e, b))
  }

  /** How many values fall into the first `k` buckets. */
  function CountUpTo(x: seq<real>, e: seq<real>, k: nat): nat
    requires Edges(e)
  {
    if x == [] then 0 else (if Bucket(x[0], e) < k then 1 else 0) + CountUpTo(x[1..], e, k)
  }

  lemma {:induction false} CountUpToStep(x: seq<real>, e: seq<real>, k: nat)
    requires Edges(e)
    ensures CountUpTo(x, e, k + 1) == CountUpTo(x, e, k) + CountIn(x, e, k)
  {
    if x != [] {
      CountUpToStep(x[1..], e, k);
    }
  }

  lemma {:induction false} CountUpToZero(x: seq<real>, e: seq<real>)
    requires Edges(e)
    ensures CountUpTo(x, e, 0) == 0 && CountUpTo(x, e, |e| + 1) == |x|
  {
    if x != [] {
      CountUpToZero(x[1..], e);
    }
  }

  lemma {:induction false} CumulativeCount(x: seq<real>, e: seq<real>, k: nat)
    requires Edges(e) && k <= |e| + 1
    ensures Cumulative(Count(x, e), k) == CountUpTo(x, e, k)
  {
    if k == 0 {
      CountUpToZero(x, e);
    } else {
      CumulativeCount(x, e, k - 1);
      CountUpToStep(x, e, k - 1);
    }
  }

  lemma TotalCount(x: seq<real>, e: seq<real>)
    requires Edges(e)
    ensures Total(Count(x, e)) == |x|
  {
    CumulativeCount(x, e, |e| + 1);
    CountUpToZero(x, e);
    CumulativeIsTotal(Count(x, e), |e| + 1);
  }

  lemma BucketIsMonotone(u: real, v: real, e: seq<real>)
    requires Edges(e)
    ensures Bucket(u, e) < Bucket(v, e) ==> u < v
    ensures u <= v ==> Bucket(u, e) <= Bucket(v, e)
  {
    var a, b := Bucket(u, e), Bucket(v, e);
    assert a < b ==> u <= e[a] < v;
    assert b < a ==> v <= e[b] < u;
  }

  /** The buckets up to that of `v` hold everything at most `v`, those before it only things below. */
  lemma {:induction false} BucketsSandwich(x: seq<real>, e: seq<real>, v: real)
    requires Edges(e)
    ensures CountUpTo(x, e, Bucket(v, e)) <= CountBelow(x, v, true)
    ensures CountBelow(x, v, false) <= CountUpTo(x, e, Bucket(v, e) + 1)
  {
    if x != [] {
      BucketsSandwich(x[1..], e, v);
      BucketIsMonotone(x[0], v, e);
    }
  }

  /** The rank of the quantile: q * n rounded up. */
  ghost predicate IsRank(n: nat, q: real, rank: nat) {
    rank as real >= n as real * q && (rank as real - 1.0) < n as real * q
  }

  /** The search ends in the bucket of the exact order statistic of rank ceil(q * n). */
  lemma SearchFindsBucket(x: seq<real>, e: seq<real>, q: real, rank: nat, v: real)
    requires Edges(e) && x != [] && 0.0 < q <= 1.0
    requires IsRank(|x|, q, rank) && IsOrderStatistic(x, rank, v)
    ensures Search(Count(x, e), Target(Count(x, e), q)) == Bucket(v, e)
  {
    var h := Count(x, e);
    TotalCount(x, e);
    assert Target(h, q) == |x| as real * q;
    SearchStraddles(h, q);
    BucketsSandwich(x, e, v);
    var s, c := Search(h, Target(h, q)), Bucket(v, e);
    CumulativeCount(x, e, c);
    CumulativeCount(x, e, c + 1);
    hide Target, Bucket, Count, Search, CountUpTo, CountBelow, Cumulative;
    if s < c {
      CumulativeGrows(h, s + 1, c);
    }
  }

  /** The sketch's error: the interpolated quantile and the exact order statistic share a bucket,
      so they differ by less than its width; past the last edge it is that edge, a lower bound. */
  lemma QuantileError(x: seq<real>, e: seq<real>, q: real, rank: nat, v: real)
    requires Edges(e) && x != [] && 0.0 < q <= 1.0 && forall i :: 0 <= i < |x| ==> x[i] > 0.0
    requires IsRank(|x|, q, rank) && IsOrderStatistic(x, rank, v)
    ensures var r, b := Quantile(Count(x, e), e, q), Bucket(v, e);
      if b < |e| then
        && Bucket(r, e) == b
        && -Width(e, b) < r - v < Width(e, b)
      else r == e[|e| - 1] < v
  {
    TotalCount(x, e);
    SearchFindsBucket(x, e, q, rank, v);
    QuantileInBucket(Count(x, e), e, q);
    hide Quantile, Target, Count, Search, Total, IsRank, Fraction;
    var r, b := Quantile(Count(x, e), e, q), Bucket(v, e);
    if b < |e| {
      assert Lower(e, b) < v <= Upper(e, b);
    }
  }

  /** Every rank from one to n has an order statistic, so the statement above is about every list. */
  lemma {:induction false} OrderStatisticExists(x: seq<real>, rank: nat)
    requires 1 <= rank <= |x|
    ensures exists v :: IsOrderStatistic(x, rank, v)
  {
    var m := Largest(x);
    CountAll(x, m);
    Descend(x, rank, m);
  }

  function Largest(x: seq<real>): (m: real)
    requires x != []
    ensures m in x && forall i :: 0 <= i < |x| ==> x[i] <= m
  {
    if |x| == 1 then x[0]
    else
      var rest := Largest(x[1..]);
      assert forall i :: 1 <= i < |x| ==> x[i] == x[1..][i - 1];
      if x[0] >= rest then x[0] else rest
  }

  lemma {:induction false} CountAll(x: seq<real>, m: real)
    requires forall i :: 0 <= i < |x| ==> x[i] <= m
    ensures CountBelow(x, m, false) == |x|
  {
    if x != [] {
      CountAll(x[1..], m);
    }
  }

  function Filter(x: seq<real>, v: real): (y: seq<real>)
    ensures |y| == CountBelow(x, v, true)
    ensures forall u :: u in y <==> u in x && u < v
  {
    if x == [] then []
    else
      assert x == [x[0]] + x[1..];
      if x[0] < v then [x[0]] + Filter(x[1..], v) else Filter(x[1..], v)
  }

  lemma {:induction false} CountFiltered(x: seq<real>, v: real, m: real)
    requires m < v && forall i :: 0 <= i < |x| && x[i] < v ==> x[i] <= m
    ensures CountBelow(x, m, false) == CountBelow(x, v, true)
  {
    if x != [] {
      CountFiltered(x[1..], v, m);
    }
  }

  /** From a value with enough at most it, go down to the order statistic. */
  lemma {:induction false} Descend(x: seq<real>, rank: nat, v: real)
    requires v in x && 1 <= rank <= CountBelow(x, v, false)
    ensures exists u :: IsOrderStatistic(x, rank, u)
    decreases CountBelow(x, v, true)
  {
    if CountBelow(x, v, true) < rank {
      assert IsOrderStatistic(x, rank, v);
    } else {
      var below := Filter(x, v);
      var m := Largest(below);
      assert forall i :: 0 <= i < |x| && x[i] < v ==> x[i] in below;
      CountFiltered(x, v, m);
      FewerBelow(x, m);
      Descend(x, rank, m);
    }
  }

  lemma {:induction false} FewerBelow(x: seq<real>, m: real)
    ensures CountBelow(x, m, true) <= CountBelow(x, m, false)
    ensures m in x ==> CountBelow(x, m, true) < CountBelow(x, m, false)
  {
    if x != [] {
      FewerBelow(x[1..], m);
    }
  }
}
