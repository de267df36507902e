/** Lawson-Hanson non-negative least squares, in exact arithmetic.
    A matrix is the sequence of its columns; `drop` and `guard` are the two small
    thresholds of the step back, and zero thresholds are the textbook algorithm. */
module Nnls {
  import opened RealVectors

  /** Which coefficients are free to be positive. */
  type Mask = seq<bool>

  const SCALE_FLOOR: real := 0.000000000001
  const RELATIVE_TOLERANCE: real := 0.0000000001

  function Max(a: real, b: real): real {
    if a >= b then a else b
  }

  function Min(a: real, b: real): real {
    if a <= b then a else b
  }

  function MaxAbs(v: Vec): (m: real)
    ensures m >= 0.0
  {
    if |v| == 0 then 0.0 else Max(if v[0] >= 0.0 then v[0] else -v[0], MaxAbs(v[1..]))
  }

  /** It bounds the entries, and is the absolute value of one of them if there are any. */
  lemma {:induction false} MaxAbsIs(v: Vec)
    ensures forall i :: 0 <= i < |v| ==> -MaxAbs(v) <= v[i] <= MaxAbs(v)
    ensures if v == [] then MaxAbs(v) == 0.0 else exists i :: 0 <= i < |v| && (v[i] == MaxAbs(v) || v[i] == -MaxAbs(v))
  {
    if v != [] {
      MaxAbsIs(v[1..]);
      assert v[0] == MaxAbs(v) || v[0] == -MaxAbs(v) || MaxAbs(v) == MaxAbs(v[1..]);
      assert forall i :: 1 <= i < |v| ==> v[i] == v[1..][i - 1];
      if |v| == 1 {
        assert v[0] == MaxAbs(v) || v[0] == -MaxAbs(v);
      }
    }
  }

  function Scales(x: seq<Vec>): (s: Vec)
    ensures |s| == |x|
    ensures forall j :: 0 <= j < |s| ==> s[j] > 0.0
  {
    seq(|x|, j requires 0 <= j < |x| => Max(MaxAbs(x[j]), SCALE_FLOOR))
  }

  /** The scale of a column bounds its entries; it is the absolute value of one of them, or 1e-12. */
  lemma ScalesAre(x: seq<Vec>, j: nat)
    requires j < |x|
    ensures Scales(x)[j] >= 0.000000000001
    ensures forall i :: 0 <= i < |x[j]| ==> -Scales(x)[j] <= x[j][i] <= Scales(x)[j]
    ensures Scales(x)[j] == 0.000000000001
      || exists i :: 0 <= i < |x[j]| && (x[j][i] == Scales(x)[j] || x[j][i] == -Scales(x)[j])
  {
    MaxAbsIs(x[j]);
    hide MaxAbs;
  }

  /** Every column divided by its scale. */
  function Scaled(x: seq<Vec>, s: Vec): (xs: seq<Vec>)
    requires |s| == |x| && forall j :: 0 <= j < |s| ==> s[j] > 0.0
    ensures |xs| == |x| && forall j :: 0 <= j < |x| ==> |xs[j]| == |x[j]|
  {
    seq(|x|, j requires 0 <= j < |x| => seq(|x[j]|, i requires 0 <= i < |x[j]| => x[j][i] / s[j]))
  }

  function Divide(b: Vec, s: Vec): (c: Vec)
    requires |s| == |b| && forall j :: 0 <= j < |s| ==> s[j] > 0.0
    ensures |c| == |b|
  {
    seq(|b|, j requires 0 <= j < |b| => b[j] / s[j])
  }

  function Multiply(w: Vec, s: Vec): (b: Vec)
    requires |s| == |w|
    ensures |b| == |w|
  {
    seq(|w|, j requires 0 <= j < |w| => w[j] * s[j])
  }

  function Tolerance(xs: seq<Vec>, y: Vec): (t: real)
    requires Shaped(xs, |y|)
    ensures t > 0.0
  {
    RELATIVE_TOLERANCE * Max(1.0, MaxAbs(Correlations(xs, y)))
  }

  ghost predicate Supported(p: Mask, b: Vec) {
    |p| == |b| && forall j :: 0 <= j < |b| && !p[j] ==> b[j] == 0.0
  }

  predicate Positive(p: Mask, b: Vec)
    requires |p| == |b|
  {
    forall j :: 0 <= j < |b| && p[j] ==> b[j] > 0.0
  }

  /** `t` solves the least-squares problem restricted to the free columns. */
  ghost predicate NormalEquations(columns: seq<Vec>, y: Vec, p: Mask, t: Vec) {
    && Shaped(columns, |y|) && |t| == |columns| && Supported(p, t)
    && forall j :: 0 <= j < |t| && p[j] ==> Gradient(columns, y, t)[j] == 0.0
  }

  /** What is asked of the linear least-squares routine: for every choice of free columns
      it returns a solution of the normal equations (any one, when there are several). */
  ghost predicate Solves(lstsq: Mask -> Vec, columns: seq<Vec>, y: Vec) {
    forall p: Mask {:trigger lstsq(p)} :: |p| == |columns| ==> NormalEquations(columns, y, p, lstsq(p))
  }

  /** The Karush-Kuhn-Tucker conditions, up to `tolerance`. */
  ghost predicate Optimal(columns: seq<Vec>, y: Vec, b: Vec, tolerance: real)
    requires Shaped(columns, |y|) && |b| == |columns|
  {
    && NonNegative(b)
    && forall j :: 0 <= j < |b| ==>
         Gradient(columns, y, b)[j] <= tolerance && (b[j] > 0.0 ==> Gradient(columns, y, b)[j] == 0.0)
  }

  // ---------------------------------------------------------------- optimality

  lemma SlopeIsBounded(z: Vec, b: Vec, g: Vec, tolerance: real)
    requires |z| == |b| == |g| && tolerance >= 0.0
    requires NonNegative(z) && NonNegative(b)
    requires forall j :: 0 <= j < |b| ==> g[j] <= tolerance && (b[j] > 0.0 ==> g[j] == 0.0)
    ensures Dot(Axpy(z, -1.0, b), g) <= tolerance * Sum(z)
  {
    hide Dot, Axpy, Sum;
    var t := seq(|z|, _ => tolerance);
    DotAxpy(z, -1.0, b, g);
    DotZeros(b, g);
    forall j | 0 <= j < |z| ensures z[j] * g[j] <= z[j] * t[j] {
      Scale(z[j], g[j], t[j]);
    }
    DotMonotone(z, g, t);
    DotConstant(z, t, tolerance);
  }

  lemma {:induction false} DotConstant(z: Vec, t: Vec, c: real)
    requires |z| == |t| && forall j :: 0 <= j < |t| ==> t[j] == c
    ensures Dot(z, t) == c * Sum(z)
  {
    if |z| > 0 {
      DotConstant(z[1..], t[1..], c);
      var rest, total := Sum(z[1..]), Sum(z);
      assert c * total == c * z[0] + c * rest;
    }
  }

  /** Convexity: a point meeting the conditions is beaten by no non-negative point
      by more than twice the tolerance times that point's size. */
  lemma OptimalIsNearMinimal(columns: seq<Vec>, y: Vec, b: Vec, tolerance: real, z: Vec)
    requires Shaped(columns, |y|) && |b| == |z| == |columns| && tolerance >= 0.0
    requires Optimal(columns, y, b, tolerance) && NonNegative(z)
    ensures Loss(columns, y, z) >= Loss(columns, y, b) - 2.0 * tolerance * Sum(z)
  {
    hide Dot, Axpy, Loss, Image, Gradient, Residual, Sum;
    var d := Axpy(z, -1.0, b);
    LossAlongLine(columns, y, b, 1.0, d);
    PointPlusDifference(b, z);
    SlopeIsBounded(z, b, Gradient(columns, y, b), tolerance);
    DotSelf(Image(columns, d, |y|));
    var slope, e := Dot(d, Gradient(columns, y, b)), Dot(Image(columns, d, |y|), Image(columns, d, |y|));
    Weaken(Loss(columns, y, z), Loss(columns, y, b), slope, e, tolerance, Sum(z));
  }

  lemma PointPlusDifference(b: Vec, z: Vec)
    requires |b| == |z|
    ensures Axpy(b, 1.0, Axpy(z, -1.0, b)) == z
    ensures Axpy(b, 0.0, Axpy(z, -1.0, b)) == b
  {
    var d := Axpy(z, -1.0, b);
    forall j | 0 <= j < |b| ensures Axpy(b, 1.0, d)[j] == z[j] && Axpy(b, 0.0, d)[j] == b[j] {
      assert d[j] == z[j] - b[j];
    }
  }

  lemma Weaken(lz: real, lb: real, slope: real, e: real, tolerance: real, size: real)
    requires lz == lb - 2.0 * 1.0 * slope + 1.0 * 1.0 * e && e >= 0.0 && slope <= tolerance * size
    ensures lz >= lb - 2.0 * tolerance * size
  {
    assert 2.0 * tolerance * size == 2.0 * (tolerance * size);
  }

  // ------------------------------------------------------------- the step back

  /** The energy of moving from `b` to the restricted solution `t`. */
  ghost function Energy(columns: seq<Vec>, y: Vec, b: Vec, t: Vec): real
    requires Shaped(columns, |y|) && |b| == |t| == |columns|
  {
    var e := Image(columns, Axpy(t, -1.0, b), |y|);
    Dot(e, e)
  }

  lemma TowardSolution(b: Vec, t: Vec, alpha: real)
    requires |b| == |t|
    ensures Axpy(b, alpha, Axpy(t, -1.0, b)) == Axpy(t, alpha - 1.0, Axpy(t, -1.0, b))
  {
    var d := Axpy(t, -1.0, b);
    forall j | 0 <= j < |b| ensures Axpy(b, alpha, d)[j] == Axpy(t, alpha - 1.0, d)[j] {
      SamePoint(b[j], t[j], alpha, d[j]);
    }
  }

  lemma SamePoint(b: real, t: real, alpha: real, d: real)
    requires d == t - b
    ensures b + alpha * d == t + (alpha - 1.0) * d
  {
    assert (alpha - 1.0) * d == alpha * d - d;
  }

  /** Along the segment to a restricted solution the loss is exactly
      the solution's loss plus (1 - alpha)^2 times the energy. */
  lemma LossTowardSolution(columns: seq<Vec>, y: Vec, p: Mask, b: Vec, t: Vec, alpha: real)
    requires Shaped(columns, |y|) && |b| == |columns| && Supported(p, b)
    requires NormalEquations(columns, y, p, t)
    ensures Loss(columns, y, Axpy(b, alpha, Axpy(t, -1.0, b)))
         == Loss(columns, y, t) + (1.0 - alpha) * (1.0 - alpha) * Energy(columns, y, b, t)
    ensures Energy(columns, y, b, t) >= 0.0
  {
    var d := Axpy(t, -1.0, b);
    forall j | 0 <= j < |d| ensures d[j] == 0.0 || Gradient(columns, y, t)[j] == 0.0 {
      DifferenceEntry(t, b, j);
    }
    hide Dot, Axpy, Loss, Image, Residual, Gradient;
    TowardSolution(b, t, alpha);
    LossAlongLine(columns, y, t, alpha - 1.0, d);
    DotZeros(d, Gradient(columns, y, t));
    DotSelf(Image(columns, d, |y|));
    Flat(Loss(columns, y, Axpy(b, alpha, d)), Loss(columns, y, t), Dot(d, Gradient(columns, y, t)),
         Dot(Image(columns, d, |y|), Image(columns, d, |y|)), alpha, alpha - 1.0, Energy(columns, y, b, t));
  }

  lemma Flat(l: real, lt: real, slope: real, e: real, alpha: real, c: real, energy: real)
    requires c == alpha - 1.0 && slope == 0.0 && energy == e && l == lt - 2.0 * c * slope + c * c * e
    ensures l == lt + (1.0 - alpha) * (1.0 - alpha) * energy
  {
    assert 2.0 * c * slope == 0.0;
    assert c * c == (1.0 - alpha) * (1.0 - alpha);
  }

  /** A step toward a restricted solution never raises the loss, and a step of positive
      length lowers it when there is energy to lose. */
  lemma StepNeverRaisesLoss(columns: seq<Vec>, y: Vec, p: Mask, b: Vec, t: Vec, alpha: real)
    requires Shaped(columns, |y|) && |b| == |columns| && Supported(p, b)
    requires NormalEquations(columns, y, p, t) && 0.0 <= alpha <= 1.0
    ensures Loss(columns, y, Axpy(b, alpha, Axpy(t, -1.0, b))) <= Loss(columns, y, b)
    ensures alpha > 0.0 && Energy(columns, y, b, t) > 0.0 ==>
              Loss(columns, y, Axpy(b, alpha, Axpy(t, -1.0, b))) < Loss(columns, y, b)
    ensures Loss(columns, y, b) == Loss(columns, y, t) + Energy(columns, y, b, t)
    ensures Energy(columns, y, b, t) >= 0.0
  {
    LossTowardSolution(columns, y, p, b, t, alpha);
    LossTowardSolution(columns, y, p, b, t, 0.0);
    PointPlusDifference(b, t);
    hide *;
    Shrink(alpha, Energy(columns, y, b, t));
  }

  lemma Shrink(alpha: real, e: real)
    requires 0.0 <= alpha <= 1.0 && e >= 0.0
    ensures (1.0 - 0.0) * (1.0 - 0.0) * e == e
    ensures (1.0 - alpha) * (1.0 - alpha) * e <= e
    ensures alpha > 0.0 && e > 0.0 ==> (1.0 - alpha) * (1.0 - alpha) * e < e
  {
    var q := (1.0 - alpha) * (1.0 - alpha);
    var k := alpha * (2.0 - alpha);
    assert q == 1.0 - k;
    assert k >= 0.0 && (alpha > 0.0 ==> k > 0.0);
    assert q * e == e - k * e;
    assert k * e >= 0.0;
    if alpha > 0.0 && e > 0.0 {
      assert k * e > 0.0;
    }
  }

  lemma {:induction false} DotSingle(a: Vec, b: Vec, j: nat)
    requires |a| == |b| && j < |a|
    requires forall i :: 0 <= i < |a| && i != j ==> a[i] == 0.0 || b[i] == 0.0
    ensures Dot(a, b) == a[j] * b[j]
  {
    DotStep(a, b);
    if j == 0 {
      DotZeros(a[1..], b[1..]);
    } else {
      assert a[0] * b[0] == 0.0;
      DotSingle(a[1..], b[1..], j - 1);
    }
  }

  /** Freeing a column whose gradient is positive gives energy to lose, and the new
      coefficient comes out positive, whatever solution the routine picks. */
  lemma EnteringColumn(columns: seq<Vec>, y: Vec, p: Mask, b: Vec, j: nat, t: Vec)
    requires NormalEquations(columns, y, p, b)
    requires j < |b| && !p[j] && Gradient(columns, y, b)[j] > 0.0
    requires NormalEquations(columns, y, p[j := true], t)
    ensures Energy(columns, y, b, t) > 0.0
    ensures t[j] > 0.0
  {
    hide Dot, Axpy, Loss, Image, Residual;
    var q, d := p[j := true], Axpy(t, -1.0, b);
    var g, e := Gradient(columns, y, b), Image(columns, d, |y|);
    LossTowardSolution(columns, y, q, b, t, 0.0);
    PointPlusDifference(b, t);
    LossAlongLine(columns, y, b, 1.0, d);
    forall i | 0 <= i < |d| ensures d[i] == t[i] - b[i] {
      DifferenceEntry(t, b, i);
    }
    DotSingle(d, g, j);
    DotSelf(e);
    if Dot(e, e) == 0.0 {
      SameResidual(columns, y, b, t);
      assert false;
    }
    SignOfStep(Loss(columns, y, b), Loss(columns, y, t), Dot(d, g), Dot(e, e), d[j], g[j]);
  }

  lemma DifferenceEntry(t: Vec, b: Vec, i: nat)
    requires |t| == |b| && i < |b|
    ensures Axpy(t, -1.0, b)[i] == t[i] - b[i]
  {
  }

  /** Without energy the two points predict the same. */
  lemma SameResidual(columns: seq<Vec>, y: Vec, b: Vec, t: Vec)
    requires Shaped(columns, |y|) && |b| == |t| == |columns|
    requires Energy(columns, y, b, t) == 0.0
    ensures Gradient(columns, y, t) == Gradient(columns, y, b)
  {
    hide Dot, Image;
    var d := Axpy(t, -1.0, b);
    var r, e := Residual(columns, y, b), Image(columns, d, |y|);
    DotSelf(e);
    PointPlusDifference(b, t);
    ResidualAlongLine(columns, y, b, 1.0, -1.0, d);
    assert Axpy(r, -1.0, e) == r;
  }

  lemma SignOfStep(lb: real, lt: real, slope: real, e: real, d: real, g: real)
    requires lt == lb - 2.0 * 1.0 * slope + 1.0 * 1.0 * e
    requires lb == lt + (1.0 - 0.0) * (1.0 - 0.0) * e
    requires slope == d * g && g > 0.0 && e > 0.0
    ensures d > 0.0
  {
    assert slope == e;
    SignOfFactor(d, g);
  }

  lemma SignOfFactor(d: real, g: real)
    requires g > 0.0
    ensures d * g > 0.0 ==> d > 0.0
  {
    if d <= 0.0 {
      assert -d * g >= 0.0;
    }
  }

  /** The fraction of the way to `t` at which the coefficient `b` reaches zero. */
  function Ratio(b: real, t: real, guard: real): real {
    var d := Max(b - t, guard);
    if d == 0.0 then 0.0 else b / d
  }

  lemma RatioBounds(b: real, t: real, guard: real, alpha: real)
    requires b >= 0.0 && t <= 0.0 && guard >= 0.0
    ensures 0.0 <= Ratio(b, t, guard) <= 1.0
    ensures b > 0.0 ==> Ratio(b, t, guard) > 0.0
    ensures 0.0 <= alpha <= Ratio(b, t, guard) ==> b + alpha * (t - b) >= 0.0
    ensures alpha == Ratio(b, t, guard) ==> b + alpha * (t - b) <= guard
  {
    var d, gap := Max(b - t, guard), b - t;
    Landing(b, t, alpha, gap, alpha * gap);
    if d > 0.0 {
      var r := b / d;
      Quotient(b, d, r);
      if 0.0 <= alpha <= r {
        Reaches(b, gap, d, r, alpha);
      }
    }
  }

  lemma Landing(b: real, t: real, alpha: real, gap: real, moved: real)
    requires gap == b - t && moved == alpha * gap
    ensures b + alpha * (t - b) == b - moved
    ensures gap == 0.0 ==> moved == 0.0
  {
  }

  lemma Reaches(b: real, gap: real, d: real, r: real, alpha: real)
    requires 0.0 <= gap <= d && d * r == b && 0.0 <= alpha <= r
    ensures 0.0 <= alpha * gap <= b
    ensures alpha == r && gap == d ==> alpha * gap == b
  {
    Scale(alpha, 0.0, gap);
    Scale(alpha, gap, d);
    Scale(d, alpha, r);
    assert alpha * d == d * alpha;
  }

  lemma Quotient(b: real, d: real, r: real)
    requires 0.0 <= b <= d && d > 0.0 && r == b / d
    ensures d * r == b && 0.0 <= r <= 1.0
    ensures b > 0.0 ==> r > 0.0
  {
    assert d * r == b;
    SignOfFactor(-r, d);
    SignOfFactor(r, d);
    SignOfFactor(r - 1.0, d);
    assert (r - 1.0) * d == b - d;
  }

  lemma Scale(c: real, a: real, b: real)
    requires c >= 0.0 && a <= b
    ensures c * a <= c * b
  {
    assert c * (b - a) >= 0.0;
  }

  lemma Between(b: real, t: real, alpha: real)
    requires b >= 0.0 && t >= 0.0 && 0.0 <= alpha <= 1.0
    ensures b + alpha * (t - b) >= 0.0
  {
    assert (1.0 - alpha) * b >= 0.0 && alpha * t >= 0.0;
    assert b + alpha * (t - b) == (1.0 - alpha) * b + alpha * t;
  }

  function Blocks(p: Mask, t: Vec, k: nat): bool
    requires |p| == |t| && k < |p|
  {
    p[k] && t[k] <= 0.0
  }

  /** The largest step that keeps every coefficient non-negative. */
  method StepLength(p: Mask, b: Vec, t: Vec, guard: real) returns (alpha: real, blocking: nat)
    requires |p| == |b| == |t| && NonNegative(b) && guard >= 0.0
    requires exists k: nat :: k < |p| && Blocks(p, t, k)
    ensures 0.0 <= alpha <= 1.0
    ensures forall k :: 0 <= k < |p| && Blocks(p, t, k) ==> alpha <= Ratio(b[k], t[k], guard)
    ensures blocking < |p| && Blocks(p, t, blocking) && alpha == Ratio(b[blocking], t[blocking], guard)
  {
    alpha, blocking := 2.0, 0;
    for k := 0 to |p|
      invariant forall i :: 0 <= i < k && Blocks(p, t, i) ==> alpha <= Ratio(b[i], t[i], guard)
      invariant (alpha == 2.0 && forall i :: 0 <= i < k ==> !Blocks(p, t, i))
             || (blocking < k && Blocks(p, t, blocking) && alpha == Ratio(b[blocking], t[blocking], guard))
    {
      if Blocks(p, t, k) {
        RatioBounds(b[k], t[k], guard, 0.0);
        if alpha > Ratio(b[k], t[k], guard) {
          alpha, blocking := Ratio(b[k], t[k], guard), k;
        }
      }
    }
    RatioBounds(b[blocking], t[blocking], guard, 0.0);
    alpha := Min(1.0, alpha);
  }

  function Count(p: Mask): nat {
    if |p| == 0 then 0 else (if p[0] then 1 else 0) + Count(p[1..])
  }

  lemma {:induction false} CountShrinks(p: Mask, q: Mask, k: nat)
    requires |p| == |q| && forall i :: 0 <= i < |p| && q[i] ==> p[i]
    ensures Count(q) <= Count(p)
    ensures k < |p| && p[k] && !q[k] ==> Count(q) < Count(p)
  {
    if |p| > 0 {
      CountShrinks(p[1..], q[1..], if k > 0 then k - 1 else |p|);
    }
  }

  /** Keep the free coefficients above the threshold and zero the others. */
  function KeptMask(p: Mask, b: Vec, drop: real): (q: Mask)
    requires |p| == |b|
    ensures |q| == |p|
  {
    seq(|p|, j requires 0 <= j < |p| => p[j] && b[j] > drop)
  }

  function Kept(q: Mask, b: Vec): (c: Vec)
    requires |q| == |b|
    ensures |c| == |b|
  {
    seq(|b|, j requires 0 <= j < |b| => if q[j] then b[j] else 0.0)
  }

  /** One step back: non-negativity is kept, the set of free columns strictly shrinks,
      and with a zero threshold the loss does not rise. */
  method StepBack(columns: seq<Vec>, y: Vec, p: Mask, b: Vec, t: Vec, drop: real, guard: real)
      returns (c: Vec, q: Mask, ghost alpha: real)
    requires Shaped(columns, |y|) && |b| == |columns| && NonNegative(b) && Supported(p, b)
    requires NormalEquations(columns, y, p, t) && 0.0 <= guard <= drop
    requires exists k: nat :: k < |p| && Blocks(p, t, k)
    ensures |q| == |p| && (forall j :: 0 <= j < |p| && q[j] ==> p[j]) && Count(q) < Count(p)
    ensures |c| == |b| && NonNegative(c) && Supported(q, c)
    ensures 0.0 <= alpha <= 1.0
    ensures forall j :: 0 <= j < |c| && q[j] ==> c[j] == Axpy(b, alpha, Axpy(t, -1.0, b))[j] > drop
    ensures drop == 0.0 ==> Loss(columns, y, c) <= Loss(columns, y, b)
    ensures drop == 0.0 && (forall k: nat :: k < |p| && Blocks(p, t, k) ==> b[k] > 0.0)
              && Energy(columns, y, b, t) > 0.0 ==>
              Loss(columns, y, c) < Loss(columns, y, b)
  {
    var blocking: nat;
    var a: real;
    a, blocking := StepLength(p, b, t, guard);
    hide Loss, Gradient, Energy;
    alpha := a;
    hide Axpy;
    var moved := Axpy(b, a, Axpy(t, -1.0, b));
    q := KeptMask(p, moved, drop);
    c := Kept(q, moved);
    MovedStaysNonNegative(p, b, t, a, guard);
    BlockingIsDropped(p, b, t, a, blocking, guard, drop);
    CountShrinks(p, q, blocking);
    NothingToDrop(p, b, t, a, q, drop);
    StepNeverRaisesLoss(columns, y, p, b, t, a);
    if forall k: nat :: k < |p| && Blocks(p, t, k) ==> b[k] > 0.0 {
      RatioBounds(b[blocking], t[blocking], guard, a);
    }
  }

  lemma MovedStaysNonNegative(p: Mask, b: Vec, t: Vec, a: real, guard: real)
    requires |p| == |b| == |t| && NonNegative(b) && Supported(p, t) && 0.0 <= a <= 1.0 && guard >= 0.0
    requires forall k :: 0 <= k < |p| && Blocks(p, t, k) ==> a <= Ratio(b[k], t[k], guard)
    ensures NonNegative(Axpy(b, a, Axpy(t, -1.0, b)))
  {
    forall j | 0 <= j < |b| ensures Axpy(b, a, Axpy(t, -1.0, b))[j] >= 0.0 {
      MovedEntry(b, t, a, j);
      if Blocks(p, t, j) {
        RatioBounds(b[j], t[j], guard, a);
      } else {
        Between(b[j], t[j], a);
      }
    }
  }

  /** The coefficient that limits the step lands at or below the drop threshold. */
  lemma BlockingIsDropped(p: Mask, b: Vec, t: Vec, a: real, k: nat, guard: real, drop: real)
    requires |p| == |b| == |t| && NonNegative(b) && 0.0 <= guard <= drop
    requires k < |p| && Blocks(p, t, k) && a == Ratio(b[k], t[k], guard)
    ensures !KeptMask(p, Axpy(b, a, Axpy(t, -1.0, b)), drop)[k]
  {
    MovedEntry(b, t, a, k);
    RatioBounds(b[k], t[k], guard, a);
  }

  /** With a zero threshold only coefficients that are already zero are dropped. */
  lemma NothingToDrop(p: Mask, b: Vec, t: Vec, a: real, q: Mask, drop: real)
    requires |b| == |t| && Supported(p, b) && Supported(p, t)
    requires NonNegative(Axpy(b, a, Axpy(t, -1.0, b)))
    requires q == KeptMask(p, Axpy(b, a, Axpy(t, -1.0, b)), drop)
    ensures drop == 0.0 ==>
      Kept(q, Axpy(b, a, Axpy(t, -1.0, b))) == Axpy(b, a, Axpy(t, -1.0, b))
  {
    var moved := Axpy(b, a, Axpy(t, -1.0, b));
    forall j | 0 <= j < |b| && drop == 0.0 ensures Kept(q, moved)[j] == moved[j] {
      MovedEntry(b, t, a, j);
      if !p[j] {
        assert a * (t[j] - b[j]) == 0.0;
      }
    }
  }

  lemma MovedEntry(b: Vec, t: Vec, a: real, j: nat)
    requires |b| == |t| && j < |b|
    ensures Axpy(b, a, Axpy(t, -1.0, b))[j] == b[j] + a * (t[j] - b[j])
  {
    assert Axpy(t, -1.0, b)[j] == t[j] - b[j];
  }

  /** The inner loop: step back until the restricted solution is strictly positive, then
      take it.  It ends because every step back frees fewer columns. */
  method Restore(columns: seq<Vec>, y: Vec, head: Vec, entered: Mask, j: nat,
                 drop: real, guard: real, lstsq: Mask -> Vec)
      returns (beta: Vec, passive: Mask)
    requires Shaped(columns, |y|) && Solves(lstsq, columns, y) && 0.0 <= guard <= drop
    requires |head| == |entered| == |columns| && j < |entered| && !entered[j]
    requires NormalEquations(columns, y, entered, head) && Positive(entered, head)
    requires Gradient(columns, y, head)[j] > 0.0
    ensures |passive| == |columns| && beta == lstsq(passive) && |beta| == |columns| && Positive(passive, beta)
    ensures drop == 0.0 ==> Loss(columns, y, beta) < Loss(columns, y, head)
  {
    hide Loss, Gradient, Energy;
    beta, passive := head, entered[j := true];
    while true
      invariant |beta| == |passive| == |columns| && NonNegative(beta) && Supported(passive, beta)
      invariant (beta == head && passive == entered[j := true])
             || (drop == 0.0 ==> Loss(columns, y, beta) < Loss(columns, y, head))
      decreases Count(passive)
    {
      var trial := lstsq(passive);
      StepNeverRaisesLoss(columns, y, passive, beta, trial, 1.0);
      if beta == head && passive == entered[j := true] {
        EnteringColumn(columns, y, entered, head, j, trial);
      }
      if forall k :: 0 <= k < |passive| ==> !Blocks(passive, trial, k) {
        forall k | 0 <= k < |passive| && passive[k] ensures trial[k] > 0.0 {
          assert !Blocks(passive, trial, k);
        }
        beta := trial;
        break;
      }
      ghost var alpha;
      beta, passive, alpha := StepBack(columns, y, passive, beta, trial, drop, guard);
    }
  }

  /** The inactive column with the largest gradient, the first of equals. */
  method SteepestInactive(g: Vec, passive: Mask) returns (found: bool, j: nat)
    requires |g| == |passive|
    ensures !found <==> forall k :: 0 <= k < |g| ==> passive[k]
    ensures found ==> j < |g| && !passive[j]
    ensures found ==> forall k :: 0 <= k < |g| && !passive[k] ==> g[k] <= g[j] && (k < j ==> g[k] < g[j])
  {
    found, j := false, 0;
    for i := 0 to |g|
      invariant !found <==> forall k :: 0 <= k < i ==> passive[k]
      invariant found ==> j < i && !passive[j]
      invariant found ==> forall k :: 0 <= k < i && !passive[k] ==> g[k] <= g[j] && (k < j ==> g[k] < g[j])
    {
      if !passive[i] && (!found || g[j] < g[i]) {
        found, j := true, i;
      }
    }
  }

  // ------------------------------------------------- counting the passive sets

  function Pow2(n: nat): (r: nat)
    ensures r >= 1
  {
    if n == 0 then 1 else 2 * Pow2(n - 1)
  }

  ghost function Tails(s: set<Mask>, first: bool): set<Mask> {
    set p | p in s && |p| > 0 && p[0] == first :: p[1..]
  }

  lemma {:induction false} SameNumberOfTails(s: set<Mask>, first: bool)
    requires forall p :: p in s ==> |p| > 0 && p[0] == first
    ensures |Tails(s, first)| == |s|
  {
    if s == {} {
      assert Tails(s, first) == {};
    } else {
      var p :| p in s;
      SameNumberOfTails(s - {p}, first);
      assert Tails(s, first) == Tails(s - {p}, first) + {p[1..]};
      assert p[1..] !in Tails(s - {p}, first) by {
        forall q | q in s - {p} ensures q[1..] != p[1..] {
          assert q == [first] + q[1..] && p == [first] + p[1..];
        }
      }
    }
  }

  lemma {:induction false} MasksAreFew(n: nat, s: set<Mask>)
    requires forall p :: p in s ==> |p| == n
    ensures |s| <= Pow2(n)
  {
    if n == 0 {
      assert s <= {[]};
      SubsetSize(s, {[]});
    } else {
      var on, off := set p | p in s && p[0], set p | p in s && !p[0];
      SameNumberOfTails(on, true);
      SameNumberOfTails(off, false);
      MasksAreFew(n - 1, Tails(on, true));
      MasksAreFew(n - 1, Tails(off, false));
      assert s == on + off && on !! off;
    }
  }

  lemma {:induction false} SubsetSize(a: set<Mask>, b: set<Mask>)
    requires a <= b
    ensures |a| <= |b|
  {
    if a != {} {
      var p :| p in a;
      SubsetSize(a - {p}, b - {p});
    }
  }

  // ------------------------------------------------------------- scaling back

  lemma {:induction false} ScaledImage(x: seq<Vec>, s: Vec, b: Vec, m: nat)
    requires |s| == |x| == |b| && Shaped(x, m) && forall j :: 0 <= j < |s| ==> s[j] > 0.0
    ensures Image(Scaled(x, s), b, m) == Image(x, Divide(b, s), m)
  {
    if |x| > 0 {
      ScaledImage(x[1..], s[1..], b[1..], m);
      var xs, c := Scaled(x, s), Divide(b, s);
      assert xs[1..] == Scaled(x[1..], s[1..]) && c[1..] == Divide(b[1..], s[1..]);
      var u := Image(x[1..], c[1..], m);
      forall i | 0 <= i < m ensures Axpy(u, b[0], xs[0])[i] == Axpy(u, c[0], x[0])[i] {
        assert b[0] * (x[0][i] / s[0]) == (b[0] / s[0]) * x[0][i];
      }
      assert Axpy(u, b[0], xs[0]) == Axpy(u, c[0], x[0]);
      hide *;
      ImageStep(xs, b, m);
      ImageStep(x, c, m);
    }
  }

  lemma ScaledLoss(x: seq<Vec>, s: Vec, b: Vec, y: Vec)
    requires |s| == |x| == |b| && Shaped(x, |y|) && forall j :: 0 <= j < |s| ==> s[j] > 0.0
    ensures Loss(Scaled(x, s), y, b) == Loss(x, y, Divide(b, s))
  {
    ScaledImage(x, s, b, |y|);
  }

  lemma DivideUndoesMultiply(w: Vec, s: Vec)
    requires |s| == |w| && forall j :: 0 <= j < |s| ==> s[j] > 0.0
    ensures Divide(Multiply(w, s), s) == w
    ensures NonNegative(w) ==> NonNegative(Multiply(w, s))
  {
    forall j | 0 <= j < |w|
      ensures Multiply(w, s)[j] / s[j] == w[j] && (w[j] >= 0.0 ==> Multiply(w, s)[j] >= 0.0)
    {
    }
  }

  lemma DivideStaysNonNegative(b: Vec, s: Vec)
    requires |s| == |b| && NonNegative(b) && forall j :: 0 <= j < |s| ==> s[j] > 0.0
    ensures NonNegative(Divide(b, s))
  {
    forall j | 0 <= j < |b| ensures b[j] / s[j] >= 0.0 {
      NonNegativeQuotient(b[j], s[j], b[j] / s[j]);
    }
  }

  lemma NonNegativeQuotient(b: real, d: real, r: real)
    requires b >= 0.0 && d > 0.0 && r == b / d
    ensures r >= 0.0
  {
    assert r * d == b;
    SignOfFactor(-r, d);
  }

  // ------------------------------------------------------------------ the fit

  /** What the caller gets: no non-negative coefficients fit the data better
      by more than the stated margin. */
  ghost predicate NearMinimal(x: seq<Vec>, y: Vec, coefficients: Vec)
    requires Shaped(x, |y|) && |coefficients| == |x|
  {
    var s := Scales(x);
    forall w: Vec {:trigger Multiply(w, s)} :: |w| == |x| && NonNegative(w) ==>
      Loss(x, y, w) >= Loss(x, y, coefficients)
                       - 2.0 * Tolerance(Scaled(x, s), y) * Sum(Multiply(w, s))
  }

  /** The same margin in the terms of the data: 2e-10 times the size of the other coefficients in units of the
      scales, times any bound of at least one on the correlations of the scaled columns with the data. */
  ghost predicate WithinMargin(x: seq<Vec>, y: Vec, coefficients: Vec)
    requires Shaped(x, |y|) && |coefficients| == |x|
  {
    forall w: Vec, m: real | |w| == |x| && NonNegative(w) && Bounds(x, y, m) ::
      Loss(x, y, w) >= Loss(x, y, coefficients) - 0.0000000002 * m * Dot(w, Scales(x))
  }

  ghost predicate Bounds(x: seq<Vec>, y: Vec, m: real)
    requires Shaped(x, |y|)
  {
    m >= 1.0 && forall j :: 0 <= j < |x| ==> -m * Scales(x)[j] <= Dot(x[j], y) <= m * Scales(x)[j]
  }

  ghost predicate Quotients(u: Vec, v: Vec, d: real)
    requires |u| == |v| && d > 0.0
  {
    forall i :: 0 <= i < |v| ==> u[i] == v[i] / d
  }

  lemma {:induction false} DotDivided(v: Vec, y: Vec, d: real, u: Vec)
    requires |u| == |v| == |y| && d > 0.0 && Quotients(u, v, d)
    ensures Dot(u, y) * d == Dot(v, y)
  {
    if |v| > 0 {
      DotDivided(v[1..], y[1..], d, u[1..]);
      DividedTerm(u[0], v[0], y[0], d, Dot(u[1..], y[1..]), Dot(v[1..], y[1..]));
    }
  }

  lemma DividedTerm(u: real, v: real, y: real, d: real, restU: real, restV: real)
    requires d > 0.0 && u == v / d && restU * d == restV
    ensures (u * y + restU) * d == v * y + restV
  {
    assert u * d == v;
    assert (u * y) * d == (u * d) * y;
  }

  lemma MultiplyTail(w: Vec, s: Vec)
    requires |w| == |s| > 0
    ensures Multiply(w, s)[1..] == Multiply(w[1..], s[1..]) && Multiply(w, s)[0] == w[0] * s[0]
  {
    var all, rest := Multiply(w, s), Multiply(w[1..], s[1..]);
    forall i | 0 <= i < |rest| ensures all[1..][i] == rest[i] {
      assert w[1..][i] == w[i + 1] && s[1..][i] == s[i + 1];
    }
  }

  lemma {:induction false} SumOfProducts(w: Vec, s: Vec)
    requires |w| == |s|
    ensures Sum(Multiply(w, s)) == Dot(w, s)
  {
    if |w| > 0 {
      SumOfProducts(w[1..], s[1..]);
      MultiplyTail(w, s);
      hide Multiply;
    }
  }

  lemma {:induction false} SizeIsNonNegative(w: Vec, s: Vec)
    requires |w| == |s| && NonNegative(w) && forall j :: 0 <= j < |s| ==> s[j] > 0.0
    ensures Dot(w, s) >= 0.0
  {
    if |w| > 0 {
      SizeIsNonNegative(w[1..], s[1..]);
      assert w[0] * s[0] >= 0.0;
    }
  }

  lemma Unscale(c: real, v: real, d: real, m: real)
    requires d > 0.0 && c * d == v && -m * d <= v <= m * d
    ensures -m <= c <= m
  {
    assert (m - c) * d >= 0.0 && (c + m) * d >= 0.0;
  }

  /** The tolerance is 1e-10 times the largest such correlation, or 1e-10. */
  lemma ToleranceIsSmall(x: seq<Vec>, y: Vec, m: real)
    requires Shaped(x, |y|) && Bounds(x, y, m)
    ensures Tolerance(Scaled(x, Scales(x)), y) <= 0.0000000001 * m
  {
    var s := Scales(x);
    var xs := Scaled(x, s);
    var g := Correlations(xs, y);
    forall j | 0 <= j < |x| ensures -m <= g[j] <= m {
      DotDivided(x[j], y, s[j], xs[j]);
      hide Scales, Dot;
      Unscale(g[j], Dot(x[j], y), s[j], m);
    }
    SmallerMax(g, m);
  }

  lemma SmallerMax(g: Vec, m: real)
    requires m >= 1.0 && forall j :: 0 <= j < |g| ==> -m <= g[j] <= m
    ensures RELATIVE_TOLERANCE * Max(1.0, MaxAbs(g)) <= 0.0000000001 * m
  {
    MaxAbsIs(g);
    hide MaxAbs;
  }

  lemma Margin(lw: real, lc: real, t: real, m: real, size: real)
    requires lw >= lc - 2.0 * t * size && t <= 0.0000000001 * m && size >= 0.0
    ensures lw >= lc - 0.0000000002 * m * size
  {
    Scale(size, t, 0.0000000001 * m);
    assert 2.0 * t * size == 2.0 * (size * t);
    assert size * (0.0000000001 * m) == (0.0000000001 * m) * size;
    assert 0.0000000002 * m * size == 2.0 * ((0.0000000001 * m) * size);
  }

  lemma NearMinimalIsWithinMargin(x: seq<Vec>, y: Vec, coefficients: Vec)
    requires Shaped(x, |y|) && |coefficients| == |x| && NearMinimal(x, y, coefficients)
    ensures WithinMargin(x, y, coefficients)
  {
    hide Loss, Dot, Sum, Tolerance, Scales, Scaled, Bounds, Multiply;
    var s := Scales(x);
    forall w: Vec, m: real | |w| == |x| && NonNegative(w) && Bounds(x, y, m)
      ensures Loss(x, y, w) >= Loss(x, y, coefficients) - 0.0000000002 * m * Dot(w, s)
    {
      ToleranceIsSmall(x, y, m);
      SumOfProducts(w, s);
      SizeIsNonNegative(w, s);
      AtLeastOne(x, y, m);
      assert |Multiply(w, s)| == |w|;
      Margin(Loss(x, y, w), Loss(x, y, coefficients), Tolerance(Scaled(x, s), y), m, Dot(w, s));
    }
  }

  lemma AtLeastOne(x: seq<Vec>, y: Vec, m: real)
    requires Shaped(x, |y|) && Bounds(x, y, m)
    ensures m >= 1.0
  {
  }

  lemma OptimalGivesNearMinimal(x: seq<Vec>, y: Vec, beta: Vec)
    requires Shaped(x, |y|) && |beta| == |x|
    requires Optimal(Scaled(x, Scales(x)), y, beta, Tolerance(Scaled(x, Scales(x)), y))
    ensures NearMinimal(x, y, Divide(beta, Scales(x)))
  {
    hide Loss, Gradient, Tolerance, Sum, Optimal, Scales, Scaled, Divide, Multiply;
    var s := Scales(x);
    var xs := Scaled(x, s);
    ScaledLoss(x, s, beta, y);
    forall w: Vec | |w| == |x| && NonNegative(w)
      ensures Loss(x, y, w) >= Loss(x, y, Divide(beta, s)) - 2.0 * Tolerance(xs, y) * Sum(Multiply(w, s))
    {
      var z := Multiply(w, s);
      DivideUndoesMultiply(w, s);
      ScaledLoss(x, s, z, y);
      OptimalIsNearMinimal(xs, y, beta, Tolerance(xs, y), z);
    }
  }

  /** No column correlates with the data by more than 1e-10 of its scale. */
  ghost predicate Uncorrelated(x: seq<Vec>, y: Vec)
    requires Shaped(x, |y|)
  {
    forall j :: 0 <= j < |x| ==> Dot(x[j], y) <= 0.0000000001 * Scales(x)[j]
  }

  lemma ZeroFits(columns: seq<Vec>, y: Vec)
    requires Shaped(columns, |y|)
    ensures Gradient(columns, y, Zeros(|columns|)) == Correlations(columns, y)
  {
    ImageOfZeros(columns, Zeros(|columns|), |y|);
    assert Axpy(y, -1.0, Zeros(|y|)) == y;
    hide Image;
  }

  lemma SmallCorrelation(c: real, v: real, d: real)
    requires d > 0.0 && c * d == v && v <= 0.0000000001 * d
    ensures c <= 0.0000000001
  {
    SignOfFactor(c - 0.0000000001, d);
  }

  ghost predicate Passes(columns: seq<Vec>, y: Vec, b: Vec)
    requires Shaped(columns, |y|) && |b| == |columns|
  {
    forall j :: 0 <= j < |b| ==> Gradient(columns, y, b)[j] <= Tolerance(columns, y)
  }

  lemma PassesAt(columns: seq<Vec>, y: Vec, b: Vec, j: nat)
    requires Shaped(columns, |y|) && |b| == |columns|
    ensures Passes(columns, y, b) && j < |b| ==> Gradient(columns, y, b)[j] <= Tolerance(columns, y)
  {
  }

  lemma ZerosDivided(s: Vec)
    requires forall j :: 0 <= j < |s| ==> s[j] > 0.0
    ensures Divide(Zeros(|s|), s) == Zeros(|s|)
  {
  }

  lemma ToleranceIsNotLess(columns: seq<Vec>, y: Vec)
    requires Shaped(columns, |y|)
    ensures Tolerance(columns, y) >= 0.0000000001
  {
    hide MaxAbs, Correlations;
  }

  lemma UncorrelatedColumn(x: seq<Vec>, y: Vec, j: nat)
    requires Shaped(x, |y|) && Uncorrelated(x, y) && j < |x|
    ensures Dot(Scaled(x, Scales(x))[j], y) <= 0.0000000001
  {
    hide Scales, Dot;
    ColumnIsSmall(x[j], y, Scales(x)[j], Scaled(x, Scales(x))[j]);
  }

  lemma ColumnIsSmall(v: Vec, y: Vec, d: real, u: Vec)
    requires |u| == |v| == |y| && d > 0.0 && Quotients(u, v, d)
    requires Dot(v, y) <= 0.0000000001 * d
    ensures Dot(u, y) <= 0.0000000001
  {
    hide Quotients;
    DotDivided(v, y, d, u);
    SmallCorrelation(Dot(u, y), Dot(v, y), d);
  }

  lemma UncorrelatedPasses(x: seq<Vec>, y: Vec)
    requires Shaped(x, |y|) && Uncorrelated(x, y)
    ensures Passes(Scaled(x, Scales(x)), y, Zeros(|x|))
  {
    hide Scales, Scaled, Dot, Tolerance, Gradient, Uncorrelated;
    var columns := Scaled(x, Scales(x));
    ZeroFits(columns, y);
    ToleranceIsNotLess(columns, y);
    forall j: nat | j < |x| ensures Gradient(columns, y, Zeros(|x|))[j] <= 0.0000000001 {
      UncorrelatedColumn(x, y, j);
    }
  }

  /** The outer loop.  `converged` says that the gradient test, not the iteration bound,
      ended it; in exact arithmetic 2^n passes always suffice. */
  method Fit(x: seq<Vec>, y: Vec, iterations: nat, drop: real, guard: real, lstsq: Mask -> Vec)
      returns (coefficients: Vec, converged: bool)
    requires Shaped(x, |y|) && 0.0 <= guard <= drop
    requires Solves(lstsq, Scaled(x, Scales(x)), y)
    ensures |coefficients| == |x| && NonNegative(coefficients)
    ensures converged ==> NearMinimal(x, y, coefficients) && WithinMargin(x, y, coefficients)
    ensures drop == 0.0 && iterations >= Pow2(|x|) ==> converged
    ensures iterations > 0 && Uncorrelated(x, y) ==> converged && coefficients == Zeros(|x|)
  {
    hide Passes, Uncorrelated, Tolerance;
    var s := Scales(x);
    var columns := Scaled(x, s);
    var n := |x|;
    var passive: Mask := seq(n, _ => false);
    var beta := Zeros(n);
    var tolerance := Tolerance(columns, y);
    converged := false;
    assert beta == lstsq(passive) by {
      assert NormalEquations(columns, y, passive, lstsq(passive));
    }
    ghost var seen := {passive};
    var iteration := 0;
    ghost var quiet := Passes(columns, y, beta);
    while iteration < iterations
      invariant iteration <= iterations
      invariant |passive| == n && beta == lstsq(passive) && |beta| == n && Positive(passive, beta)
      invariant passive in seen && forall p :: p in seen ==> |p| == n
      invariant quiet ==> iteration == 0 && beta == Zeros(n)
      invariant drop == 0.0 ==> |seen| == iteration + 1
      invariant drop == 0.0 ==> forall p :: p in seen ==>
                  |lstsq(p)| == n && Loss(columns, y, lstsq(p)) >= Loss(columns, y, beta)
    {
      hide Loss, Gradient;
      assert NormalEquations(columns, y, passive, beta);
      var gradient := Gradient(columns, y, beta);
      var found, j := SteepestInactive(gradient, passive);
      PassesAt(columns, y, beta, j);
      if !found || gradient[j] <= tolerance {
        converged := true;
        break;
      }
      beta, passive := Restore(columns, y, beta, passive, j, drop, guard, lstsq);
      assert drop == 0.0 ==> passive !in seen;
      seen := seen + {passive};
      iteration := iteration + 1;
    }
    assert NormalEquations(columns, y, passive, beta);
    if converged {
      assert Optimal(columns, y, beta, tolerance);
      OptimalGivesNearMinimal(x, y, beta);
    } else {
      MasksAreFew(n, seen);
    }
    coefficients := Divide(beta, s);
    ZerosDivided(s);
    if Uncorrelated(x, y) {
      UncorrelatedPasses(x, y);
    }
    DivideStaysNonNegative(beta, s);
    if converged {
      NearMinimalIsWithinMargin(x, y, coefficients);
    }
  }
}
