/** Vectors of reals: the little linear algebra that the least-squares fit rests on. */
module RealVectors {

  type Vec = seq<real>

  function Zeros(n: nat): (v: Vec)
    ensures |v| == n
  {
    seq(n, _ => 0.0)
  }

  /** The vector `a + c * b`. */
  function Axpy(a: Vec, c: real, b: Vec): (v: Vec)
    requires |a| == |b|
    ensures |v| == |a|
  {
    seq(|a|, i requires 0 <= i < |a| => a[i] + c * b[i])
  }

  lemma AxpyTail(a: Vec, c: real, b: Vec)
    requires |a| == |b| > 0
    ensures Axpy(a, c, b)[1..] == Axpy(a[1..], c, b[1..])
  {
    forall i | 0 <= i < |a| - 1 ensures Axpy(a, c, b)[1..][i] == Axpy(a[1..], c, b[1..])[i] {
      assert a[1..][i] == a[i + 1] && b[1..][i] == b[i + 1];
    }
  }

  function Dot(a: Vec, b: Vec): real
    requires |a| == |b|
  {
    if |a| == 0 then 0.0 else a[0] * b[0] + Dot(a[1..], b[1..])
  }

  function Sum(a: Vec): real {
    if |a| == 0 then 0.0 else a[0] + Sum(a[1..])
  }

  predicate NonNegative(a: Vec) {
    forall i :: 0 <= i < |a| ==> a[i] >= 0.0
  }

  /** Every column of `columns` has `m` entries. */
  predicate Shaped(columns: seq<Vec>, m: nat) {
    forall j :: 0 <= j < |columns| ==> |columns[j]| == m
  }

  /** The matrix-vector product, the matrix given by its columns. */
  function Image(columns: seq<Vec>, b: Vec, m: nat): (v: Vec)
    requires Shaped(columns, m) && |b| == |columns|
    ensures |v| == m
  {
    if |columns| == 0 then Zeros(m)
    else Axpy(Image(columns[1..], b[1..], m), b[0], columns[0])
  }

  /** The transposed product: the inner product of every column with `v`. */
  function Correlations(columns: seq<Vec>, v: Vec): (g: Vec)
    requires Shaped(columns, |v|)
    ensures |g| == |columns|
    ensures forall j :: 0 <= j < |g| ==> g[j] == Dot(columns[j], v)
  {
    seq(|columns|, j requires 0 <= j < |columns| => Dot(columns[j], v))
  }

  function Residual(columns: seq<Vec>, y: Vec, b: Vec): (r: Vec)
    requires Shaped(columns, |y|) && |b| == |columns|
    ensures |r| == |y|
  {
    Axpy(y, -1.0, Image(columns, b, |y|))
  }

  /** The squared residual that least squares minimizes. */
  function Loss(columns: seq<Vec>, y: Vec, b: Vec): real
    requires Shaped(columns, |y|) && |b| == |columns|
  {
    Dot(Residual(columns, y, b), Residual(columns, y, b))
  }

  /** Minus half the derivative of the loss. */
  function Gradient(columns: seq<Vec>, y: Vec, b: Vec): (g: Vec)
    requires Shaped(columns, |y|) && |b| == |columns|
    ensures |g| == |b|
  {
    Correlations(columns, Residual(columns, y, b))
  }

  lemma {:induction false} DotSymmetric(a: Vec, b: Vec)
    requires |a| == |b|
    ensures Dot(a, b) == Dot(b, a)
  {
    if |a| > 0 {
      DotSymmetric(a[1..], b[1..]);
    }
  }

  lemma DotStep(a: Vec, b: Vec)
    requires |a| == |b| > 0
    ensures Dot(a, b) == a[0] * b[0] + Dot(a[1..], b[1..])
  {
  }

  lemma {:induction false} DotAxpy(a: Vec, c: real, b: Vec, v: Vec)
    requires |a| == |b| == |v|
    ensures Dot(Axpy(a, c, b), v) == Dot(a, v) + c * Dot(b, v)
  {
    if |a| > 0 {
      DotAxpy(a[1..], c, b[1..], v[1..]);
      AxpyTail(a, c, b);
      DotStep(Axpy(a, c, b), v);
      DotStep(a, v);
      DotStep(b, v);
      var s := Axpy(a, c, b)[0];
      assert s == a[0] + c * b[0];
      hide *;
      FirstTerm(a[0], b[0], c, s, v[0], Dot(a[1..], v[1..]), Dot(b[1..], v[1..]), Dot(b, v));
    }
  }

  lemma FirstTerm(a: real, b: real, c: real, s: real, v: real, restA: real, restB: real, dotB: real)
    requires s == a + c * b && dotB == b * v + restB
    ensures s * v + (restA + c * restB) == (a * v + restA) + c * dotB
  {
    assert s * v == a * v + c * (b * v);
  }

  lemma {:induction false} DotZeros(a: Vec, b: Vec)
    requires |a| == |b|
    requires forall i :: 0 <= i < |a| ==> a[i] == 0.0 || b[i] == 0.0
    ensures Dot(a, b) == 0.0
  {
    if |a| > 0 {
      DotZeros(a[1..], b[1..]);
    }
  }

  lemma NoZeroDivisors(p: real, q: real)
    requires p * q == 0.0
    ensures p == 0.0 || q == 0.0
  {
    if p != 0.0 && q != 0.0 {
      ProductOfSigns(p, q);
    }
  }

  lemma ProductOfSigns(p: real, q: real)
    requires p != 0.0 && q != 0.0
    ensures p * q != 0.0
  {
    var s, t := if p > 0.0 then p else -p, if q > 0.0 then q else -q;
    assert s * t > 0.0;
    assert s * t == p * q || s * t == -(p * q);
  }

  lemma {:induction false} DotSelf(a: Vec)
    ensures Dot(a, a) >= 0.0
    ensures Dot(a, a) == 0.0 ==> forall i :: 0 <= i < |a| ==> a[i] == 0.0
  {
    if |a| > 0 {
      DotSelf(a[1..]);
      assert a[0] * a[0] >= 0.0;
      if Dot(a, a) == 0.0 {
        NoZeroDivisors(a[0], a[0]);
        forall i | 0 < i < |a| ensures a[i] == 0.0 {
          assert a[i] == a[1..][i - 1];
        }
      }
    }
  }

  /** Comparing `a . b` with `a . c` entry by entry. */
  lemma {:induction false} DotMonotone(a: Vec, b: Vec, c: Vec)
    requires |a| == |b| == |c|
    requires forall i :: 0 <= i < |a| ==> a[i] * b[i] <= a[i] * c[i]
    ensures Dot(a, b) <= Dot(a, c)
  {
    if |a| > 0 {
      forall i | 0 <= i < |a| - 1 ensures a[1..][i] * b[1..][i] <= a[1..][i] * c[1..][i] {
        assert a[i + 1] * b[i + 1] <= a[i + 1] * c[i + 1];
      }
      DotMonotone(a[1..], b[1..], c[1..]);
    }
  }

  lemma ImageStep(columns: seq<Vec>, b: Vec, m: nat)
    requires Shaped(columns, m) && |b| == |columns| > 0
    ensures Image(columns, b, m) == Axpy(Image(columns[1..], b[1..], m), b[0], columns[0])
  {
  }

  lemma {:induction false} ImageAxpy(columns: seq<Vec>, a: Vec, c: real, b: Vec, m: nat)
    requires Shaped(columns, m) && |a| == |b| == |columns|
    ensures Image(columns, Axpy(a, c, b), m) == Axpy(Image(columns, a, m), c, Image(columns, b, m))
  {
    if |columns| == 0 {
      assert Axpy(Zeros(m), c, Zeros(m)) == Zeros(m);
    } else {
      var s, u, v := Axpy(a, c, b), Image(columns[1..], a[1..], m), Image(columns[1..], b[1..], m);
      ImageAxpy(columns[1..], a[1..], c, b[1..], m);
      AxpyTail(a, c, b);
      Regroup(u, v, columns[0], a[0], b[0], c, s[0]);
      hide *;
      ImageStep(columns, s, m);
      ImageStep(columns, a, m);
      ImageStep(columns, b, m);
    }
  }

  lemma Regroup(u: Vec, v: Vec, w: Vec, a: real, b: real, c: real, s: real)
    requires |u| == |v| == |w| && s == a + c * b
    ensures Axpy(Axpy(u, c, v), s, w) == Axpy(Axpy(u, a, w), c, Axpy(v, b, w))
  {
    forall i | 0 <= i < |u|
      ensures Axpy(Axpy(u, c, v), s, w)[i] == Axpy(Axpy(u, a, w), c, Axpy(v, b, w))[i]
    {
      Distribute(u[i], v[i], w[i], a, b, c);
    }
  }

  lemma Distribute(u: real, v: real, w: real, a: real, b: real, c: real)
    ensures (u + c * v) + (a + c * b) * w == (u + a * w) + c * (v + b * w)
  {
    assert (a + c * b) * w == a * w + c * (b * w);
    assert c * (v + b * w) == c * v + c * (b * w);
  }

  /** The product and the transposed product are adjoint. */
  lemma {:induction false} Adjoint(columns: seq<Vec>, b: Vec, v: Vec)
    requires Shaped(columns, |v|) && |b| == |columns|
    ensures Dot(Image(columns, b, |v|), v) == Dot(b, Correlations(columns, v))
  {
    if |columns| == 0 {
      DotZeros(Zeros(|v|), v);
    } else {
      var g := Correlations(columns, v);
      Adjoint(columns[1..], b[1..], v);
      DotAxpy(Image(columns[1..], b[1..], |v|), b[0], columns[0], v);
      assert g[1..] == Correlations(columns[1..], v);
      assert Image(columns, b, |v|) == Axpy(Image(columns[1..], b[1..], |v|), b[0], columns[0]);
      DotStep(b, g);
      hide Dot, Axpy, Image, Correlations;
    }
  }

  /** A vector of zeros contributes nothing. */
  lemma {:induction false} ImageOfZeros(columns: seq<Vec>, b: Vec, m: nat)
    requires Shaped(columns, m) && |b| == |columns|
    requires forall j :: 0 <= j < |b| ==> b[j] == 0.0
    ensures Image(columns, b, m) == Zeros(m)
  {
    if |columns| > 0 {
      ImageOfZeros(columns[1..], b[1..], m);
    }
  }

  /** The loss along a line, exactly: a parabola whose slope is the gradient. */
  lemma LossAlongLine(columns: seq<Vec>, y: Vec, b: Vec, c: real, d: Vec)
    requires Shaped(columns, |y|) && |b| == |d| == |columns|
    ensures Loss(columns, y, Axpy(b, c, d))
         == Loss(columns, y, b) - 2.0 * c * Dot(d, Gradient(columns, y, b))
            + c * c * Dot(Image(columns, d, |y|), Image(columns, d, |y|))
  {
    hide *;
    var r, e, k := Residual(columns, y, b), Image(columns, d, |y|), -c;
    ResidualAlongLine(columns, y, b, c, k, d);
    Adjoint(columns, d, r);
    DotSymmetric(e, r);
    LossIsSquare(columns, y, Axpy(b, c, d));
    LossIsSquare(columns, y, b);
    GradientIsCorrelations(columns, y, b);
    SquareOfAxpy(r, k, e);
    Parabola(Loss(columns, y, Axpy(b, c, d)), Dot(r, r), Dot(r, e), Dot(e, e), c, k,
             Loss(columns, y, b), Dot(d, Gradient(columns, y, b)));
  }

  lemma Parabola(loss: real, rr: real, re: real, ee: real, c: real, k: real, start: real, slope: real)
    requires k == -c && start == rr && slope == re
    requires loss == rr + 2.0 * k * re + k * k * ee
    ensures loss == start - 2.0 * c * slope + c * c * ee
  {
  }

  lemma LossIsSquare(columns: seq<Vec>, y: Vec, b: Vec)
    requires Shaped(columns, |y|) && |b| == |columns|
    ensures Loss(columns, y, b) == Dot(Residual(columns, y, b), Residual(columns, y, b))
  {
  }

  lemma GradientIsCorrelations(columns: seq<Vec>, y: Vec, b: Vec)
    requires Shaped(columns, |y|) && |b| == |columns|
    ensures Gradient(columns, y, b) == Correlations(columns, Residual(columns, y, b))
  {
  }

  lemma SquareOfAxpy(r: Vec, c: real, e: Vec)
    requires |r| == |e|
    ensures Dot(Axpy(r, c, e), Axpy(r, c, e)) == Dot(r, r) + 2.0 * c * Dot(r, e) + c * c * Dot(e, e)
  {
    hide Dot, Axpy;
    var s := Axpy(r, c, e);
    DotAxpy(r, c, e, s);
    DotAxpy(r, c, e, r);
    DotAxpy(r, c, e, e);
    DotSymmetric(e, r);
    DotSymmetric(r, s);
    DotSymmetric(e, s);
    Square(Dot(r, r), Dot(r, e), Dot(e, e), c);
  }

  lemma Square(rr: real, re: real, ee: real, c: real)
    ensures (rr + c * re) + c * (re + c * ee) == rr + 2.0 * c * re + c * c * ee
  {
    assert c * (re + c * ee) == c * re + c * c * ee;
  }

  lemma ResidualAlongLine(columns: seq<Vec>, y: Vec, b: Vec, c: real, k: real, d: Vec)
    requires Shaped(columns, |y|) && |b| == |d| == |columns| && k == -c
    ensures Residual(columns, y, Axpy(b, c, d)) == Axpy(Residual(columns, y, b), k, Image(columns, d, |y|))
  {
    ImageAxpy(columns, b, c, d, |y|);
    SubtractAxpy(y, Image(columns, b, |y|), Image(columns, d, |y|), c, k);
    hide Axpy, Image;
  }

  lemma SubtractAxpy(y: Vec, u: Vec, v: Vec, c: real, k: real)
    requires |y| == |u| == |v| && k == -c
    ensures Axpy(y, -1.0, Axpy(u, c, v)) == Axpy(Axpy(y, -1.0, u), k, v)
  {
    forall i | 0 <= i < |y|
      ensures Axpy(y, -1.0, Axpy(u, c, v))[i] == Axpy(Axpy(y, -1.0, u), k, v)[i]
    {
      assert Axpy(u, c, v)[i] == u[i] + c * v[i];
      assert Axpy(Axpy(y, -1.0, u), k, v)[i] == y[i] - u[i] + k * v[i];
    }
  }
}
