/**
  Dense real vectors and row-major matrices: the small part of the linear-algebra
  library that the eigen-solver and the affine fitter rely on. `float64` is modelled
  as `real`, so every identity below is exact.
 */
module Vectors {

  type Vector = seq<real>

  /** A matrix is a sequence of rows. */
  type Matrix = seq<Vector>

  function Abs(x: real): real {
    if x < 0.0 then -x else x
  }

  function Max(a: real, b: real): real {
    if a < b then b else a
  }

  /** The sum of a[i] * b[i] over the first k indices. */
  function DotTo(a: Vector, b: Vector, k: nat): real
    requires k <= |a| && k <= |b|
  {
    if k == 0 then 0.0 else DotTo(a, b, k - 1) + a[k - 1] * b[k - 1]
  }

  function Dot(a: Vector, b: Vector): real
    requires |a| == |b|
  {
    DotTo(a, b, |a|)
  }

  predicate IsSquare(m: Matrix) {
    forall i :: 0 <= i < |m| ==> |m[i]| == |m|
  }

  predicate IsZero(v: Vector) {
    forall i :: 0 <= i < |v| ==> v[i] == 0.0
  }

  /** Every row of `m` has as many entries as `v`. */
  predicate Conformable(m: Matrix, v: Vector) {
    forall i :: 0 <= i < |m| ==> |m[i]| == |v|
  }

  /** The matrix-vector product m * v. */
  function MatVec(m: Matrix, v: Vector): (r: Vector)
    requires Conformable(m, v)
    ensures |r| == |m|
  {
    seq(|m|, i requires 0 <= i < |m| => Dot(m[i], v))
  }

  function Scale(c: real, v: Vector): (r: Vector)
    ensures |r| == |v|
  {
    seq(|v|, i requires 0 <= i < |v| => c * v[i])
  }

  /** The entrywise difference a - b. */
  function Sub(a: Vector, b: Vector): (r: Vector)
    requires |a| == |b|
    ensures |r| == |a|
  {
    seq(|a|, i requires 0 <= i < |a| => a[i] - b[i])
  }

  lemma {:induction false} DotToSymmetric(a: Vector, b: Vector, k: nat)
    requires k <= |a| && k <= |b|
    ensures DotTo(a, b, k) == DotTo(b, a, k)
  {
    if k > 0 {
      DotToSymmetric(a, b, k - 1);
    }
  }

  lemma DotSymmetric(a: Vector, b: Vector)
    requires |a| == |b|
    ensures Dot(a, b) == Dot(b, a)
  {
    DotToSymmetric(a, b, |a|);
  }

  lemma {:induction false} DotToAxpy(a: Vector, b: Vector, e: Vector, r: Vector, c: real, k: nat)
    requires k <= |a| && k <= |b| && k <= |e| && k <= |r|
    requires forall i :: 0 <= i < k ==> r[i] == b[i] - c * e[i]
    ensures DotTo(a, r, k) == DotTo(a, b, k) - c * DotTo(a, e, k)
  {
    if k > 0 {
      DotToAxpy(a, b, e, r, c, k - 1);
      var i := k - 1;
      assert a[i] * r[i] == a[i] * b[i] - c * (a[i] * e[i]);
    }
  }

  /** Dot(a, b - c * e) == Dot(a, b) - c * Dot(a, e). */
  lemma DotAxpy(a: Vector, b: Vector, e: Vector, r: Vector, c: real)
    requires |a| == |b| == |e| == |r|
    requires forall i :: 0 <= i < |r| ==> r[i] == b[i] - c * e[i]
    ensures Dot(a, r) == Dot(a, b) - c * Dot(a, e)
  {
    DotToAxpy(a, b, e, r, c, |a|);
  }

  lemma {:induction false} DotToScaled(a: Vector, b: Vector, r: Vector, c: real, k: nat)
    requires k <= |a| && k <= |b| && k <= |r|
    requires forall i :: 0 <= i < k ==> r[i] == c * b[i]
    ensures DotTo(a, r, k) == c * DotTo(a, b, k)
  {
    if k > 0 {
      DotToScaled(a, b, r, c, k - 1);
      var i := k - 1;
      assert a[i] * r[i] == c * (a[i] * b[i]);
    }
  }

  /** Dot(a, c * b) == c * Dot(a, b), for any r equal to c * b entry by entry. */
  lemma DotScaled(a: Vector, b: Vector, r: Vector, c: real)
    requires |a| == |b| == |r|
    requires forall i :: 0 <= i < |r| ==> r[i] == c * b[i]
    ensures Dot(a, r) == c * Dot(a, b)
  {
    DotToScaled(a, b, r, c, |a|);
  }

  lemma DotScaleRight(a: Vector, c: real, b: Vector)
    requires |a| == |b|
    ensures Dot(a, Scale(c, b)) == c * Dot(a, b)
  {
    DotScaled(a, b, Scale(c, b), c);
  }

  lemma DotScaleLeft(c: real, a: Vector, b: Vector)
    requires |a| == |b|
    ensures Dot(Scale(c, a), b) == c * Dot(a, b)
  {
    DotSymmetric(Scale(c, a), b);
    DotScaleRight(b, c, a);
    DotSymmetric(a, b);
  }

  lemma ProductZero(x: real, y: real)
    ensures x * y == 0.0 ==> x == 0.0 || y == 0.0
  {
  }

  lemma SquareFacts(x: real)
    ensures x * x >= 0.0
    ensures x * x == 0.0 ==> x == 0.0
  {
    ProductZero(x, x);
  }

  lemma {:induction false} DotToSelf(a: Vector, k: nat)
    requires k <= |a|
    ensures DotTo(a, a, k) >= 0.0
    ensures DotTo(a, a, k) == 0.0 <==> forall i :: 0 <= i < k ==> a[i] == 0.0
  {
    if k > 0 {
      DotToSelf(a, k - 1);
      SquareFacts(a[k - 1]);
      if DotTo(a, a, k) == 0.0 {
        assert a[k - 1] == 0.0;
      }
    }
  }

  /** A vector's dot product with itself is non-negative, and zero exactly for the zero vector. */
  lemma DotSelf(a: Vector)
    ensures Dot(a, a) >= 0.0
    ensures Dot(a, a) == 0.0 <==> IsZero(a)
  {
    DotToSelf(a, |a|);
  }

  lemma {:induction false} DotToSumSquare(e: Vector, u: Vector, w: Vector, k: nat)
    requires k <= |e| && k <= |u| && k <= |w|
    requires forall i :: 0 <= i < k ==> w[i] == e[i] + u[i]
    ensures DotTo(w, w, k) == DotTo(e, e, k) + 2.0 * DotTo(e, u, k) + DotTo(u, u, k)
  {
    if k > 0 {
      DotToSumSquare(e, u, w, k - 1);
      var i := k - 1;
      assert w[i] * w[i] == e[i] * e[i] + 2.0 * (e[i] * u[i]) + u[i] * u[i];
    }
  }

  /** |e + u|^2 == |e|^2 + 2 e . u + |u|^2. */
  lemma DotSumSquare(e: Vector, u: Vector, w: Vector)
    requires |e| == |u| == |w|
    requires forall i :: 0 <= i < |w| ==> w[i] == e[i] + u[i]
    ensures Dot(w, w) == Dot(e, e) + 2.0 * Dot(e, u) + Dot(u, u)
  {
    DotToSumSquare(e, u, w, |w|);
  }

  /** Dot(a, x - y) == Dot(a, x) - Dot(a, y). */
  lemma DotSub(a: Vector, x: Vector, y: Vector)
    requires |a| == |x| == |y|
    ensures Dot(a, Sub(x, y)) == Dot(a, x) - Dot(a, y)
  {
    DotAxpy(a, x, y, Sub(x, y), 1.0);
  }

  /** A matrix commutes with scaling its argument. */
  lemma MatVecScale(m: Matrix, c: real, v: Vector)
    requires Conformable(m, v)
    ensures Conformable(m, Scale(c, v))
    ensures MatVec(m, Scale(c, v)) == Scale(c, MatVec(m, v))
  {
    forall i | 0 <= i < |m|
      ensures MatVec(m, Scale(c, v))[i] == Scale(c, MatVec(m, v))[i]
    {
      DotScaleRight(m[i], c, v);
    }
  }

  /** Changing one entry of `a` by `d` changes its dot product with `b` by d * b[j]. */
  lemma {:induction false} DotToUpdate(a: Vector, b: Vector, j: nat, d: real, k: nat)
    requires j < |a| && k <= |a| && k <= |b|
    ensures DotTo(a[j := a[j] + d], b, k) == DotTo(a, b, k) + (if j < k then d * b[j] else 0.0)
  {
    if k > 0 {
      DotToUpdate(a, b, j, d, k - 1);
    }
  }

  lemma DotUpdate(a: Vector, b: Vector, j: nat, d: real)
    requires |a| == |b| && j < |a|
    ensures Dot(a[j := a[j] + d], b) == Dot(a, b) + d * b[j]
  {
    DotToUpdate(a, b, j, d, |a|);
  }
}
