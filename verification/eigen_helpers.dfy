/**
  The exact helpers of the inverse-iteration eigen-solver: the shifted matrix,
  normalisation by the largest entry, deflation against the eigenvectors already
  found, the Rayleigh quotient and the squared back error, together with the
  refinement both phase loops apply to every new iterate.
 */
module EigenHelpers {
  import opened Vectors

  /** An eigenvalue estimate with its eigenvector estimate. */
  datatype Estimate = Estimate(val: real, vec: Vector)

  /** m * v == val * v, entry by entry. */
  predicate IsEigenpair(m: Matrix, val: real, v: Vector)
    requires IsSquare(m) && |v| == |m|
  {
    MatVec(m, v) == Scale(val, v)
  }

  /** Every vector of `vs` has `n` entries. */
  predicate AllOfLength(vs: seq<Vector>, n: nat) {
    forall k :: 0 <= k < |vs| ==> |vs[k]| == n
  }

  /** The vectors of `vs` are pairwise orthogonal unit vectors of one common length. */
  predicate Orthonormal(vs: seq<Vector>) {
    forall j, k :: 0 <= j < |vs| && 0 <= k < |vs| ==>
      |vs[j]| == |vs[k]| && Dot(vs[j], vs[k]) == (if j == k then 1.0 else 0.0)
  }

  /** `w` has zero dot product with every vector of `vs`. */
  predicate OrthogonalToAll(vs: seq<Vector>, w: Vector) {
    forall k :: 0 <= k < |vs| ==> |vs[k]| == |w| && Dot(vs[k], w) == 0.0
  }

  /* ---------------------------------------------------------------------------
     Shifted matrix
     ------------------------------------------------------------------------- */

  /** `r` has the shape of `m`, its diagonal is m's diagonal minus `s`, and every
      other entry is m's. */
  predicate ShiftOf(r: Matrix, m: Matrix, s: real) {
    && |r| == |m|
    && (forall i :: 0 <= i < |m| ==> |r[i]| == |m[i]|)
    && (forall i, j :: 0 <= i < |m| && 0 <= j < |m[i]| ==>
          r[i][j] == (if i == j then m[i][j] - s else m[i][j]))
  }

  /** A copy of `m` whose diagonal entries are decreased by `s`; `m` itself is a value
      and cannot change. */
  method ShiftedMatrix(m: Matrix, s: real) returns (r: Matrix)
    requires IsSquare(m)
    ensures IsSquare(r)
    ensures ShiftOf(r, m, s)
  {
    r := m;
    var j := 0;
    while j < |r|
      invariant 0 <= j <= |m| && |r| == |m|
      invariant forall i :: 0 <= i < |m| ==> |r[i]| == |m|
      invariant forall i, k :: 0 <= i < |m| && 0 <= k < |m| ==>
        r[i][k] == (if i == k && i < j then m[i][k] - s else m[i][k])
    {
      r := r[j := r[j][j := r[j][j] - s]];
      j := j + 1;
    }
  }

  /* ---------------------------------------------------------------------------
     Squared back error
     ------------------------------------------------------------------------- */

  /** The residual m * v - val * v. */
  function Residual(m: Matrix, val: real, v: Vector): (d: Vector)
    requires IsSquare(m) && |v| == |m|
    ensures |d| == |v|
  {
    var w := MatVec(m, v);
    seq(|v|, i requires 0 <= i < |v| => w[i] - val * v[i])
  }

  /** The sum of squared residual entries, i.e. the square of the back error. */
  function BackErrorSquared(m: Matrix, val: real, v: Vector): (e: real)
    requires IsSquare(m) && |v| == |m|
    ensures e >= 0.0
    ensures e == 0.0 <==> IsEigenpair(m, val, v)
  {
    var d := Residual(m, val, v);
    DotSelf(d);
    assert IsZero(d) <==> IsEigenpair(m, val, v) by {
      if IsZero(d) {
        assert forall i :: 0 <= i < |v| ==> MatVec(m, v)[i] == Scale(val, v)[i] by {
          forall i | 0 <= i < |v| ensures MatVec(m, v)[i] == Scale(val, v)[i] {
            assert d[i] == 0.0;
          }
        }
      }
    }
    Dot(d, d)
  }

  /** Multiplying by the shifted matrix produces exactly the residual. */
  lemma ShiftedTimesIsResidual(m: Matrix, s: real, r: Matrix, v: Vector)
    requires IsSquare(m) && ShiftOf(r, m, s) && |v| == |m|
    ensures Conformable(r, v)
    ensures MatVec(r, v) == Residual(m, s, v)
  {
    forall i | 0 <= i < |m|
      ensures MatVec(r, v)[i] == Residual(m, s, v)[i]
    {
      assert r[i] == m[i][i := m[i][i] + -s];
      DotUpdate(m[i], v, i, -s);
    }
  }

  /** The shifted matrix annihilates `v` exactly when (s, v) is an eigenpair, and the
      squared back error is the squared length of (m - s I) v. */
  lemma ShiftSingularAtEigenpair(m: Matrix, s: real, r: Matrix, v: Vector)
    requires IsSquare(m) && ShiftOf(r, m, s) && |v| == |m|
    ensures Conformable(r, v)
    ensures BackErrorSquared(m, s, v) == Dot(MatVec(r, v), MatVec(r, v))
    ensures IsZero(MatVec(r, v)) <==> IsEigenpair(m, s, v)
  {
    ShiftedTimesIsResidual(m, s, r, v);
    DotSelf(MatVec(r, v));
  }

  /* ---------------------------------------------------------------------------
     Normalisation by the largest entry
     ------------------------------------------------------------------------- */

  /** The largest absolute entry among the first k, folded left to right from 0. */
  function MaxAbsTo(v: Vector, k: nat): (mag: real)
    requires k <= |v|
    ensures mag >= 0.0
    ensures forall i :: 0 <= i < k ==> Abs(v[i]) <= mag
  {
    if k == 0 then 0.0 else Max(MaxAbsTo(v, k - 1), Abs(v[k - 1]))
  }

  /** The infinity norm: the largest absolute entry. */
  function MaxAbs(v: Vector): (mag: real)
    ensures mag >= 0.0
    ensures forall i :: 0 <= i < |v| ==> Abs(v[i]) <= mag
  {
    MaxAbsTo(v, |v|)
  }

  lemma {:induction false} MaxAbsToWitness(v: Vector, k: nat) returns (j: nat)
    requires 0 < k <= |v|
    ensures j < k && Abs(v[j]) == MaxAbsTo(v, k)
  {
    if k == 1 || MaxAbsTo(v, k - 1) <= Abs(v[k - 1]) {
      j := k - 1;
    } else {
      j := MaxAbsToWitness(v, k - 1);
    }
  }

  /** The largest absolute entry of a non-empty vector is attained at some index. */
  lemma MaxAbsWitness(v: Vector) returns (k: nat)
    requires |v| > 0
    ensures k < |v| && Abs(v[k]) == MaxAbs(v)
  {
    k := MaxAbsToWitness(v, |v|);
  }

  /** The largest absolute entry is zero exactly for the zero vector. */
  lemma MaxAbsZero(v: Vector)
    ensures MaxAbs(v) == 0.0 <==> IsZero(v)
  {
    if |v| > 0 && MaxAbs(v) != 0.0 {
      var k := MaxAbsWitness(v);
      assert v[k] != 0.0;
    }
  }

  lemma MaxAbsPositive(v: Vector)
    requires !IsZero(v)
    ensures MaxAbs(v) > 0.0
  {
    MaxAbsZero(v);
  }

  lemma InversePositive(x: real)
    requires x > 0.0
    ensures 1.0 / x > 0.0
    ensures (1.0 / x) * x == 1.0
  {
  }

  /** The scalar facts behind dividing one entry by the largest absolute entry. */
  lemma DivideByMax(mag: real, c: real, x: real)
    requires mag > 0.0 && c * mag == 1.0 && Abs(x) <= mag
    ensures -1.0 <= c * x <= 1.0
    ensures Abs(x) == mag ==> Abs(c * x) == 1.0
    ensures (c * x) * mag == x
  {
    assert c > 0.0;
    assert (c * x) * mag == x * (c * mag);
  }

  /** A vector whose entries are bounded by `bound` in absolute value, with entry k
      attaining it, has `bound` as its largest absolute entry. */
  lemma MaxAbsAttained(v: Vector, bound: real, k: nat)
    requires k < |v| && Abs(v[k]) == bound
    requires forall i :: 0 <= i < |v| ==> Abs(v[i]) <= bound
    ensures MaxAbs(v) == bound
  {
    var j := MaxAbsWitness(v);
  }

  /** Scaling by the inverse of a bound on every entry lands every entry in [-1, 1]
      and can be undone by multiplying back. */
  lemma ScaleByInverseBound(v: Vector, mag: real, c: real)
    requires mag > 0.0 && c * mag == 1.0
    requires forall i :: 0 <= i < |v| ==> Abs(v[i]) <= mag
    ensures forall i :: 0 <= i < |v| ==> -1.0 <= Scale(c, v)[i] <= 1.0
    ensures Scale(mag, Scale(c, v)) == v
  {
    var r := Scale(c, v);
    forall i | 0 <= i < |v| ensures -1.0 <= r[i] <= 1.0 && Scale(mag, r)[i] == v[i] {
      DivideByMax(mag, c, v[i]);
      assert mag * r[i] == r[i] * mag;
    }
  }

  /** Dividing a nonzero vector by its largest absolute entry. */
  function DivideByMaxAbs(v: Vector): (r: Vector)
    requires !IsZero(v)
    ensures |r| == |v|
    ensures forall i :: 0 <= i < |v| ==> -1.0 <= r[i] <= 1.0
    ensures Scale(MaxAbs(v), r) == v
    ensures MaxAbs(r) == 1.0
  {
    var mag := MaxAbs(v);
    MaxAbsPositive(v);
    var c := 1.0 / mag;
    InversePositive(mag);
    ScaleByInverseBound(v, mag, c);
    MaxAbsOfScaled(v, c);
    Scale(c, v)
  }

  /** The entry where the largest absolute value is attained becomes 1 or -1. */
  lemma MaxAbsOfScaled(v: Vector, c: real)
    requires |v| > 0 && MaxAbs(v) > 0.0 && c * MaxAbs(v) == 1.0
    requires forall i :: 0 <= i < |v| ==> -1.0 <= Scale(c, v)[i] <= 1.0
    ensures MaxAbs(Scale(c, v)) == 1.0
  {
    var k := MaxAbsWitness(v);
    DivideByMax(MaxAbs(v), c, v[k]);
    MaxAbsAttained(Scale(c, v), 1.0, k);
  }

  /** Scales `v` so that its largest absolute entry becomes 1; the zero vector becomes
      all ones. */
  function NormalizeMaxElement(v: Vector): (r: Vector)
    ensures |r| == |v|
    ensures IsZero(v) ==> forall i :: 0 <= i < |r| ==> r[i] == 1.0
    ensures !IsZero(v) ==> Scale(MaxAbs(v), r) == v
    ensures forall i :: 0 <= i < |r| ==> -1.0 <= r[i] <= 1.0
    ensures |v| > 0 ==> MaxAbs(r) == 1.0
  {
    var mag := MaxAbs(v);
    MaxAbsZero(v);
    if mag == 0.0 then
      var ones := seq(|v|, _ => 1.0);
      if |v| > 0 then MaxAbsAttained(ones, 1.0, 0); ones else ones
    else
      DivideByMaxAbs(v)
  }

  /** Normalising twice is normalising once. */
  lemma NormalizeMaxElementIdempotent(v: Vector)
    ensures NormalizeMaxElement(NormalizeMaxElement(v)) == NormalizeMaxElement(v)
  {
    var r := NormalizeMaxElement(v);
    if |v| > 0 {
      var r2 := NormalizeMaxElement(r);
      assert !IsZero(r);
      forall i | 0 <= i < |r| ensures r2[i] == r[i] {
        assert r2[i] * 1.0 == r[i];
      }
    }
  }

  /** A normalised non-empty vector is never the zero vector, so its Rayleigh quotient
      is defined. */
  lemma NormalizedIsNonzero(v: Vector)
    requires |v| > 0
    ensures !IsZero(NormalizeMaxElement(v))
  {
    MaxAbsZero(NormalizeMaxElement(v));
  }

  /** Normalising a nonzero vector multiplies it by the positive factor 1 / MaxAbs(v). */
  lemma NormalizeIsPositiveScaling(v: Vector)
    requires !IsZero(v)
    ensures 1.0 / MaxAbs(v) > 0.0
    ensures NormalizeMaxElement(v) == Scale(1.0 / MaxAbs(v), v)
  {
    InversePositive(MaxAbs(v));
  }

  /* ---------------------------------------------------------------------------
     Deflation
     ------------------------------------------------------------------------- */

  /** v minus its projection onto e, with the projection length taken as e . v. Against
      a unit vector e the result is orthogonal to e, and a vector already orthogonal to
      e is kept. */
  function RemoveProjection(e: Vector, v: Vector): (r: Vector)
    requires |e| == |v|
    ensures |r| == |v|
    ensures Dot(e, e) == 1.0 ==> Dot(e, r) == 0.0
    ensures Dot(e, v) == 0.0 ==> r == v
  {
    var p := Dot(e, v);
    var r := seq(|v|, i requires 0 <= i < |v| => v[i] - p * e[i]);
    DotAxpy(e, v, e, r, p);
    r
  }

  /** Subtracts, in order, the projection of the current vector onto each known
      eigenvector. */
  function DeleteProjections(known: seq<Vector>, v: Vector): (r: Vector)
    requires AllOfLength(known, |v|)
    ensures |r| == |v|
    ensures |known| == 0 ==> r == v
    decreases |known|
  {
    if |known| == 0 then v
    else DeleteProjections(known[1..], RemoveProjection(known[0], v))
  }

  lemma RemoveProjectionDot(w: Vector, e: Vector, v: Vector)
    requires |w| == |e| == |v|
    ensures Dot(w, RemoveProjection(e, v)) == Dot(w, v) - Dot(e, v) * Dot(w, e)
  {
    DotAxpy(w, v, e, RemoveProjection(e, v), Dot(e, v));
  }

  /** Deflation does not change the dot product with a vector orthogonal to every
      known eigenvector. */
  lemma {:induction false} DeleteProjectionsKeepsDot(w: Vector, known: seq<Vector>, v: Vector)
    requires |w| == |v| && AllOfLength(known, |v|)
    requires OrthogonalToAll(known, w)
    ensures Dot(w, DeleteProjections(known, v)) == Dot(w, v)
    decreases |known|
  {
    if |known| > 0 {
      var v' := RemoveProjection(known[0], v);
      DotSymmetric(known[0], w);
      RemoveProjectionDot(w, known[0], v);
      assert OrthogonalToAll(known[1..], w) by {
        forall k | 0 <= k < |known| - 1 ensures Dot(known[1..][k], w) == 0.0 {
          assert known[1..][k] == known[k + 1];
        }
      }
      DeleteProjectionsKeepsDot(w, known[1..], v');
    }
  }

  /** The tail of an orthonormal sequence is orthonormal. */
  lemma OrthonormalTail(known: seq<Vector>)
    requires |known| > 0 && Orthonormal(known)
    ensures Orthonormal(known[1..])
  {
    forall j, k | 0 <= j < |known| - 1 && 0 <= k < |known| - 1
      ensures |known[1..][j]| == |known[1..][k]|
      ensures Dot(known[1..][j], known[1..][k]) == (if j == k then 1.0 else 0.0)
    {
      assert known[1..][j] == known[j + 1] && known[1..][k] == known[k + 1];
    }
  }

  /** Against orthonormal known eigenvectors, deflation leaves a vector orthogonal to
      every one of them. */
  lemma {:induction false} DeleteProjectionsOrthogonal(known: seq<Vector>, v: Vector)
    requires AllOfLength(known, |v|) && Orthonormal(known)
    ensures OrthogonalToAll(known, DeleteProjections(known, v))
    decreases |known|
  {
    if |known| > 0 {
      var v' := RemoveProjection(known[0], v);
      var r := DeleteProjections(known, v);
      OrthonormalTail(known);
      DeleteProjectionsOrthogonal(known[1..], v');
      assert OrthogonalToAll(known[1..], known[0]) by {
        forall k | 0 <= k < |known| - 1
          ensures |known[1..][k]| == |known[0]| && Dot(known[1..][k], known[0]) == 0.0
        {
          assert known[1..][k] == known[k + 1];
        }
      }
      DeleteProjectionsKeepsDot(known[0], known[1..], v');
      forall k | 0 <= k < |known| ensures Dot(known[k], r) == 0.0 {
        if k > 0 {
          assert known[k] == known[1..][k - 1];
        }
      }
    }
  }

  /** A vector already orthogonal to every known eigenvector is left unchanged. */
  lemma {:induction false} DeleteProjectionsFixes(known: seq<Vector>, w: Vector)
    requires AllOfLength(known, |w|) && OrthogonalToAll(known, w)
    ensures DeleteProjections(known, w) == w
    decreases |known|
  {
    if |known| > 0 {
      assert RemoveProjection(known[0], w) == w;
      assert OrthogonalToAll(known[1..], w) by {
        forall k | 0 <= k < |known| - 1 ensures Dot(known[1..][k], w) == 0.0 {
          assert known[1..][k] == known[k + 1];
        }
      }
      DeleteProjectionsFixes(known[1..], w);
    }
  }

  /** Deflating twice against orthonormal eigenvectors is deflating once. */
  lemma DeleteProjectionsIdempotent(known: seq<Vector>, v: Vector)
    requires AllOfLength(known, |v|) && Orthonormal(known)
    ensures DeleteProjections(known, DeleteProjections(known, v)) == DeleteProjections(known, v)
  {
    DeleteProjectionsOrthogonal(known, v);
    DeleteProjectionsFixes(known, DeleteProjections(known, v));
  }

  /* ---------------------------------------------------------------------------
     Rayleigh quotient
     ------------------------------------------------------------------------- */

  /** The Rayleigh quotient (v . m v) / (v . v) of a nonzero vector. */
  function ScaleFactor(m: Matrix, v: Vector): (l: real)
    requires IsSquare(m) && |v| == |m| && !IsZero(v)
    ensures Dot(v, v) > 0.0 && l * Dot(v, v) == Dot(v, MatVec(m, v))
  {
    DotSelf(v);
    Dot(v, MatVec(m, v)) / Dot(v, v)
  }

  lemma CancelFactor(a: real, d: real)
    requires d != 0.0
    ensures (a * d) / d == a
  {
  }

  lemma CancelCommonFactor(k: real, a: real, b: real)
    requires k != 0.0 && b != 0.0
    ensures (k * a) / (k * b) == a / b
  {
    ProductZero(k, b);
  }

  /** The Rayleigh quotient of an eigenvector is its eigenvalue. */
  lemma ScaleFactorOfEigenvector(m: Matrix, v: Vector, lambda: real)
    requires IsSquare(m) && |v| == |m| && !IsZero(v)
    requires IsEigenpair(m, lambda, v)
    ensures ScaleFactor(m, v) == lambda
  {
    DotScaleRight(v, lambda, v);
    DotSelf(v);
    CancelFactor(lambda, Dot(v, v));
  }

  lemma ScaleNonzero(c: real, v: Vector)
    requires c != 0.0 && !IsZero(v)
    ensures !IsZero(Scale(c, v))
  {
    var k :| 0 <= k < |v| && v[k] != 0.0;
    ProductZero(c, v[k]);
    assert Scale(c, v)[k] != 0.0;
  }

  /** The Rayleigh quotient does not depend on the length or sign of the vector. */
  lemma ScaleFactorScaleInvariant(m: Matrix, v: Vector, c: real)
    requires IsSquare(m) && |v| == |m| && !IsZero(v) && c != 0.0
    ensures !IsZero(Scale(c, v))
    ensures ScaleFactor(m, Scale(c, v)) == ScaleFactor(m, v)
  {
    ScaleNonzero(c, v);
    var cv := Scale(c, v);
    var w := MatVec(m, v);
    MatVecScale(m, c, v);
    DotScaleRight(cv, c, w);
    DotScaleLeft(c, v, w);
    DotScaleRight(cv, c, v);
    DotScaleLeft(c, v, v);
    assert Dot(cv, MatVec(m, cv)) == (c * c) * Dot(v, w);
    assert Dot(cv, cv) == (c * c) * Dot(v, v);
    ProductZero(c, c);
    DotSelf(v);
    CancelCommonFactor(c * c, Dot(v, w), Dot(v, v));
  }

  lemma ProductNonnegative(x: real, y: real)
    requires x >= 0.0 && y >= 0.0
    ensures x * y >= 0.0
  {
  }

  /** A quadratic W - 2 mu B + mu^2 C with C > 0 is smallest at mu = B / C. */
  lemma QuadraticMinimum(w: real, b: real, c: real, l: real, mu: real)
    requires c > 0.0 && l * c == b
    ensures w - 2.0 * l * b + l * l * c <= w - 2.0 * mu * b + mu * mu * c
  {
    var t := mu - l;
    SquareFacts(t);
    ProductNonnegative(c, t * t);
    assert (w - 2.0 * mu * b + mu * mu * c) - (w - 2.0 * l * b + l * l * c) == c * (t * t);
  }

  /** The squared back error as a quadratic in the eigenvalue estimate. */
  lemma BackErrorExpansion(m: Matrix, mu: real, v: Vector)
    requires IsSquare(m) && |v| == |m|
    ensures BackErrorSquared(m, mu, v)
      == Dot(MatVec(m, v), MatVec(m, v)) - 2.0 * mu * Dot(v, MatVec(m, v)) + mu * mu * Dot(v, v)
  {
    var w := MatVec(m, v);
    var d := Residual(m, mu, v);
    DotAxpy(d, w, v, d, mu);
    DotSymmetric(d, w);
    DotAxpy(w, w, v, d, mu);
    DotSymmetric(d, v);
    DotAxpy(v, w, v, d, mu);
    DotSymmetric(w, v);
  }

  /** Among all eigenvalue estimates for a fixed nonzero vector, the Rayleigh quotient
      has the smallest back error. */
  lemma ScaleFactorMinimisesBackError(m: Matrix, v: Vector, mu: real)
    requires IsSquare(m) && |v| == |m| && !IsZero(v)
    ensures BackErrorSquared(m, ScaleFactor(m, v), v) <= BackErrorSquared(m, mu, v)
  {
    var w := MatVec(m, v);
    var l := ScaleFactor(m, v);
    BackErrorExpansion(m, mu, v);
    BackErrorExpansion(m, l, v);
    QuadraticMinimumAt(BackErrorSquared(m, l, v), BackErrorSquared(m, mu, v),
      Dot(w, w), Dot(v, w), Dot(v, v), l, mu);
  }

  /** QuadraticMinimum for two values already known to be the quadratic at l and mu. */
  lemma QuadraticMinimumAt(atL: real, atMu: real, w: real, b: real, c: real, l: real, mu: real)
    requires c > 0.0 && l * c == b
    requires atL == w - 2.0 * l * b + l * l * c && atMu == w - 2.0 * mu * b + mu * mu * c
    ensures atL <= atMu
  {
    QuadraticMinimum(w, b, c, l, mu);
  }

  /* ---------------------------------------------------------------------------
     One refinement step
     ------------------------------------------------------------------------- */

  /** Normalising keeps a nonzero vector orthogonal to whatever it was orthogonal to. */
  lemma NormalizeKeepsOrthogonality(known: seq<Vector>, w: Vector)
    requires OrthogonalToAll(known, w) && !IsZero(w)
    ensures OrthogonalToAll(known, NormalizeMaxElement(w))
  {
    NormalizeIsPositiveScaling(w);
    forall k | 0 <= k < |known| ensures Dot(known[k], NormalizeMaxElement(w)) == 0.0 {
      DotScaleRight(known[k], 1.0 / MaxAbs(w), w);
    }
  }

  /** What both phase loops do with a new iterate: normalise it by its largest entry,
      deflate it, normalise again and take the Rayleigh quotient. */
  function Refine(m: Matrix, known: seq<Vector>, raw: Vector): (e: Estimate)
    requires IsSquare(m) && |m| > 0 && |raw| == |m| && AllOfLength(known, |m|)
    ensures |e.vec| == |m|
    ensures MaxAbs(e.vec) == 1.0
    ensures !IsZero(e.vec) && e.val == ScaleFactor(m, e.vec)
    ensures Orthonormal(known) && !IsZero(DeleteProjections(known, NormalizeMaxElement(raw)))
      ==> OrthogonalToAll(known, e.vec)
  {
    var unit := NormalizeMaxElement(raw);
    var deflated := DeleteProjections(known, unit);
    var vec := NormalizeMaxElement(deflated);
    NormalizedIsNonzero(deflated);
    if Orthonormal(known) && !IsZero(deflated) then
      DeleteProjectionsOrthogonal(known, unit);
      NormalizeKeepsOrthogonality(known, deflated);
      Estimate(ScaleFactor(m, vec), vec)
    else
      Estimate(ScaleFactor(m, vec), vec)
  }

  /** The positive factor refinement scales a nonzero raw iterate by, as seen from any
      vector orthogonal to the known eigenvectors: one over the largest entry of the raw
      iterate, times one over the largest entry of its deflation. */
  function DirectionFactor(known: seq<Vector>, raw: Vector): (c: real)
    requires AllOfLength(known, |raw|) && !IsZero(raw)
    requires !IsZero(DeleteProjections(known, NormalizeMaxElement(raw)))
    ensures c > 0.0
  {
    var deflated := DeleteProjections(known, NormalizeMaxElement(raw));
    NormalizeIsPositiveScaling(raw);
    NormalizeIsPositiveScaling(deflated);
    ProductPositive(1.0 / MaxAbs(deflated), 1.0 / MaxAbs(raw));
    (1.0 / MaxAbs(deflated)) * (1.0 / MaxAbs(raw))
  }

  /** Refinement keeps the direction of `raw` up to the deflated part: measured against
      any vector w orthogonal to the known eigenvectors, the refined vector is `raw`
      scaled by the one positive factor `DirectionFactor(known, raw)`, whatever w is.
      With no known eigenvectors every w qualifies, so the refined vector is then that
      positive multiple of `raw`. */
  lemma RefineKeepsDirection(m: Matrix, known: seq<Vector>, raw: Vector, w: Vector)
    requires IsSquare(m) && |m| > 0 && |raw| == |m| && AllOfLength(known, |m|)
    requires !IsZero(raw) && !IsZero(DeleteProjections(known, NormalizeMaxElement(raw)))
    requires |w| == |raw| && OrthogonalToAll(known, w)
    ensures Dot(w, Refine(m, known, raw).vec) == DirectionFactor(known, raw) * Dot(w, raw)
  {
    var a, b := RefineFactors(m, known, raw);
    ScaledDeflationDot(w, known, raw, a, b, DirectionFactor(known, raw));
  }

  /** Refinement written as two scalings around the deflation. */
  lemma RefineFactors(m: Matrix, known: seq<Vector>, raw: Vector) returns (a: real, b: real)
    requires IsSquare(m) && |m| > 0 && |raw| == |m| && AllOfLength(known, |m|)
    requires !IsZero(raw) && !IsZero(DeleteProjections(known, NormalizeMaxElement(raw)))
    ensures DirectionFactor(known, raw) == b * a
    ensures Refine(m, known, raw).vec == Scale(b, DeleteProjections(known, Scale(a, raw)))
  {
    var deflated := DeleteProjections(known, NormalizeMaxElement(raw));
    NormalizeIsPositiveScaling(raw);
    NormalizeIsPositiveScaling(deflated);
    a, b := 1.0 / MaxAbs(raw), 1.0 / MaxAbs(deflated);
  }

  /** One vector's view of normalise, deflate, normalise, with the two factors named. */
  lemma ScaledDeflationDot(w: Vector, known: seq<Vector>, raw: Vector, a: real, b: real, c: real)
    requires |w| == |raw| && AllOfLength(known, |raw|) && OrthogonalToAll(known, w) && c == b * a
    ensures Dot(w, Scale(b, DeleteProjections(known, Scale(a, raw)))) == c * Dot(w, raw)
  {
    var unit := Scale(a, raw);
    DotScaleRight(w, b, DeleteProjections(known, unit));
    DeleteProjectionsKeepsDot(w, known, unit);
    DotScaleRight(w, a, raw);
  }

  lemma ProductPositive(x: real, y: real)
    requires x > 0.0 && y > 0.0
    ensures x * y > 0.0
  {
  }

  /** One power-iteration step: multiply by the matrix, then refine. */
  function PowerStep(m: Matrix, known: seq<Vector>, vec: Vector): (e: Estimate)
    requires IsSquare(m) && |m| > 0 && |vec| == |m| && AllOfLength(known, |m|)
    ensures |e.vec| == |m| && MaxAbs(e.vec) == 1.0
    ensures !IsZero(e.vec) && e.val == ScaleFactor(m, e.vec)
    ensures Orthonormal(known) && !IsZero(DeleteProjections(known, NormalizeMaxElement(MatVec(m, vec))))
      ==> OrthogonalToAll(known, e.vec)
  {
    Refine(m, known, MatVec(m, vec))
  }

  /** The power step moves towards raw = m vec: against any vector w orthogonal to the
      known eigenvectors, the new vector is raw scaled by one positive factor, the same
      for every such w. */
  lemma PowerStepKeepsDirection(m: Matrix, known: seq<Vector>, vec: Vector, raw: Vector, w: Vector)
    requires IsSquare(m) && |m| > 0 && |vec| == |m| && AllOfLength(known, |m|)
    requires raw == MatVec(m, vec)
    requires !IsZero(raw) && !IsZero(DeleteProjections(known, NormalizeMaxElement(raw)))
    requires |w| == |vec| && OrthogonalToAll(known, w)
    ensures Dot(w, PowerStep(m, known, vec).vec) == DirectionFactor(known, raw) * Dot(w, raw)
  {
    assert PowerStep(m, known, vec) == Refine(m, known, raw);
    RefineKeepsDirection(m, known, raw, w);
  }

  /** Any multiple of an eigenvector is an eigenvector for the same eigenvalue. */
  lemma EigenpairScale(m: Matrix, lambda: real, v: Vector, c: real)
    requires IsSquare(m) && |v| == |m| && IsEigenpair(m, lambda, v)
    ensures IsEigenpair(m, lambda, Scale(c, v))
  {
    MatVecScale(m, c, v);
    forall i | 0 <= i < |v| ensures MatVec(m, Scale(c, v))[i] == Scale(lambda, Scale(c, v))[i] {
      assert MatVec(m, v)[i] == lambda * v[i];
      assert c * (lambda * v[i]) == lambda * (c * v[i]);
    }
  }

  /** Normalising a nonzero eigenvector that is orthogonal to the known eigenvectors
      gives another such eigenvector. */
  lemma NormalizeEigenvector(m: Matrix, known: seq<Vector>, lambda: real, w: Vector)
    requires IsSquare(m) && |m| > 0 && |w| == |m|
    requires IsEigenpair(m, lambda, w) && !IsZero(w) && OrthogonalToAll(known, w)
    ensures IsEigenpair(m, lambda, NormalizeMaxElement(w))
    ensures !IsZero(NormalizeMaxElement(w))
    ensures OrthogonalToAll(known, NormalizeMaxElement(w))
  {
    NormalizeIsPositiveScaling(w);
    EigenpairScale(m, lambda, w, 1.0 / MaxAbs(w));
    NormalizeKeepsOrthogonality(known, w);
  }

  /** An exact eigenpair with nonzero eigenvalue, orthogonal to the known eigenvectors,
      is a fixed point of the power step: the eigenvalue is reproduced exactly and the
      new vector is still an eigenvector for it. */
  lemma PowerStepFixesEigenpair(m: Matrix, known: seq<Vector>, v: Vector, lambda: real)
    requires IsSquare(m) && |m| > 0 && |v| == |m| && AllOfLength(known, |m|)
    requires IsEigenpair(m, lambda, v) && lambda != 0.0 && !IsZero(v)
    requires OrthogonalToAll(known, v)
    ensures PowerStep(m, known, v).val == lambda
    ensures IsEigenpair(m, lambda, PowerStep(m, known, v).vec)
  {
    var raw := MatVec(m, v);
    assert raw == Scale(lambda, v);
    ScaleNonzero(lambda, v);
    EigenpairScale(m, lambda, v, lambda);
    forall k | 0 <= k < |known| ensures Dot(known[k], raw) == 0.0 {
      DotScaleRight(known[k], lambda, v);
    }
    NormalizeEigenvector(m, known, lambda, raw);
    var unit := NormalizeMaxElement(raw);
    DeleteProjectionsFixes(known, unit);
    NormalizeEigenvector(m, known, lambda, unit);
    var vec := NormalizeMaxElement(unit);
    ScaleFactorOfEigenvector(m, vec, lambda);
  }
}
