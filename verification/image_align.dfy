/**
  The affine fit of the image aligner. A transformation maps (x, y) to
  (a x + b y + tx, c x + d y + ty). Fitting one to point correspondences is a linear
  least-squares problem in the six unknowns (a, b, tx, c, d, ty): a 2n-row design
  matrix, held as its six columns, its 6x6 normal matrix and the right-hand side
  formed from the interleaved destination coordinates. The Cholesky solve between
  assembly and unpacking is a parameter.
 */
module ImageAlign {
  import opened Vectors

  datatype Point = Point(x: real, y: real)

  /** The linear part of a transformation, row-major: [a, b, c, d]. */
  type Coefficients = s: seq<real> | |s| == 4 witness [0.0, 0.0, 0.0, 0.0]

  datatype Transformation = Transformation(matrix: Coefficients, translateX: real, translateY: real)

  /* ---------------------------------------------------------------------------
     Applying a transformation
     ------------------------------------------------------------------------- */

  /** Where a point goes: its design row 2i dotted with the unknowns (a, b, tx, c, d, ty)
      gives the new x, and its row 2i + 1 the new y. */
  function Apply(t: Transformation, p: Point): (q: Point)
    ensures q.x == Dot(EvenRow(p), Pack(t)) && q.y == Dot(OddRow(p), Pack(t))
  {
    Dot6(EvenRow(p), Pack(t));
    Dot6(OddRow(p), Pack(t));
    Point(p.x * t.matrix[0] + p.y * t.matrix[1] + t.translateX,
          p.x * t.matrix[2] + p.y * t.matrix[3] + t.translateY)
  }

  /** The design row a point contributes for its new x. */
  function EvenRow(p: Point): Vector {
    [p.x, p.y, 1.0, 0.0, 0.0, 0.0]
  }

  /** The design row a point contributes for its new y. */
  function OddRow(p: Point): Vector {
    [0.0, 0.0, 0.0, p.x, p.y, 1.0]
  }

  function ApplyAll(t: Transformation, ps: seq<Point>): (qs: seq<Point>)
    ensures |qs| == |ps|
  {
    seq(|ps|, i requires 0 <= i < |ps| => Apply(t, ps[i]))
  }

  const Identity: Transformation := Transformation([1.0, 0.0, 0.0, 1.0], 0.0, 0.0)

  /** The identity matrix with no translation moves no point. */
  lemma ApplyIdentity(p: Point)
    ensures Apply(Identity, p) == p
  {
  }

  /* ---------------------------------------------------------------------------
     Interleaved coordinates
     ------------------------------------------------------------------------- */

  /** x0, y0, x1, y1, ...: the layout of the right-hand side. */
  function Interleave(ps: seq<Point>): (r: Vector)
    ensures |r| == 2 * |ps|
    ensures forall i :: 0 <= i < |ps| ==> r[2 * i] == ps[i].x && r[2 * i + 1] == ps[i].y
  {
    if |ps| == 0 then []
    else
      var init := ps[..|ps| - 1];
      assert forall i :: 0 <= i < |ps| - 1 ==> init[i] == ps[i];
      Interleave(init) + [ps[|ps| - 1].x, ps[|ps| - 1].y]
  }

  /** Every row index is 2i or 2i + 1 for i = k / 2. */
  lemma Halves(k: nat)
    ensures k == 2 * (k / 2) || k == 2 * (k / 2) + 1
  {
  }

  /** Interleaved coordinates are determined by their even and odd entries. */
  lemma InterleaveUnique(ps: seq<Point>, v: Vector)
    requires |v| == 2 * |ps|
    requires forall i :: 0 <= i < |ps| ==> v[2 * i] == ps[i].x && v[2 * i + 1] == ps[i].y
    ensures v == Interleave(ps)
  {
    var r := Interleave(ps);
    forall k | 0 <= k < |v| ensures v[k] == r[k] {
      Halves(k);
      var i := k / 2;
      assert v[2 * i] == r[2 * i] && v[2 * i + 1] == r[2 * i + 1];
    }
  }

  /** The right-hand side: destination point i fills rows 2i and 2i + 1. */
  method ResultVector(destination: seq<Point>) returns (results: Vector)
    ensures results == Interleave(destination)
  {
    results := seq(2 * |destination|, _ => 0.0);
    var i := 0;
    while i < |destination|
      invariant 0 <= i <= |destination| && |results| == 2 * |destination|
      invariant forall j :: 0 <= j < i ==>
        results[2 * j] == destination[j].x && results[2 * j + 1] == destination[j].y
    {
      var twoI := i * 2;
      results := results[twoI := destination[i].x];
      results := results[twoI + 1 := destination[i].y];
      i := i + 1;
    }
    InterleaveUnique(destination, results);
  }

  /* ---------------------------------------------------------------------------
     The design matrix
     ------------------------------------------------------------------------- */

  /** The design rows of points i < n: point i contributes row 2i = (x, y, 1, 0, 0, 0),
      predicting the new x, and row 2i + 1 = (0, 0, 0, x, y, 1), predicting the new y. */
  predicate RowsUpTo(ps: seq<Point>, cols: seq<Vector>, n: nat)
    requires n <= |ps| && SixColumns(cols, 2 * |ps|)
  {
    forall i :: 0 <= i < n ==>
      && cols[0][2 * i] == ps[i].x && cols[1][2 * i] == ps[i].y && cols[2][2 * i] == 1.0
      && cols[3][2 * i] == 0.0 && cols[4][2 * i] == 0.0 && cols[5][2 * i] == 0.0
      && cols[0][2 * i + 1] == 0.0 && cols[1][2 * i + 1] == 0.0 && cols[2][2 * i + 1] == 0.0
      && cols[3][2 * i + 1] == ps[i].x && cols[4][2 * i + 1] == ps[i].y && cols[5][2 * i + 1] == 1.0
  }

  /** Six columns of 2n rows holding the design rows of all n points. */
  predicate DesignLayout(ps: seq<Point>, cols: seq<Vector>) {
    SixColumns(cols, 2 * |ps|) && RowsUpTo(ps, cols, |ps|)
  }

  /** What a design entry or a sum term reads from a point: a coordinate, the
      constant 1 of the translation columns, or the constant 0. */
  datatype Coord = XCoord | YCoord | One | Zero

  function Get(c: Coord, p: Point): real {
    match c
    case XCoord => p.x
    case YCoord => p.y
    case One => 1.0
    case Zero => 0.0
  }

  /** For each point, what one column holds in the point's even row and in its odd
      row, as the x and the y of a point. */
  function Pairs(ps: seq<Point>, even: Coord, odd: Coord): (qs: seq<Point>)
    ensures |qs| == |ps|
  {
    seq(|ps|, i requires 0 <= i < |ps| => Point(Get(even, ps[i]), Get(odd, ps[i])))
  }

  /** The six columns of the design matrix, each the interleaving of what a point
      puts into its even and its odd row. */
  function DesignColumns(ps: seq<Point>): (cols: seq<Vector>)
    ensures DesignLayout(ps, cols)
  {
    assert forall even, odd, i :: 0 <= i < |ps| ==>
      Pairs(ps, even, odd)[i] == Point(Get(even, ps[i]), Get(odd, ps[i]));
    [ Interleave(Pairs(ps, XCoord, Zero)),
      Interleave(Pairs(ps, YCoord, Zero)),
      Interleave(Pairs(ps, One, Zero)),
      Interleave(Pairs(ps, Zero, XCoord)),
      Interleave(Pairs(ps, Zero, YCoord)),
      Interleave(Pairs(ps, Zero, One)) ]
  }

  /** Every even row and every odd row is fixed by the layout, so it has one solution. */
  lemma DesignLayoutUnique(ps: seq<Point>, a: seq<Vector>, b: seq<Vector>)
    requires DesignLayout(ps, a) && DesignLayout(ps, b)
    ensures a == b
  {
    forall c | 0 <= c < 6 ensures a[c] == b[c] {
      forall r | 0 <= r < 2 * |ps| ensures a[c][r] == b[c][r] {
        var i := r / 2;
        if r % 2 == 0 {
          assert r == 2 * i;
        } else {
          assert r == 2 * i + 1;
        }
      }
    }
  }

  /** Builds the six zero columns, then writes each point's six design entries. */
  method SourceColumnEquations(points: seq<Point>) returns (cols: seq<Vector>)
    ensures DesignLayout(points, cols)
    ensures cols == DesignColumns(points)
  {
    var zeros := seq(2 * |points|, _ => 0.0);
    cols := [zeros, zeros, zeros, zeros, zeros, zeros];
    var i := 0;
    while i < |points|
      invariant 0 <= i <= |points| && SixColumns(cols, 2 * |points|)
      invariant RowsUpTo(points, cols, i)
      invariant forall c, r :: 0 <= c < 6 && 2 * i <= r < 2 * |points| ==> cols[c][r] == 0.0
    {
      var twoI := i * 2;
      var point := points[i];
      cols := cols[0 := cols[0][twoI := point.x]];
      cols := cols[1 := cols[1][twoI := point.y]];
      cols := cols[2 := cols[2][twoI := 1.0]];
      cols := cols[3 := cols[3][twoI + 1 := point.x]];
      cols := cols[4 := cols[4][twoI + 1 := point.y]];
      cols := cols[5 := cols[5][twoI + 1 := 1.0]];
      i := i + 1;
    }
    DesignLayoutUnique(points, cols, DesignColumns(points));
  }

  /** Row r of the design matrix, read across the six columns. */
  function Row(cols: seq<Vector>, r: nat): (row: Vector)
    requires |cols| == 6 && forall c :: 0 <= c < 6 ==> r < |cols[c]|
    ensures |row| == 6
  {
    seq(6, c requires 0 <= c < 6 => cols[c][r])
  }

  /** All six columns share one length. */
  predicate SixColumns(cols: seq<Vector>, n: nat) {
    |cols| == 6 && forall c :: 0 <= c < 6 ==> |cols[c]| == n
  }

  /** Six columns of one common length. */
  predicate IsDesign(cols: seq<Vector>) {
    |cols| == 6 && SixColumns(cols, |cols[0]|)
  }

  /** The design matrix times a 6-vector. */
  function DesignTimes(cols: seq<Vector>, s: Vector): (v: Vector)
    requires IsDesign(cols) && |s| == 6
    ensures |v| == |cols[0]|
  {
    seq(|cols[0]|, r requires 0 <= r < |cols[0]| => Dot(Row(cols, r), s))
  }

  /** A dot product of two 6-vectors, written out. */
  lemma Dot6(a: Vector, b: Vector)
    requires |a| == 6 && |b| == 6
    ensures Dot(a, b) == a[0] * b[0] + a[1] * b[1] + a[2] * b[2] + a[3] * b[3] + a[4] * b[4] + a[5] * b[5]
  {
    assert DotTo(a, b, 1) == a[0] * b[0];
    assert DotTo(a, b, 2) == DotTo(a, b, 1) + a[1] * b[1];
    assert DotTo(a, b, 3) == DotTo(a, b, 2) + a[2] * b[2];
    assert DotTo(a, b, 4) == DotTo(a, b, 3) + a[3] * b[3];
    assert DotTo(a, b, 5) == DotTo(a, b, 4) + a[4] * b[4];
  }

  /* ---------------------------------------------------------------------------
     Packing a transformation into the six unknowns
     ------------------------------------------------------------------------- */

  /** The solution vector (a, b, tx, c, d, ty) as a transformation; packing it
      again restores the solution vector. */
  function Unpack(s: Vector): (t: Transformation)
    requires |s| == 6
    ensures Pack(t) == s
  {
    Transformation([s[0], s[1], s[3], s[4]], s[2], s[5])
  }

  /** The six unknowns of a transformation, in solution-vector order. */
  function Pack(t: Transformation): (s: Vector)
    ensures |s| == 6
  {
    [t.matrix[0], t.matrix[1], t.translateX, t.matrix[2], t.matrix[3], t.translateY]
  }

  lemma UnpackPack(t: Transformation)
    ensures Unpack(Pack(t)) == t
  {
  }

  /** The design matrix times the unknowns of a transformation predicts, row by row,
      the interleaved images of the source points. */
  lemma DesignTimesApply(ps: seq<Point>, cols: seq<Vector>, s: Vector)
    requires DesignLayout(ps, cols) && |s| == 6
    ensures IsDesign(cols)
    ensures DesignTimes(cols, s) == Interleave(ApplyAll(Unpack(s), ps))
  {
    var lhs := DesignTimes(cols, s);
    var images := ApplyAll(Unpack(s), ps);
    forall i | 0 <= i < |ps|
      ensures lhs[2 * i] == images[i].x && lhs[2 * i + 1] == images[i].y
    {
      EvenRowTimes(ps, cols, s, i);
      OddRowTimes(ps, cols, s, i);
    }
    InterleaveUnique(images, lhs);
  }

  lemma EvenRowTimes(ps: seq<Point>, cols: seq<Vector>, s: Vector, i: nat)
    requires DesignLayout(ps, cols) && |s| == 6 && i < |ps|
    ensures Dot(Row(cols, 2 * i), s) == Apply(Unpack(s), ps[i]).x
  {
    var row := Row(cols, 2 * i);
    Dot6(row, s);
    assert row[0] == ps[i].x && row[1] == ps[i].y && row[2] == 1.0;
    assert row[3] == 0.0 && row[4] == 0.0 && row[5] == 0.0;
  }

  lemma OddRowTimes(ps: seq<Point>, cols: seq<Vector>, s: Vector, i: nat)
    requires DesignLayout(ps, cols) && |s| == 6 && i < |ps|
    ensures Dot(Row(cols, 2 * i + 1), s) == Apply(Unpack(s), ps[i]).y
  {
    var row := Row(cols, 2 * i + 1);
    Dot6(row, s);
    assert row[0] == 0.0 && row[1] == 0.0 && row[2] == 0.0;
    assert row[3] == ps[i].x && row[4] == ps[i].y && row[5] == 1.0;
  }

  /* ---------------------------------------------------------------------------
     The normal equations
     ------------------------------------------------------------------------- */

  /** Entry (i, j) is the dot product of columns i and j: the matrix A^T A. */
  function NormalMatrix(cols: seq<Vector>): (n: Matrix)
    requires IsDesign(cols)
    ensures |n| == 6 && IsSquare(n)
    ensures forall i, j :: 0 <= i < 6 && 0 <= j < 6 ==> n[i][j] == n[j][i]
  {
    var n := seq(6, i requires 0 <= i < 6 => seq(6, j requires 0 <= j < 6 => Dot(cols[i], cols[j])));
    forall i, j | 0 <= i < 6 && 0 <= j < 6 ensures n[i][j] == n[j][i] {
      DotSymmetric(cols[i], cols[j]);
    }
    n
  }

  /** Entry i is the dot product of column i with the right-hand side: A^T b. */
  function NormalResult(cols: seq<Vector>, b: Vector): (v: Vector)
    requires SixColumns(cols, |b|)
    ensures |v| == 6
  {
    seq(6, i requires 0 <= i < 6 => Dot(cols[i], b))
  }

  /** The sum over the first n correspondences of a source coordinate times a
      destination coordinate. */
  function WeightedSum(source: seq<Point>, destination: seq<Point>, w: Coord, d: Coord, n: nat): real
    requires n <= |source| && n <= |destination|
  {
    if n == 0 then 0.0
    else WeightedSum(source, destination, w, d, n - 1) + Get(w, source[n - 1]) * Get(d, destination[n - 1])
  }

  /** A column that holds w of each source point in its even rows and zero in its odd
      rows, dotted with the interleaved destination, sums w times the destination x. */
  lemma {:induction false} DotEvenColumn(col: Vector, source: seq<Point>, destination: seq<Point>,
                                         w: Coord, n: nat)
    requires |source| == |destination| && |col| == 2 * |source| && n <= |source|
    requires forall i :: 0 <= i < |source| ==> col[2 * i] == Get(w, source[i]) && col[2 * i + 1] == 0.0
    ensures DotTo(col, Interleave(destination), 2 * n) == WeightedSum(source, destination, w, XCoord, n)
  {
    if n > 0 {
      var b := Interleave(destination);
      DotEvenColumn(col, source, destination, w, n - 1);
      assert col[2 * (n - 1)] == Get(w, source[n - 1]) && col[2 * (n - 1) + 1] == 0.0;
      assert b[2 * (n - 1)] == destination[n - 1].x;
      assert DotTo(col, b, 2 * n - 1) == DotTo(col, b, 2 * (n - 1)) + col[2 * n - 2] * b[2 * n - 2];
    }
  }

  /** The same for a column with zeros in its even rows: w times the destination y. */
  lemma {:induction false} DotOddColumn(col: Vector, source: seq<Point>, destination: seq<Point>,
                                        w: Coord, n: nat)
    requires |source| == |destination| && |col| == 2 * |source| && n <= |source|
    requires forall i :: 0 <= i < |source| ==> col[2 * i] == 0.0 && col[2 * i + 1] == Get(w, source[i])
    ensures DotTo(col, Interleave(destination), 2 * n) == WeightedSum(source, destination, w, YCoord, n)
  {
    if n > 0 {
      var b := Interleave(destination);
      DotOddColumn(col, source, destination, w, n - 1);
      assert col[2 * (n - 1)] == 0.0 && col[2 * (n - 1) + 1] == Get(w, source[n - 1]);
      assert b[2 * (n - 1) + 1] == destination[n - 1].y;
      assert DotTo(col, b, 2 * n - 1) == DotTo(col, b, 2 * (n - 1)) + col[2 * n - 2] * b[2 * n - 2];
    }
  }

  /** The right-hand side the fit hands to the solver, in terms of the points: the
      sums of x'x, y'x, x', x'y, y'y and y' over the correspondences, where (x, y) is
      a source point and (x', y') its destination (the sum of x' y is written x'y). */
  lemma NormalResultOfPoints(source: seq<Point>, destination: seq<Point>, cols: seq<Vector>)
    requires |source| == |destination| && DesignLayout(source, cols)
    ensures
      var n := |source|;
      NormalResult(cols, Interleave(destination)) ==
        [ WeightedSum(source, destination, XCoord, XCoord, n),
          WeightedSum(source, destination, YCoord, XCoord, n),
          WeightedSum(source, destination, One, XCoord, n),
          WeightedSum(source, destination, XCoord, YCoord, n),
          WeightedSum(source, destination, YCoord, YCoord, n),
          WeightedSum(source, destination, One, YCoord, n) ]
  {
    var n := |source|;
    DotEvenColumn(cols[0], source, destination, XCoord, n);
    DotEvenColumn(cols[1], source, destination, YCoord, n);
    DotEvenColumn(cols[2], source, destination, One, n);
    DotOddColumn(cols[3], source, destination, XCoord, n);
    DotOddColumn(cols[4], source, destination, YCoord, n);
    DotOddColumn(cols[5], source, destination, One, n);
  }

  /** A vector whose entries are the s-weighted sums of the six columns. */
  predicate IsCombination(cols: seq<Vector>, s: Vector, v: Vector) {
    && SixColumns(cols, |v|) && |s| == 6
    && forall r :: 0 <= r < |v| ==>
         v[r] == s[0] * cols[0][r] + s[1] * cols[1][r] + s[2] * cols[2][r]
               + s[3] * cols[3][r] + s[4] * cols[4][r] + s[5] * cols[5][r]
  }

  /** The first-k dot products of `a` with each of the six columns. */
  function ColumnDots(a: Vector, cols: seq<Vector>, k: nat): (x: Vector)
    requires SixColumns(cols, |a|) && k <= |a|
    ensures |x| == 6
  {
    seq(6, j requires 0 <= j < 6 => DotTo(a, cols[j], k))
  }

  /** Dotting with an s-weighted sum of the columns is the s-weighted sum of the
      column dot products. */
  lemma {:induction false} DotToCombination(a: Vector, cols: seq<Vector>, s: Vector, v: Vector, k: nat)
    requires IsCombination(cols, s, v) && |a| == |v| && k <= |v|
    ensures DotTo(a, v, k) == Dot(s, ColumnDots(a, cols, k))
  {
    var x := ColumnDots(a, cols, k);
    if k == 0 {
      DotScaled(s, x, x, 0.0);
    } else {
      var r := k - 1;
      DotToCombination(a, cols, s, v, r);
      var row := Row(cols, r);
      Dot6(s, row);
      DotAxpy(s, ColumnDots(a, cols, r), row, x, -a[r]);
    }
  }

  /** The design matrix times s is the s-weighted sum of its columns. */
  lemma DesignTimesIsCombination(cols: seq<Vector>, s: Vector)
    requires IsDesign(cols) && |s| == 6
    ensures IsCombination(cols, s, DesignTimes(cols, s))
  {
    var v := DesignTimes(cols, s);
    forall r | 0 <= r < |v|
      ensures v[r] == s[0] * cols[0][r] + s[1] * cols[1][r] + s[2] * cols[2][r]
                    + s[3] * cols[3][r] + s[4] * cols[4][r] + s[5] * cols[5][r]
    {
      Dot6(Row(cols, r), s);
    }
  }

  /** (A^T A) s, entry i, is column i dotted with A s. */
  lemma NormalMatrixTimes(cols: seq<Vector>, s: Vector)
    requires IsDesign(cols) && |s| == 6
    ensures Conformable(NormalMatrix(cols), s)
    ensures forall i :: 0 <= i < 6 ==>
      MatVec(NormalMatrix(cols), s)[i] == Dot(cols[i], DesignTimes(cols, s))
  {
    forall i | 0 <= i < 6 ensures MatVec(NormalMatrix(cols), s)[i] == Dot(cols[i], DesignTimes(cols, s)) {
      NormalRowTimes(cols, s, i);
    }
  }

  lemma NormalRowTimes(cols: seq<Vector>, s: Vector, i: nat)
    requires IsDesign(cols) && |s| == 6 && i < 6
    ensures Dot(NormalMatrix(cols)[i], s) == Dot(cols[i], DesignTimes(cols, s))
  {
    DesignTimesIsCombination(cols, s);
    CombineSix(NormalMatrix(cols)[i], s, cols[i], cols, DesignTimes(cols, s));
  }

  /** If row j holds a . cols[j], then row . s is a dotted with the s-weighted sum of
      the columns. */
  lemma CombineSix(row: Vector, s: Vector, a: Vector, cols: seq<Vector>, v: Vector)
    requires IsCombination(cols, s, v) && |a| == |v| && |row| == 6
    requires forall j :: 0 <= j < 6 ==> row[j] == Dot(a, cols[j])
    ensures Dot(row, s) == Dot(a, v)
  {
    DotToCombination(a, cols, s, v, |v|);
    assert row == ColumnDots(a, cols, |v|);
    DotSymmetric(row, s);
  }

  /** s solves the normal equations exactly when the residual A s - b has zero dot
      product with every column: the least-squares optimality condition. */
  lemma NormalSystemMeaning(cols: seq<Vector>, s: Vector, b: Vector)
    requires SixColumns(cols, |b|) && |s| == 6
    ensures Conformable(NormalMatrix(cols), s)
    ensures MatVec(NormalMatrix(cols), s) == NormalResult(cols, b)
      <==> forall i :: 0 <= i < 6 ==> Dot(cols[i], DesignTimes(cols, s)) == Dot(cols[i], b)
  {
    NormalMatrixTimes(cols, s);
  }

  /** A^T A is positive semidefinite: s . (A^T A) s is the squared length of A s. */
  lemma NormalMatrixSemidefinite(cols: seq<Vector>, s: Vector)
    requires IsDesign(cols) && |s| == 6
    ensures Conformable(NormalMatrix(cols), s)
    ensures Dot(s, MatVec(NormalMatrix(cols), s)) == Dot(DesignTimes(cols, s), DesignTimes(cols, s))
    ensures Dot(s, MatVec(NormalMatrix(cols), s)) >= 0.0
  {
    var v := DesignTimes(cols, s);
    var w := MatVec(NormalMatrix(cols), s);
    NormalMatrixTimes(cols, s);
    DesignTimesIsCombination(cols, s);
    forall j | 0 <= j < 6 ensures w[j] == Dot(v, cols[j]) {
      DotSymmetric(cols[j], v);
    }
    CombineSix(w, s, v, cols, v);
    DotSymmetric(w, s);
    DotSelf(v);
  }

  /** A transformation that maps every source point exactly onto its destination
      solves the normal equations the fit hands to the solver, whatever columns with
      the design layout they are built from. */
  lemma ExactFitSolvesNormalEquations(source: seq<Point>, destination: seq<Point>, cols: seq<Vector>,
                                      t: Transformation)
    requires |source| == |destination| && DesignLayout(source, cols)
    requires forall i :: 0 <= i < |source| ==> Apply(t, source[i]) == destination[i]
    ensures IsDesign(cols) && Conformable(NormalMatrix(cols), Pack(t))
    ensures MatVec(NormalMatrix(cols), Pack(t)) == NormalResult(cols, Interleave(destination))
  {
    ExactFitPredictsDestination(source, destination, cols, t);
    NormalSystemMeaning(cols, Pack(t), Interleave(destination));
  }

  /** An exact transformation's unknowns, put through the design matrix, reproduce the
      interleaved destination: a zero residual. */
  lemma ExactFitPredictsDestination(source: seq<Point>, destination: seq<Point>, cols: seq<Vector>,
                                    t: Transformation)
    requires |source| == |destination| && DesignLayout(source, cols)
    requires forall i :: 0 <= i < |source| ==> Apply(t, source[i]) == destination[i]
    ensures IsDesign(cols) && DesignTimes(cols, Pack(t)) == Interleave(destination)
  {
    DesignTimesApply(source, cols, Pack(t));
    UnpackPack(t);
    assert ApplyAll(t, source) == destination;
  }

  /* ---------------------------------------------------------------------------
     Least squares
     ------------------------------------------------------------------------- */

  /** The sum of squared coordinate differences between the images of the source
      points and the destination points. */
  function SquaredError(t: Transformation, source: seq<Point>, destination: seq<Point>): real
    requires |source| == |destination|
  {
    var d := Sub(Interleave(ApplyAll(t, source)), Interleave(destination));
    Dot(d, d)
  }

  /** The difference of two design products is the design product of the difference. */
  lemma DesignTimesDifference(cols: seq<Vector>, s: Vector, s2: Vector)
    requires IsDesign(cols) && |s| == 6 && |s2| == 6
    ensures IsCombination(cols, Sub(s2, s), Sub(DesignTimes(cols, s2), DesignTimes(cols, s)))
  {
    var v, v2 := DesignTimes(cols, s), DesignTimes(cols, s2);
    var d, u := Sub(s2, s), Sub(v2, v);
    DesignTimesIsCombination(cols, s);
    DesignTimesIsCombination(cols, s2);
    forall r | 0 <= r < |u|
      ensures u[r] == d[0] * cols[0][r] + d[1] * cols[1][r] + d[2] * cols[2][r]
                    + d[3] * cols[3][r] + d[4] * cols[4][r] + d[5] * cols[5][r]
    {
      assert d[0] * cols[0][r] == s2[0] * cols[0][r] - s[0] * cols[0][r];
      assert d[1] * cols[1][r] == s2[1] * cols[1][r] - s[1] * cols[1][r];
      assert d[2] * cols[2][r] == s2[2] * cols[2][r] - s[2] * cols[2][r];
      assert d[3] * cols[3][r] == s2[3] * cols[3][r] - s[3] * cols[3][r];
      assert d[4] * cols[4][r] == s2[4] * cols[4][r] - s[4] * cols[4][r];
      assert d[5] * cols[5][r] == s2[5] * cols[5][r] - s[5] * cols[5][r];
    }
  }

  /** A solution of the normal equations leaves a residual with zero dot product with
      every column. */
  lemma NormalResidualOrthogonal(cols: seq<Vector>, b: Vector, s: Vector, j: nat)
    requires SixColumns(cols, |b|) && |s| == 6 && j < 6
    requires Conformable(NormalMatrix(cols), s)
    requires MatVec(NormalMatrix(cols), s) == NormalResult(cols, b)
    ensures Dot(Sub(DesignTimes(cols, s), b), cols[j]) == 0.0
  {
    var v := DesignTimes(cols, s);
    NormalSystemMeaning(cols, s, b);
    assert Dot(cols[j], v) == Dot(cols[j], b);
    DotSub(cols[j], v, b);
    DotSymmetric(cols[j], Sub(v, b));
  }

  /** A solution of the normal equations has the smallest residual of all 6-vectors. */
  lemma NormalSolutionMinimises(cols: seq<Vector>, b: Vector, s: Vector, s2: Vector)
    requires SixColumns(cols, |b|) && |s| == 6 && |s2| == 6
    requires Conformable(NormalMatrix(cols), s)
    requires MatVec(NormalMatrix(cols), s) == NormalResult(cols, b)
    ensures
      var e := Sub(DesignTimes(cols, s), b);
      var e2 := Sub(DesignTimes(cols, s2), b);
      Dot(e, e) <= Dot(e2, e2)
  {
    var v, v2 := DesignTimes(cols, s), DesignTimes(cols, s2);
    var e, e2 := Sub(v, b), Sub(v2, b);
    var d, u := Sub(s2, s), Sub(v2, v);
    DesignTimesDifference(cols, s, s2);
    forall j | 0 <= j < 6 ensures Dot(e, cols[j]) == 0.0 {
      NormalResidualOrthogonal(cols, b, s, j);
    }
    DotToCombination(e, cols, d, u, |u|);
    var x := ColumnDots(e, cols, |u|);
    DotScaled(d, x, x, 0.0);
    DotSumSquare(e, u, e2);
    DotSelf(u);
  }

  /** The transformation read off a solution of the normal equations fits the points
      at least as well as any other transformation. */
  lemma NormalSolutionIsLeastSquares(source: seq<Point>, destination: seq<Point>, cols: seq<Vector>,
                                     s: Vector, other: Transformation)
    requires |source| == |destination| && DesignLayout(source, cols) && |s| == 6
    requires Conformable(NormalMatrix(cols), s)
    requires MatVec(NormalMatrix(cols), s) == NormalResult(cols, Interleave(destination))
    ensures SquaredError(Unpack(s), source, destination) <= SquaredError(other, source, destination)
  {
    DesignTimesApply(source, cols, s);
    DesignTimesApply(source, cols, Pack(other));
    UnpackPack(other);
    NormalSolutionMinimises(cols, Interleave(destination), s, Pack(other));
  }

  /** For the columns `sourceColumnEquations` builds: a solution of the assembled
      normal equations gives a transformation no other transformation beats. */
  lemma SolutionIsLeastSquares(source: seq<Point>, destination: seq<Point>, s: Vector)
    requires |source| == |destination| && |s| == 6
    ensures
      var n := NormalMatrix(DesignColumns(source));
      Conformable(n, s) && MatVec(n, s) == NormalResult(DesignColumns(source), Interleave(destination)) ==>
        forall other :: SquaredError(Unpack(s), source, destination) <= SquaredError(other, source, destination)
  {
    var cols := DesignColumns(source);
    var n := NormalMatrix(cols);
    if Conformable(n, s) && MatVec(n, s) == NormalResult(cols, Interleave(destination)) {
      forall other
        ensures SquaredError(Unpack(s), source, destination) <= SquaredError(other, source, destination)
      {
        NormalSolutionIsLeastSquares(source, destination, cols, s, other);
      }
    }
  }

  /* ---------------------------------------------------------------------------
     The fit
     ------------------------------------------------------------------------- */

  /** What the solver must return: a vector of the right-hand side's length. */
  ghost predicate SolverShape(solve: (Matrix, Vector) -> Vector) {
    forall a: Matrix, b: Vector :: |solve(a, b)| == |b|
  }

  /** Assembles the normal equations, hands them to `solve` (a Cholesky solve in the
      source) and unpacks the solution. Whenever the solver's answer solves the
      normal equations exactly, the fitted transformation has the least squared error
      of all transformations. */
  function ApproxTransformation(source: seq<Point>, destination: seq<Point>,
                                solve: (Matrix, Vector) -> Vector): (t: Transformation)
    requires |source| == |destination| && SolverShape(solve)
    ensures
      var cols := DesignColumns(source);
      var n := NormalMatrix(cols);
      var rhs := NormalResult(cols, Interleave(destination));
      && Pack(t) == solve(n, rhs)
      && (Conformable(n, solve(n, rhs)) && MatVec(n, solve(n, rhs)) == rhs ==>
            forall other :: SquaredError(t, source, destination) <= SquaredError(other, source, destination))
  {
    var cols := DesignColumns(source);
    var solution := solve(NormalMatrix(cols), NormalResult(cols, Interleave(destination)));
    SolutionIsLeastSquares(source, destination, solution);
    Unpack(solution)
  }
}
