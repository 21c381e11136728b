/** Gauss-Jordan elimination on the 4 x 8 block [m | I], one row operation at
    a time, over exact reals. Two facts are kept by every operation: each row's
    left half is its right half times m, and the original block is some 4 x 4
    matrix times the current one. */
module Elimination {

  type Row = seq<real>
  type Mat = seq<Row>

  predicate IsMat(a: Mat) {
    |a| == 4 && forall i :: 0 <= i < 4 ==> |a[i]| == 4
  }

  predicate IsBlock(s: Mat) {
    |s| == 4 && forall i :: 0 <= i < 4 ==> |s[i]| == 8
  }

  function Delta(i: int, j: int): real { if i == j then 1.0 else 0.0 }

  function Dot4(p: seq<real>, q: seq<real>): real
    requires |p| == 4 && |q| == 4
  {
    p[0] * q[0] + p[1] * q[1] + p[2] * q[2] + p[3] * q[3]
  }

  function Column(b: Mat, c: nat): (q: seq<real>)
    requires |b| == 4 && forall k :: 0 <= k < 4 ==> c < |b[k]|
    ensures |q| == 4 && forall k :: 0 <= k < 4 ==> q[k] == b[k][c]
  {
    seq(4, k requires 0 <= k < 4 => b[k][c])
  }

  /** Entry i, j of the product of a and b. */
  function Dot(a: Mat, b: Mat, i: nat, j: nat): real
    requires IsMat(a) && |b| == 4 && i < 4 && forall k :: 0 <= k < 4 ==> j < |b[k]|
  {
    Dot4(a[i], Column(b, j))
  }

  ghost predicate IsInverse(x: Mat, m: Mat) {
    && IsMat(x) && IsMat(m)
    && (forall i, j :: 0 <= i < 4 && 0 <= j < 4 ==> Dot(x, m, i, j) == Delta(i, j))
    && (forall i, j :: 0 <= i < 4 && 0 <= j < 4 ==> Dot(m, x, i, j) == Delta(i, j))
  }

  ghost predicate Invertible(m: Mat) {
    exists x :: IsInverse(x, m)
  }

  // ---------- what every row operation keeps ----------

  /** The left half of a row is its right half times m. */
  ghost predicate RowOk(r: Row, m: Mat)
    requires IsMat(m)
  {
    |r| == 8 && forall c :: 0 <= c < 4 ==> r[c] == Dot4(r[4..], Column(m, c))
  }

  /** The block [m | I]. */
  function Augmented(m: Mat): (s: Mat)
    requires IsMat(m)
    ensures IsBlock(s)
  {
    seq(4, i requires 0 <= i < 4 => seq(8, c requires 0 <= c < 8 => if c < 4 then m[i][c] else Delta(i, c - 4)))
  }

  /** s0 is g times s. */
  ghost predicate Spans(g: Mat, s: Mat, s0: Mat) {
    && IsMat(g) && IsBlock(s) && IsBlock(s0)
    && forall i, c :: 0 <= i < 4 && 0 <= c < 8 ==> s0[i][c] == Dot(g, s, i, c)
  }

  ghost predicate Kept(s: Mat, m: Mat, g: Mat) {
    && IsMat(m) && IsBlock(s)
    && (forall k :: 0 <= k < 4 ==> RowOk(s[k], m))
    && Spans(g, s, Augmented(m))
  }

  function IdentityMat(): (a: Mat)
    ensures IsMat(a)
  {
    seq(4, i => seq(4, j => Delta(i, j)))
  }

  lemma StartKept(m: Mat)
    requires IsMat(m)
    ensures Kept(Augmented(m), m, IdentityMat())
  {
  }

  // ---------- subtracting a multiple of a row ----------

  function Times(x: real, y: real): real { x * y }

  function Subtracted(rj: Row, ri: Row, f: real): (r: Row)
    requires |rj| == 8 && |ri| == 8
    ensures |r| == 8 && forall c :: 0 <= c < 8 ==> r[c] == rj[c] - Times(f, ri[c])
  {
    seq(8, c requires 0 <= c < 8 => rj[c] - Times(f, ri[c]))
  }

  lemma Distribute(f: real, a: real, b: real, c: real, d: real)
    ensures f * (a + b + c + d) == f * a + f * b + f * c + f * d
  {
  }

  lemma LinearTerm(x: real, y: real, m: real, f: real)
    ensures (x - f * y) * m == x * m - f * (y * m)
  {
  }

  lemma Linear(x: seq<real>, y: seq<real>, z: seq<real>, m: seq<real>, f: real)
    requires |x| == 4 && |y| == 4 && |z| == 4 && |m| == 4
    requires forall k :: 0 <= k < 4 ==> z[k] == x[k] - f * y[k]
    ensures Dot4(z, m) == Dot4(x, m) - f * Dot4(y, m)
  {
    LinearTerm(x[0], y[0], m[0], f);
    LinearTerm(x[1], y[1], m[1], f);
    LinearTerm(x[2], y[2], m[2], f);
    LinearTerm(x[3], y[3], m[3], f);
    Distribute(f, y[0] * m[0], y[1] * m[1], y[2] * m[2], y[3] * m[3]);
  }

  lemma SubtractedRow(rj: Row, ri: Row, f: real, m: Mat)
    requires IsMat(m) && RowOk(rj, m) && RowOk(ri, m)
    ensures RowOk(Subtracted(rj, ri, f), m)
  {
    var r := Subtracted(rj, ri, f);
    forall c | 0 <= c < 4 ensures r[c] == Dot4(r[4..], Column(m, c)) {
      Linear(rj[4..], ri[4..], r[4..], Column(m, c), f);
    }
  }

  /** The matching change of g: column i gains f times column j. */
  function GainColumn(g: Mat, i: nat, j: nat, f: real): (r: Mat)
    requires IsMat(g) && i < 4 && j < 4
    ensures IsMat(r)
  {
    seq(4, a requires 0 <= a < 4 => g[a][i := g[a][i] + f * g[a][j]])
  }

  lemma ExchangeTerm(pi: real, pj: real, qi: real, qj: real, f: real)
    ensures (pi + f * pj) * qi + pj * (qj - f * qi) == pi * qi + pj * qj
  {
  }

  lemma Exchange(p: seq<real>, q: seq<real>, i: nat, j: nat, f: real, p': seq<real>, q': seq<real>)
    requires |p| == 4 && |q| == 4 && i < 4 && j < 4 && i != j
    requires |p'| == 4 && |q'| == 4
    requires p'[i] == p[i] + f * p[j] && forall k :: 0 <= k < 4 && k != i ==> p'[k] == p[k]
    requires q'[j] == q[j] - f * q[i] && forall k :: 0 <= k < 4 && k != j ==> q'[k] == q[k]
    ensures Dot4(p', q') == Dot4(p, q)
  {
    ExchangeTerm(p[i], p[j], q[i], q[j], f);
    assert p'[i] * q'[i] + p'[j] * q'[j] == p[i] * q[i] + p[j] * q[j];
    assert forall k :: 0 <= k < 4 && k != i && k != j ==> p'[k] == p[k] && q'[k] == q[k];
  }

  lemma SubtractedSpans(s: Mat, s0: Mat, g: Mat, i: nat, j: nat, f: real)
    requires Spans(g, s, s0) && i < 4 && j < 4 && i != j
    ensures Spans(GainColumn(g, i, j, f), s[j := Subtracted(s[j], s[i], f)], s0)
  {
    var s', g' := s[j := Subtracted(s[j], s[i], f)], GainColumn(g, i, j, f);
    forall a, c | 0 <= a < 4 && 0 <= c < 8 ensures s0[a][c] == Dot(g', s', a, c) {
      assert Column(s', c)[j] == s[j][c] - Times(f, s[i][c]);
      assert Times(f, s[i][c]) == Times(f, Column(s, c)[i]);
      Exchange(g[a], Column(s, c), i, j, f, g'[a], Column(s', c));
    }
  }

  lemma SubtractedKept(s: Mat, m: Mat, g: Mat, i: nat, j: nat, f: real)
    requires Kept(s, m, g) && i < 4 && j < 4 && i != j
    ensures Kept(s[j := Subtracted(s[j], s[i], f)], m, GainColumn(g, i, j, f))
  {
    SubtractedRow(s[j], s[i], f, m);
    SubtractedSpans(s, Augmented(m), g, i, j, f);
  }

  // ---------- exchanging rows ----------

  function SwapRows(s: Mat, i: nat, p: nat): (r: Mat)
    requires |s| == 4 && i < 4 && p < 4
    ensures |r| == 4
  {
    s[i := s[p]][p := s[i]]
  }

  function SwapColumns(g: Mat, i: nat, p: nat): (r: Mat)
    requires IsMat(g) && i < 4 && p < 4
    ensures IsMat(r)
  {
    seq(4, a requires 0 <= a < 4 => g[a][i := g[a][p]][p := g[a][i]])
  }

  lemma SwapDot(p: seq<real>, q: seq<real>, i: nat, j: nat)
    requires |p| == 4 && |q| == 4 && i < 4 && j < 4
    ensures Dot4(p[i := p[j]][j := p[i]], q[i := q[j]][j := q[i]]) == Dot4(p, q)
  {
  }

  lemma SwapKept(s: Mat, m: Mat, g: Mat, i: nat, p: nat)
    requires Kept(s, m, g) && i < 4 && p < 4
    ensures Kept(SwapRows(s, i, p), m, SwapColumns(g, i, p))
  {
    var s', g' := SwapRows(s, i, p), SwapColumns(g, i, p);
    forall a, c | 0 <= a < 4 && 0 <= c < 8 ensures Dot(g', s', a, c) == Dot(g, s, a, c) {
      SwapDot(g[a], Column(s, c), i, p);
      assert Column(s', c) == Column(s, c)[i := s[p][c]][p := s[i][c]];
    }
  }

  // ---------- the end: a diagonal left half ----------

  ghost predicate Diagonal(s: Mat) {
    && IsBlock(s)
    && forall i, c :: 0 <= i < 4 && 0 <= c < 4 ==> (s[i][c] != 0.0 <==> i == c)
  }

  function Divided(s: Mat): (x: Mat)
    requires IsBlock(s) && forall i :: 0 <= i < 4 ==> s[i][i] != 0.0
    ensures IsMat(x)
  {
    seq(4, i requires 0 <= i < 4 => seq(4, j requires 0 <= j < 4 => s[i][j + 4] / s[i][i]))
  }

  lemma ScaledTerm(d: real, a: real, b: real)
    requires d != 0.0
    ensures d * ((a / d) * b) == a * b
  {
    assert d * ((a / d) * b) == (d * (a / d)) * b;
  }

  lemma ScaledSum(d: real, a: seq<real>, b: seq<real>, z: seq<real>)
    requires d != 0.0 && |a| == 4 && |b| == 4 && |z| == 4
    requires forall k :: 0 <= k < 4 ==> z[k] == a[k] / d
    ensures d * Dot4(z, b) == Dot4(a, b)
  {
    ScaledTerm(d, a[0], b[0]);
    ScaledTerm(d, a[1], b[1]);
    ScaledTerm(d, a[2], b[2]);
    ScaledTerm(d, a[3], b[3]);
    Distribute(d, z[0] * b[0], z[1] * b[1], z[2] * b[2], z[3] * b[3]);
  }

  lemma CancelLeft(d: real, x: real, y: real)
    requires d != 0.0 && d * x == d * y
    ensures x == y
  {
  }

  lemma DividedLeft(s: Mat, m: Mat, i: nat, j: nat)
    requires IsMat(m) && i < 4 && j < 4 && Diagonal(s) && RowOk(s[i], m)
    ensures Dot(Divided(s), m, i, j) == Delta(i, j)
  {
    ScaledSum(s[i][i], s[i][4..], Column(m, j), Divided(s)[i]);
    assert s[i][j] == s[i][i] * Delta(i, j);
    CancelLeft(s[i][i], Dot(Divided(s), m, i, j), Delta(i, j));
  }

  lemma CancelTerm(p: real, d: real, r: real)
    requires d != 0.0
    ensures (p * d) * (r / d) == p * r
  {
    assert (p * d) * (r / d) == p * (d * (r / d));
  }

  lemma DiagonalDot(p: seq<real>, q: seq<real>, k: nat)
    requires |p| == 4 && |q| == 4 && k < 4 && forall h :: 0 <= h < 4 && h != k ==> q[h] == 0.0
    ensures Dot4(p, q) == p[k] * q[k]
  {
  }

  lemma DividedTerm(s: Mat, m: Mat, g: Mat, i: nat, j: nat, k: nat)
    requires IsMat(m) && Diagonal(s) && Spans(g, s, Augmented(m)) && i < 4 && j < 4 && k < 4
    ensures m[i][k] * Divided(s)[k][j] == g[i][k] * s[k][j + 4]
  {
    assert Augmented(m)[i][k] == Dot(g, s, i, k);
    DiagonalDot(g[i], Column(s, k), k);
    CancelTerm(g[i][k], s[k][k], s[k][j + 4]);
  }

  lemma SameTerms(p: seq<real>, q: seq<real>, p': seq<real>, q': seq<real>)
    requires |p| == |q| == |p'| == |q'| == 4 && forall k :: 0 <= k < 4 ==> p[k] * q[k] == p'[k] * q'[k]
    ensures Dot4(p, q) == Dot4(p', q')
  {
  }

  lemma DividedRight(s: Mat, m: Mat, g: Mat, i: nat, j: nat)
    requires IsMat(m) && Diagonal(s) && Spans(g, s, Augmented(m)) && i < 4 && j < 4
    ensures Dot(m, Divided(s), i, j) == Delta(i, j)
  {
    var p, q := Column(Divided(s), j), Column(s, j + 4);
    forall k | 0 <= k < 4 ensures m[i][k] * p[k] == g[i][k] * q[k] {
      DividedTerm(s, m, g, i, j, k);
    }
    SameTerms(m[i], p, g[i], q);
    assert Augmented(m)[i][j + 4] == Dot(g, s, i, j + 4);
  }

  lemma DividedIsInverse(s: Mat, m: Mat, g: Mat)
    requires Kept(s, m, g) && Diagonal(s)
    ensures IsInverse(Divided(s), m)
  {
    forall i, j | 0 <= i < 4 && 0 <= j < 4
      ensures Dot(Divided(s), m, i, j) == Delta(i, j) && Dot(m, Divided(s), i, j) == Delta(i, j)
    {
      DividedLeft(s, m, i, j);
      DividedRight(s, m, g, i, j);
    }
  }

  // ---------- a zero pivot: m is singular ----------

  type Vec = seq<real>

  /** The first i columns are upper triangular with nonzero pivots. */
  ghost predicate Upper(s: Mat, i: nat) {
    && IsBlock(s) && i <= 4
    && (forall c :: 0 <= c < i ==> s[c][c] != 0.0)
    && (forall r, c :: 0 <= c < i && c < r < 4 ==> s[r][c] == 0.0)
  }

  /** No pivot is left in column i. */
  ghost predicate NoPivot(s: Mat, i: nat) {
    Upper(s, i) && i < 4 && forall p :: i <= p < 4 ==> s[p][i] == 0.0
  }

  lemma Solve(a: real, b: real) returns (x: real)
    requires a != 0.0
    ensures a * x + b == 0.0
  {
    x := -b / a;
    assert a * x == -b;
  }

  /** A nonzero vector that the left half sends to zero: 1 in place i, and the
      earlier places by back substitution. */
  lemma KernelVector(s: Mat, i: nat) returns (v: Vec)
    requires NoPivot(s, i)
    ensures |v| == 4 && v[i] == 1.0 && forall c :: i < c < 4 ==> v[c] == 0.0
    ensures forall r :: 0 <= r < 4 ==> Dot4(s[r][..4], v) == 0.0
  {
    if i == 0 {
      v := [1.0, 0.0, 0.0, 0.0];
    } else if i == 1 {
      var x := Solve(s[0][0], s[0][1]);
      v := [x, 1.0, 0.0, 0.0];
    } else if i == 2 {
      var y := Solve(s[1][1], s[1][2]);
      var x := Solve(s[0][0], s[0][1] * y + s[0][2]);
      v := [x, y, 1.0, 0.0];
    } else {
      var z := Solve(s[2][2], s[2][3]);
      var y := Solve(s[1][1], s[1][2] * z + s[1][3]);
      var x := Solve(s[0][0], s[0][1] * y + s[0][2] * z + s[0][3]);
      v := [x, y, z, 1.0];
    }
  }

  lemma DotScale(p: real, a: seq<real>, v: seq<real>, z: seq<real>)
    requires |a| == 4 && |v| == 4 && |z| == 4 && forall c :: 0 <= c < 4 ==> z[c] == p * a[c]
    ensures Dot4(z, v) == p * Dot4(a, v)
  {
    Distribute(p, a[0] * v[0], a[1] * v[1], a[2] * v[2], a[3] * v[3]);
    forall c | 0 <= c < 4 ensures (p * a[c]) * v[c] == p * (a[c] * v[c]) {}
  }

  lemma DotSum(x: seq<real>, y: seq<real>, v: seq<real>, z: seq<real>)
    requires |x| == 4 && |y| == 4 && |v| == 4 && |z| == 4 && forall c :: 0 <= c < 4 ==> z[c] == x[c] + y[c]
    ensures Dot4(z, v) == Dot4(x, v) + Dot4(y, v)
  {
    forall c | 0 <= c < 4 ensures z[c] * v[c] == x[c] * v[c] + y[c] * v[c] {}
  }

  function Scaled(p: real, a: seq<real>): (z: seq<real>)
    requires |a| >= 4
    ensures |z| == 4 && forall c :: 0 <= c < 4 ==> z[c] == p * a[c]
  {
    [p * a[0], p * a[1], p * a[2], p * a[3]]
  }

  function Plus(x: seq<real>, y: seq<real>): (z: seq<real>)
    requires |x| == 4 && |y| == 4
    ensures |z| == 4 && forall c :: 0 <= c < 4 ==> z[c] == x[c] + y[c]
  {
    [x[0] + y[0], x[1] + y[1], x[2] + y[2], x[3] + y[3]]
  }

  lemma ScaledKernel(p: real, r: Row, v: Vec)
    requires |r| >= 4 && |v| == 4 && Dot4(r[..4], v) == 0.0
    ensures Dot4(Scaled(p, r), v) == 0.0
  {
    DotScale(p, r[..4], v, Scaled(p, r));
  }

  /** A vector that b sends to zero is sent to zero by any row of a product
      a b: row e is p times b. */
  lemma TwoKernels(k: real, x: Vec, m: real, y: Vec, v: Vec)
    requires |x| >= 4 && |y| >= 4 && |v| == 4 && Dot4(x[..4], v) == 0.0 && Dot4(y[..4], v) == 0.0
    ensures |Plus(Scaled(k, x), Scaled(m, y))| == 4 && Dot4(Plus(Scaled(k, x), Scaled(m, y)), v) == 0.0
  {
    ScaledKernel(k, x, v);
    ScaledKernel(m, y, v);
    DotSum(Scaled(k, x), Scaled(m, y), v, Plus(Scaled(k, x), Scaled(m, y)));
  }

  lemma TwoAt(k: real, x: Vec, m: real, y: Vec, c: nat)
    requires |x| >= 4 && |y| >= 4 && c < 4
    ensures Plus(Scaled(k, x), Scaled(m, y))[c] == k * x[c] + m * y[c]
  {
    var z, w := Scaled(k, x), Scaled(m, y);
    assert z[c] == k * x[c] && w[c] == m * y[c];
  }

  lemma ColumnSplit(p: seq<real>, b: Mat, c: nat, left: real, right: real)
    requires |p| == 4 && |b| == 4 && c < 4 && forall k :: 0 <= k < 4 ==> |b[k]| >= 4
    requires left == p[0] * b[0][c] + p[1] * b[1][c] && right == p[2] * b[2][c] + p[3] * b[3][c]
    ensures Dot4(p, Column(b, c)) == left + right
  {
    var q := Column(b, c);
    assert q[0] == b[0][c] && q[1] == b[1][c] && q[2] == b[2][c] && q[3] == b[3][c];
  }

  lemma KernelCarries(p: seq<real>, b: Mat, v: Vec, e: seq<real>)
    requires |p| == 4 && |v| == 4 && |e| == 4 && |b| == 4 && forall k :: 0 <= k < 4 ==> |b[k]| >= 4
    requires forall k :: 0 <= k < 4 ==> Dot4(b[k][..4], v) == 0.0
    requires forall c :: 0 <= c < 4 ==> e[c] == Dot4(p, Column(b, c))
    ensures Dot4(e, v) == 0.0
  {
    var left := Plus(Scaled(p[0], b[0]), Scaled(p[1], b[1]));
    var right := Plus(Scaled(p[2], b[2]), Scaled(p[3], b[3]));
    TwoKernels(p[0], b[0], p[1], b[1], v);
    TwoKernels(p[2], b[2], p[3], b[3], v);
    forall c | 0 <= c < 4 ensures e[c] == left[c] + right[c] {
      TwoAt(p[0], b[0], p[1], b[1], c);
      TwoAt(p[2], b[2], p[3], b[3], c);
      ColumnSplit(p, b, c, left[c], right[c]);
    }
    DotSum(left, right, v, e);
  }

  lemma UnitDot(e: seq<real>, v: seq<real>, i: nat)
    requires |e| == 4 && |v| == 4 && i < 4 && forall c :: 0 <= c < 4 ==> e[c] == Delta(i, c)
    ensures Dot4(e, v) == v[i]
  {
  }

  lemma KernelNotInverse(x: Mat, m: Mat, v: Vec, i: nat)
    requires IsMat(m) && |v| == 4 && i < 4 && v[i] == 1.0
    requires forall k :: 0 <= k < 4 ==> Dot4(m[k], v) == 0.0
    ensures !IsInverse(x, m)
  {
    if IsMat(x) {
      forall k | 0 <= k < 4 ensures Dot4(m[k][..4], v) == 0.0 { assert m[k][..4] == m[k]; }
      var e := [Dot(x, m, i, 0), Dot(x, m, i, 1), Dot(x, m, i, 2), Dot(x, m, i, 3)];
      KernelCarries(x[i], m, v, e);
      if forall c :: 0 <= c < 4 ==> e[c] == Delta(i, c) { UnitDot(e, v, i); }
    }
  }

  ghost predicate SentToZero(m: Mat, v: Vec)
    requires IsMat(m) && |v| == 4
  {
    forall r :: 0 <= r < 4 ==> Dot4(m[r], v) == 0.0
  }

  /** The pivotless column gives a vector that m itself sends to zero. */
  lemma NoPivotKernel(s: Mat, m: Mat, g: Mat, i: nat) returns (v: Vec)
    requires IsMat(m) && Spans(g, s, Augmented(m)) && NoPivot(s, i)
    ensures |v| == 4 && v[i] == 1.0 && forall c :: i < c < 4 ==> v[c] == 0.0
    ensures SentToZero(m, v)
  {
    v := KernelVector(s, i);
    forall r | 0 <= r < 4 ensures Dot4(m[r], v) == 0.0 {
      forall c | 0 <= c < 4 ensures m[r][c] == Dot4(g[r], Column(s, c)) {
        assert Augmented(m)[r][c] == Dot(g, s, r, c);
      }
      KernelCarries(g[r], s, v, m[r]);
    }
  }

  lemma NoPivotSingular(s: Mat, m: Mat, g: Mat, i: nat)
    requires IsMat(m) && Spans(g, s, Augmented(m)) && NoPivot(s, i)
    ensures !Invertible(m)
  {
    var v := NoPivotKernel(s, m, g, i);
    forall x ensures !IsInverse(x, m) { KernelNotInverse(x, m, v, i); }
  }

  lemma ZeroRowSingular(m: Mat, i: nat)
    requires IsMat(m) && i < 4 && forall c :: 0 <= c < 4 ==> m[i][c] == 0.0
    ensures !Invertible(m)
  {
    forall x ensures !IsInverse(x, m) {
      if IsMat(x) { assert Dot(m, x, i, i) != Delta(i, i); }
    }
  }

  // ---------- which singular matrices divide by zero ----------

  ghost predicate HasZeroRow(m: Mat)
    requires IsMat(m)
  {
    exists i :: 0 <= i < 4 && m[i] == [0.0, 0.0, 0.0, 0.0]
  }

  /** Not all zero, and zero in the last place. */
  ghost predicate FirstThree(v: Vec) {
    |v| == 4 && v[3] == 0.0 && (v[0] != 0.0 || v[1] != 0.0 || v[2] != 0.0)
  }

  /** The first three columns are linearly dependent. */
  ghost predicate DependentColumns(m: Mat)
    requires IsMat(m)
  {
    exists v: Vec :: FirstThree(v) && SentToZero(m, v)
  }

  lemma EarlyPivotDependent(s: Mat, m: Mat, g: Mat, i: nat)
    requires IsMat(m) && Spans(g, s, Augmented(m)) && NoPivot(s, i) && i < 3
    ensures DependentColumns(m)
  {
    var v := NoPivotKernel(s, m, g, i);
    assert FirstThree(v);
  }

  /** What m sends to zero, the left half of a kept row sends to zero. */
  lemma RowKeepsKernel(r: Row, m: Mat, v: Vec)
    requires IsMat(m) && RowOk(r, m) && |v| == 4 && SentToZero(m, v)
    ensures Dot4(r[..4], v) == 0.0
  {
    forall k | 0 <= k < 4 ensures Dot4(m[k][..4], v) == 0.0 { assert m[k][..4] == m[k]; }
    KernelCarries(r[4..], m, v, r[..4]);
  }

  lemma NonzeroFactor(a: real, x: real)
    requires a != 0.0 && a * x == 0.0
    ensures x == 0.0
  {
  }

  lemma UpperSolves(s: Mat, v: Vec)
    requires Upper(s, 3) && |v| == 4 && v[3] == 0.0
    requires forall r :: 0 <= r < 3 ==> Dot4(s[r][..4], v) == 0.0
    ensures v[0] == 0.0 && v[1] == 0.0 && v[2] == 0.0
  {
    assert s[2][0] == 0.0 && s[2][1] == 0.0 && s[1][0] == 0.0;
    assert Dot4(s[2][..4], v) == s[2][2] * v[2];
    NonzeroFactor(s[2][2], v[2]);
    assert Dot4(s[1][..4], v) == s[1][1] * v[1];
    NonzeroFactor(s[1][1], v[1]);
    assert Dot4(s[0][..4], v) == s[0][0] * v[0];
    NonzeroFactor(s[0][0], v[0]);
  }

  lemma ThreePivotsIndependent(s: Mat, m: Mat, g: Mat)
    requires Kept(s, m, g) && Upper(s, 3)
    ensures !DependentColumns(m)
  {
    forall v: Vec | FirstThree(v) ensures !SentToZero(m, v) {
      if SentToZero(m, v) {
        forall r | 0 <= r < 3 ensures Dot4(s[r][..4], v) == 0.0 { RowKeepsKernel(s[r], m, v); }
        UpperSolves(s, v);
      }
    }
  }
}
