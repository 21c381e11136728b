/** The infinity norm of a dense column-major matrix and of a matrix in
    compressed sparse row form. */
module SparseNorm {
  import opened Reals

  type Row = nat -> real

  /** Sum of the absolute values of the first n entries. */
  function RowSum(row: Row, n: nat): (r: real)
    ensures r >= 0.0
  {
    if n == 0 then 0.0 else RowSum(row, n - 1) + Abs(row(n - 1))
  }

  /** The greatest of the first m sums, and 0 when there is none. */
  ghost predicate IsNorm(sum: Row, m: nat, norm: real) {
    && (forall i: nat :: i < m ==> sum(i) <= norm)
    && (norm == 0.0 || exists i: nat :: i < m && sum(i) == norm)
  }

  // ---------- dense ----------

  function Cell(a: seq<real>, lda: nat, i: nat, j: nat): real {
    var k := i + j * lda;
    if 0 <= k < |a| then a[k] else 0.0
  }

  function DenseRow(a: seq<real>, lda: nat, i: nat): Row {
    (j: nat) => Cell(a, lda, i, j)
  }

  function DenseSums(a: seq<real>, lda: nat, n: nat): Row {
    (i: nat) => RowSum(DenseRow(a, lda, i), n)
  }

  lemma ColumnInside(i: nat, j: nat, n: nat, lda: nat, m: nat)
    requires i < m <= lda && j < n
    ensures 0 <= i + j * lda < lda * (n - 1) + m
  {
    assert j * lda <= (n - 1) * lda;
  }

  method MatNormInf(m: nat, n: nat, a: seq<real>, lda: nat) returns (norminf: real)
    requires m <= lda && (n > 0 ==> |a| >= lda * (n - 1) + m)
    ensures IsNorm(DenseSums(a, lda, n), m, norminf)
    ensures norminf >= 0.0
  {
    norminf := 0.0;
    ghost var sums := DenseSums(a, lda, n);
    for i := 0 to m
      invariant IsNorm(sums, i, norminf) && norminf >= 0.0
    {
      var sum := 0.0;
      for j := 0 to n
        invariant sum == RowSum(DenseRow(a, lda, i), j)
      {
        ColumnInside(i, j, n, lda, m);
        var aAbs := Abs(a[i + j * lda]);
        sum := sum + aAbs;
      }
      assert sum == sums(i);
      norminf := if norminf > sum then norminf else sum;
    }
  }

  // ---------- compressed sparse rows ----------

  datatype Csr = Csr(base: int, val: seq<real>, rowPtr: seq<int>, colInd: seq<int>)

  function Start(c: Csr, i: nat): int
    requires i + 1 < |c.rowPtr|
  {
    c.rowPtr[i] - c.base
  }

  function End(c: Csr, i: nat): int
    requires i + 1 < |c.rowPtr|
  {
    c.rowPtr[i + 1] - c.base
  }

  /** Every row's entries lie in the arrays. */
  ghost predicate Inside(c: Csr, m: nat) {
    && |c.rowPtr| == m + 1 && |c.colInd| == |c.val|
    && forall i: nat :: i < m ==> Start(c, i) < End(c, i) ==> 0 <= Start(c, i) && End(c, i) <= |c.val|
  }

  function Entry(c: Csr, from: nat, to: nat, j: nat): real
    requires from <= to <= |c.val| == |c.colInd|
  {
    if to == from then 0.0
    else Entry(c, from, to - 1, j) + if c.colInd[to - 1] - c.base == j then c.val[to - 1] else 0.0
  }

  /** Entry j of the dense row that the sparse entries from..to stand for. */
  function Expanded(c: Csr, from: nat, to: nat): Row
    requires from <= to <= |c.val| == |c.colInd|
  {
    (j: nat) => Entry(c, from, to, j)
  }

  function DenseOf(c: Csr, m: nat, i: nat): Row
    requires Inside(c, m) && i < m
  {
    if Start(c, i) < End(c, i) then Expanded(c, Start(c, i), End(c, i)) else (j: nat) => 0.0
  }

  /** Sum of the absolute values of the stored entries. */
  function Stored(c: Csr, from: nat, to: nat): (r: real)
    requires from <= to <= |c.val|
    ensures r >= 0.0
  {
    if to == from then 0.0 else Stored(c, from, to - 1) + Abs(c.val[to - 1])
  }

  function StoredOf(c: Csr, m: nat, i: nat): real
    requires Inside(c, m) && i < m
  {
    if Start(c, i) < End(c, i) then Stored(c, Start(c, i), End(c, i)) else 0.0
  }

  function StoredSums(c: Csr, m: nat): Row
    requires Inside(c, m)
  {
    (i: nat) => if i < m then StoredOf(c, m, i) else 0.0
  }

  method CsrMatNormInf(c: Csr, m: nat) returns (norminf: real)
    requires Inside(c, m)
    ensures IsNorm(StoredSums(c, m), m, norminf)
    ensures norminf >= 0.0
  {
    norminf := 0.0;
    ghost var sums := StoredSums(c, m);
    for i := 0 to m
      invariant IsNorm(sums, i, norminf) && norminf >= 0.0
    {
      var sum, start, end := 0.0, c.rowPtr[i] - c.base, c.rowPtr[i + 1] - c.base;
      assert start == Start(c, i) && end == End(c, i);
      var colidx := start;
      while colidx < end
        invariant start < end ==> 0 <= start <= colidx <= end <= |c.val| && sum == Stored(c, start, colidx)
        invariant start >= end ==> sum == 0.0 && colidx == start
      {
        var aAbs := Abs(c.val[colidx]);
        sum := sum + aAbs;
        colidx := colidx + 1;
      }
      assert sum == sums(i);
      norminf := if norminf > sum then norminf else sum;
    }
  }

  // ---------- the two agree ----------

  /** A row changed in one place. */
  lemma {:induction false} RowSumAt(row: Row, other: Row, n: nat, k: int)
    requires forall j: nat :: j < n && j != k ==> row(j) == other(j)
    ensures RowSum(other, n) == RowSum(row, n) + if 0 <= k < n then Abs(other(k)) - Abs(row(k)) else 0.0
  {
    if n == 0 {
    } else {
      RowSumAt(row, other, n - 1, k);
    }
  }

  /** Columns of one row are different and inside the matrix. */
  ghost predicate Distinct(c: Csr, from: nat, to: nat, n: nat)
    requires from <= to <= |c.colInd|
  {
    && (forall k :: from <= k < to ==> 0 <= c.colInd[k] - c.base < n)
    && forall k, l :: from <= k < l < to ==> c.colInd[k] != c.colInd[l]
  }

  lemma {:induction false} NotStored(c: Csr, from: nat, to: nat, j: nat)
    requires from <= to <= |c.val| == |c.colInd|
    requires forall k :: from <= k < to ==> c.colInd[k] - c.base != j
    ensures Entry(c, from, to, j) == 0.0
  {
    if from == to {
    } else {
      NotStored(c, from, to - 1, j);
    }
  }

  lemma {:induction false} ZeroRow(row: Row, n: nat)
    requires forall j: nat :: j < n ==> row(j) == 0.0
    ensures RowSum(row, n) == 0.0
  {
    if n == 0 {
    } else {
      ZeroRow(row, n - 1);
    }
  }

  lemma {:induction false} RowAgrees(c: Csr, from: nat, to: nat, n: nat)
    requires from <= to <= |c.val| == |c.colInd|
    ensures RowSum(Expanded(c, from, to), n) <= Stored(c, from, to)
    ensures Distinct(c, from, to, n) ==> RowSum(Expanded(c, from, to), n) == Stored(c, from, to)
  {
    if from == to {
      ZeroRow(Expanded(c, from, to), n);
    } else {
      var k := c.colInd[to - 1] - c.base;
      RowAgrees(c, from, to - 1, n);
      RowSumAt(Expanded(c, from, to - 1), Expanded(c, from, to), n, k);
      if Distinct(c, from, to, n) { NotStored(c, from, to - 1, k); }
    }
  }

  lemma {:induction false} SameRow(row: Row, other: Row, n: nat)
    requires forall j: nat :: j < n ==> row(j) == other(j)
    ensures RowSum(row, n) == RowSum(other, n)
  {
    if n == 0 {
    } else {
      SameRow(row, other, n - 1);
    }
  }

  /** a holds the dense expansion of c. */
  ghost predicate Holds(a: seq<real>, lda: nat, c: Csr, m: nat, n: nat)
    requires Inside(c, m)
  {
    forall i: nat, j: nat :: i < m && j < n ==> DenseRow(a, lda, i)(j) == DenseOf(c, m, i)(j)
  }

  ghost predicate RowsDistinct(c: Csr, m: nat, n: nat)
    requires Inside(c, m)
  {
    forall i: nat :: i < m && Start(c, i) < End(c, i) ==> Distinct(c, Start(c, i), End(c, i), n)
  }

  lemma RowNorms(a: seq<real>, lda: nat, c: Csr, m: nat, n: nat, i: nat)
    requires Inside(c, m) && Holds(a, lda, c, m, n) && i < m
    ensures RowSum(DenseRow(a, lda, i), n) <= StoredOf(c, m, i)
    ensures RowsDistinct(c, m, n) ==> RowSum(DenseRow(a, lda, i), n) == StoredOf(c, m, i)
  {
    SameRow(DenseRow(a, lda, i), DenseOf(c, m, i), n);
    if Start(c, i) < End(c, i) {
      RowAgrees(c, Start(c, i), End(c, i), n);
    } else {
      ZeroRow(DenseOf(c, m, i), n);
    }
  }

  /** The sparse norm is never below the norm of the dense expansion, and equal
      to it when the columns of each row are distinct and inside the matrix, in
      either index base. */
  lemma NormsAgree(a: seq<real>, lda: nat, c: Csr, m: nat, n: nat, dense: real, sparse: real)
    requires Inside(c, m) && Holds(a, lda, c, m, n)
    requires IsNorm(DenseSums(a, lda, n), m, dense) && dense >= 0.0
    requires IsNorm(StoredSums(c, m), m, sparse) && sparse >= 0.0
    ensures dense <= sparse
    ensures RowsDistinct(c, m, n) ==> dense == sparse
  {
    var f, g := DenseSums(a, lda, n), StoredSums(c, m);
    forall i: nat | i < m ensures f(i) <= g(i) && (RowsDistinct(c, m, n) ==> f(i) == g(i)) {
      RowNorms(a, lda, c, m, n, i);
    }
  }

  // ---------- in rowPtr and base ----------

  /** Sum of absolute values, defined on the sequence alone. */
  function AbsTotal(vs: seq<real>): real {
    if vs == [] then 0.0 else Abs(vs[0]) + AbsTotal(vs[1..])
  }

  lemma {:induction false} AbsTotalSnoc(vs: seq<real>, v: real)
    ensures AbsTotal(vs + [v]) == AbsTotal(vs) + Abs(v)
  {
    if vs == [] {
      assert vs + [v] == [v] && [v][1..] == [];
    } else {
      assert (vs + [v])[1..] == vs[1..] + [v];
      AbsTotalSnoc(vs[1..], v);
    }
  }

  lemma {:induction false} StoredSlice(c: Csr, from: nat, to: nat)
    requires from <= to <= |c.val|
    ensures Stored(c, from, to) == AbsTotal(c.val[from..to])
  {
    if to == from {
    } else {
      StoredSlice(c, from, to - 1);
      AbsTotalSnoc(c.val[from..to - 1], c.val[to - 1]);
      assert c.val[from..to] == c.val[from..to - 1] + [c.val[to - 1]];
    }
  }

  /** The row pointers count from the base up to the number of values. */
  ghost predicate Partition(c: Csr, m: nat) {
    && |c.rowPtr| == m + 1 && |c.colInd| == |c.val|
    && c.rowPtr[0] == c.base && c.rowPtr[m] == c.base + |c.val|
    && forall i, j :: 0 <= i <= j <= m ==> c.rowPtr[i] <= c.rowPtr[j]
  }

  lemma PartitionInside(c: Csr, m: nat)
    requires Partition(c, m)
    ensures Inside(c, m)
    ensures forall i :: 0 <= i <= m ==> 0 <= c.rowPtr[i] - c.base <= |c.val|
  {
    forall i | 0 <= i <= m ensures c.rowPtr[0] <= c.rowPtr[i] <= c.rowPtr[m] {}
  }

  /** Row i is what stands between two row pointers. */
  lemma RowIs(c: Csr, m: nat, i: nat)
    requires Partition(c, m) && i < m
    ensures Inside(c, m) && 0 <= c.rowPtr[i] - c.base <= c.rowPtr[i + 1] - c.base <= |c.val|
    ensures StoredSums(c, m)(i) == AbsTotal(c.val[c.rowPtr[i] - c.base..c.rowPtr[i + 1] - c.base])
  {
    PartitionInside(c, m);
    StoredSlice(c, c.rowPtr[i] - c.base, c.rowPtr[i + 1] - c.base);
  }

  function Sum(f: Row, n: nat): real {
    if n == 0 then 0.0 else Sum(f, n - 1) + f(n - 1)
  }

  lemma {:induction false} AbsTotalConcat(xs: seq<real>, ys: seq<real>)
    ensures AbsTotal(xs + ys) == AbsTotal(xs) + AbsTotal(ys)
  {
    if xs == [] {
      assert xs + ys == ys;
    } else {
      assert (xs + ys)[1..] == xs[1..] + ys;
      AbsTotalConcat(xs[1..], ys);
    }
  }

  lemma {:induction false} RowsCoverUpTo(c: Csr, m: nat, i: nat)
    requires Partition(c, m) && i <= m
    ensures Inside(c, m) && 0 <= c.rowPtr[i] - c.base <= |c.val|
    ensures Sum(StoredSums(c, m), i) == AbsTotal(c.val[..c.rowPtr[i] - c.base])
  {
    PartitionInside(c, m);
    if i == 0 {
    } else {
      RowsCoverUpTo(c, m, i - 1);
      RowIs(c, m, i - 1);
      var lo, hi := c.rowPtr[i - 1] - c.base, c.rowPtr[i] - c.base;
      AbsTotalConcat(c.val[..lo], c.val[lo..hi]);
      assert c.val[..hi] == c.val[..lo] + c.val[lo..hi];
    }
  }

  /** Every stored value is counted in one row, and in one only. */
  lemma RowsCover(c: Csr, m: nat)
    requires Partition(c, m)
    ensures Inside(c, m) && Sum(StoredSums(c, m), m) == AbsTotal(c.val)
  {
    RowsCoverUpTo(c, m, m);
    assert c.val[..|c.val|] == c.val;
  }

  lemma {:induction false} EntryIs(c: Csr, from: nat, to: nat, n: nat, k: nat)
    requires from <= k < to <= |c.val| == |c.colInd| && Distinct(c, from, to, n)
    ensures Entry(c, from, to, c.colInd[k] - c.base) == c.val[k]
  {
    if k == to - 1 {
      NotStored(c, from, to - 1, c.colInd[k] - c.base);
    } else {
      EntryIs(c, from, to - 1, n, k);
    }
  }

  /** The dense row has each stored value in the column stored with it, and
      zeros elsewhere. */
  lemma DenseEntries(c: Csr, m: nat, n: nat, i: nat, j: nat)
    requires Partition(c, m) && i < m
    requires forall k :: c.rowPtr[i] - c.base <= k < c.rowPtr[i + 1] - c.base && 0 <= k < |c.colInd| ==>
               0 <= c.colInd[k] - c.base < n
    requires forall k, l :: c.rowPtr[i] - c.base <= k < l < c.rowPtr[i + 1] - c.base && 0 <= k < l < |c.colInd| ==>
               c.colInd[k] != c.colInd[l]
    ensures Inside(c, m)
    ensures forall k :: c.rowPtr[i] - c.base <= k < c.rowPtr[i + 1] - c.base ==>
              0 <= k < |c.val| && DenseOf(c, m, i)(c.colInd[k] - c.base) == c.val[k]
    ensures (forall k :: c.rowPtr[i] - c.base <= k < c.rowPtr[i + 1] - c.base ==> c.colInd[k] - c.base != j) ==>
              DenseOf(c, m, i)(j) == 0.0
  {
    RowIs(c, m, i);
    var lo, hi := c.rowPtr[i] - c.base, c.rowPtr[i + 1] - c.base;
    assert Distinct(c, lo, hi, n);
    forall k | lo <= k < hi ensures 0 <= k < |c.val| && DenseOf(c, m, i)(c.colInd[k] - c.base) == c.val[k] {
      EntryIs(c, lo, hi, n, k);
    }
    if forall k :: lo <= k < hi ==> c.colInd[k] - c.base != j { NotStored(c, lo, hi, j); }
  }

  /** The same matrix with all indices one higher. */
  function Shifted(c: Csr): (d: Csr)
    ensures d.base == c.base + 1 && d.val == c.val && |d.rowPtr| == |c.rowPtr| && |d.colInd| == |c.colInd|
    ensures forall i :: 0 <= i < |c.rowPtr| ==> d.rowPtr[i] == c.rowPtr[i] + 1
    ensures forall k :: 0 <= k < |c.colInd| ==> d.colInd[k] == c.colInd[k] + 1
  {
    Csr(c.base + 1, c.val, seq(|c.rowPtr|, i requires 0 <= i < |c.rowPtr| => c.rowPtr[i] + 1),
        seq(|c.colInd|, k requires 0 <= k < |c.colInd| => c.colInd[k] + 1))
  }

  lemma {:induction false} ShiftedEntry(c: Csr, from: nat, to: nat, j: nat)
    requires from <= to <= |c.val| == |c.colInd|
    ensures Entry(Shifted(c), from, to, j) == Entry(c, from, to, j)
    ensures Stored(Shifted(c), from, to) == Stored(c, from, to)
  {
    if from == to {
    } else {
      ShiftedEntry(c, from, to - 1, j);
    }
  }

  lemma ShiftedRow(c: Csr, m: nat, i: nat, j: nat)
    requires Inside(c, m) && i < m
    ensures Inside(Shifted(c), m)
    ensures StoredSums(Shifted(c), m)(i) == StoredSums(c, m)(i) && DenseOf(Shifted(c), m, i)(j) == DenseOf(c, m, i)(j)
  {
    var d := Shifted(c);
    forall r: nat | r < m ensures Start(d, r) == Start(c, r) && End(d, r) == End(c, r) {}
    if Start(c, i) < End(c, i) { ShiftedEntry(c, Start(c, i), End(c, i), j); }
  }

  lemma SameNorm(f: Row, g: Row, m: nat, norm: real)
    requires forall i: nat :: i < m ==> f(i) == g(i)
    ensures IsNorm(f, m, norm) <==> IsNorm(g, m, norm)
  {
  }

  /** Neither norm depends on whether indices count from zero or from one. */
  lemma BaseDoesNotMatter(c: Csr, m: nat, n: nat, a: seq<real>, lda: nat, norm: real)
    requires Inside(c, m)
    ensures Inside(Shifted(c), m)
    ensures IsNorm(StoredSums(Shifted(c), m), m, norm) <==> IsNorm(StoredSums(c, m), m, norm)
    ensures Holds(a, lda, Shifted(c), m, n) <==> Holds(a, lda, c, m, n)
  {
    var d := Shifted(c);
    assert Inside(d, m) by {
      forall r: nat | r < m ensures Start(d, r) == Start(c, r) && End(d, r) == End(c, r) {}
    }
    forall i: nat | i < m ensures StoredSums(d, m)(i) == StoredSums(c, m)(i) { ShiftedRow(c, m, i, 0); }
    forall i: nat, j: nat | i < m ensures DenseOf(d, m, i)(j) == DenseOf(c, m, i)(j) { ShiftedRow(c, m, i, j); }
    SameNorm(StoredSums(d, m), StoredSums(c, m), m, norm);
  }

  // ---------- the dense matrix by columns ----------

  /** Columns of lda entries, one after the other. */
  function ByColumns(cols: seq<seq<real>>): seq<real> {
    if cols == [] then [] else cols[0] + ByColumns(cols[1..])
  }

  lemma {:induction false} ColumnMajor(cols: seq<seq<real>>, lda: nat, i: nat, j: nat)
    requires j < |cols| && i < lda && forall k :: 0 <= k < |cols| ==> |cols[k]| == lda
    ensures Cell(ByColumns(cols), lda, i, j) == cols[j][i] && i + j * lda < |ByColumns(cols)|
  {
    var tail := ByColumns(cols[1..]);
    if j == 0 {
      assert i + j * lda == i;
    } else {
      ColumnMajor(cols[1..], lda, i, j - 1);
      assert i + j * lda == lda + (i + (j - 1) * lda);
      assert cols[1..][j - 1] == cols[j];
    }
  }

  lemma {:induction false} RowUpTo(cols: seq<seq<real>>, lda: nat, i: nat, row: seq<real>, n: nat)
    requires i < lda && n <= |cols| && (forall k :: 0 <= k < |cols| ==> |cols[k]| == lda)
    requires |row| == |cols| && forall k :: 0 <= k < |cols| ==> row[k] == cols[k][i]
    ensures RowSum(DenseRow(ByColumns(cols), lda, i), n) == AbsTotal(row[..n])
  {
    if n == 0 {
    } else {
      RowUpTo(cols, lda, i, row, n - 1);
      ColumnMajor(cols, lda, i, n - 1);
      AbsTotalSnoc(row[..n - 1], row[n - 1]);
      assert row[..n] == row[..n - 1] + [row[n - 1]];
    }
  }

  /** Row i of the matrix that the columns make up. */
  lemma DenseSumOf(cols: seq<seq<real>>, lda: nat, i: nat, row: seq<real>)
    requires i < lda && (forall k :: 0 <= k < |cols| ==> |cols[k]| == lda)
    requires |row| == |cols| && forall k :: 0 <= k < |cols| ==> row[k] == cols[k][i]
    ensures DenseSums(ByColumns(cols), lda, |cols|)(i) == AbsTotal(row)
  {
    RowUpTo(cols, lda, i, row, |cols|);
    assert row[..|cols|] == row;
  }

  lemma StoredTwelve(c: Csr)
    requires c == Csr(0, [5.0, -7.0], [0, 2], [0, 1])
    ensures Inside(c, 1) && StoredSums(c, 1)(0) == 12.0
  {
    assert Stored(c, 0, 1) == 5.0;
  }

  lemma DenseTwelve(a: seq<real>)
    requires a == [5.0, -7.0, 9.0]
    ensures DenseSums(a, 1, 2)(0) == 12.0
  {
    assert RowSum(DenseRow(a, 1, 0), 1) == 5.0;
  }

  lemma SameTwelve(c: Csr, a: seq<real>)
    requires c == Csr(0, [5.0, -7.0], [0, 2], [0, 1]) && a == [5.0, -7.0, 9.0]
    ensures Inside(c, 1) && Partition(c, 1) && Holds(a, 1, c, 1, 2) && RowsDistinct(c, 1, 2)
  {
    assert Entry(c, 0, 1, 0) == 5.0 && Entry(c, 0, 1, 1) == 0.0;
  }

  /** One row with 5 and -7 in columns 0 and 1, stored both ways: both norms
      are 12, whatever follows the dense matrix in its array. */
  lemma FiveAndSeven(c: Csr, a: seq<real>, norm: real)
    requires c == Csr(0, [5.0, -7.0], [0, 2], [0, 1]) && a == [5.0, -7.0, 9.0] && norm >= 0.0
    ensures Inside(c, 1) && Partition(c, 1) && Holds(a, 1, c, 1, 2) && RowsDistinct(c, 1, 2)
    ensures IsNorm(StoredSums(c, 1), 1, norm) <==> norm == 12.0
    ensures IsNorm(DenseSums(a, 1, 2), 1, norm) <==> norm == 12.0
  {
    StoredTwelve(c);
    DenseTwelve(a);
    SameTwelve(c, a);
  }
}
