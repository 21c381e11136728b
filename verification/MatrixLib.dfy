/** The 4 x 4 matrix class: column-major storage, products, and inversion by
    Gauss-Jordan elimination with scaled row pivoting over row pointers. */
module MatrixLib {
  import opened Elimination
  import opened Reals

  /** How `inverse` ends. Over the reals a zero divisor in columns 0 to 2 has
      no value; the source goes on with IEEE quotients by zero. */
  datatype Ending = Inverted | Singular | ZeroDivisor

  /** Four different row arrays of eight, as the row pointers of the source. */
  ghost predicate IsRows(s: seq<array<real>>) {
    && |s| == 4
    && (forall i :: 0 <= i < 4 ==> s[i].Length == 8)
    && forall i, j :: 0 <= i < j < 4 ==> s[i] != s[j]
  }

  ghost function Block(s: seq<array<real>>): (b: Mat)
    requires IsRows(s)
    reads s
    ensures IsBlock(b) && forall i :: 0 <= i < 4 ==> b[i] == s[i][..]
  {
    [s[0][..], s[1][..], s[2][..], s[3][..]]
  }

  // ---------- what the loops establish, on values ----------

  ghost predicate Cleared(s: Mat, i: nat, j: nat) {
    && Upper(s, i) && i < 4 && s[i][i] != 0.0
    && forall r :: i < r < j && r < 4 ==> s[r][i] == 0.0
  }

  lemma Quotient(a: real, b: real)
    requires b != 0.0
    ensures a - (a / b) * b == 0.0
  {
  }

  lemma ClearOne(s: Mat, i: nat, j: nat)
    requires Cleared(s, i, j) && i < j < 4
    ensures Cleared(s[j := Subtracted(s[j], s[i], s[j][i] / s[i][i])], i, j + 1)
  {
    Quotient(s[j][i], s[i][i]);
  }

  /** Columns above i are diagonal, and column i is in rows above j. */
  ghost predicate Reduced(s: Mat, i: nat, j: int) {
    && Upper(s, 4) && i < 4
    && (forall r, c :: i < c < 4 && 0 <= r < c ==> s[r][c] == 0.0)
    && (forall r :: j < r < i ==> 0 <= r ==> s[r][i] == 0.0)
  }

  lemma ReduceOne(s: Mat, i: nat, j: nat)
    requires Reduced(s, i, j) && j < i
    ensures Reduced(s[j := Subtracted(s[j], s[i], s[j][i] / s[i][i])], i, j - 1)
  {
    Quotient(s[j][i], s[i][i]);
  }

  // ---------- the inner loops, on row arrays ----------

  /** Elimination of one row: column i is set to zero outright and only the
      columns after it are updated. */
  method EliminateRow(rj: array<real>, ri: array<real>, i: nat)
    requires rj != ri && rj.Length == 8 && ri.Length == 8 && i < 4 && ri[i] != 0.0
    requires forall c :: 0 <= c < i ==> rj[c] == 0.0 && ri[c] == 0.0
    modifies rj
    ensures rj[..] == Subtracted(old(rj[..]), ri[..], old(rj[i]) / ri[i])
  {
    ghost var was := rj[..];
    var mji := rj[i] / ri[i];
    rj[i] := 0.0;
    Quotient(was[i], ri[i]);
    assert forall c :: 0 <= c < i ==> Times(mji, ri[c]) == 0.0;
    for jj := i + 1 to 8
      invariant forall c :: 0 <= c < jj ==> rj[c] == was[c] - Times(mji, ri[c])
      invariant forall c :: jj <= c < 8 ==> rj[c] == was[c]
    {
      rj[jj] := rj[jj] - mji * ri[jj];
    }
    assert rj[..] == Subtracted(was, ri[..], mji);
  }

  /** Back substitution in one row: only the columns after j are updated. */
  method BackRow(rj: array<real>, ri: array<real>, i: nat, j: nat)
    requires rj != ri && rj.Length == 8 && ri.Length == 8 && j < i < 4 && ri[i] != 0.0
    requires forall c :: 0 <= c < i ==> ri[c] == 0.0
    modifies rj
    ensures rj[..] == Subtracted(old(rj[..]), ri[..], old(rj[i]) / ri[i])
  {
    ghost var was := rj[..];
    var mij := rj[i] / ri[i];
    assert forall c :: 0 <= c < i ==> Times(mij, ri[c]) == 0.0;
    for jj := j + 1 to 8
      invariant forall c :: 0 <= c < jj ==> rj[c] == was[c] - Times(mij, ri[c])
      invariant forall c :: jj <= c < 8 ==> rj[c] == was[c]
    {
      rj[jj] := rj[jj] - mij * ri[jj];
    }
    assert rj[..] == Subtracted(was, ri[..], mij);
  }

  method EliminateBelow(s: seq<array<real>>, i: nat, ghost m: Mat, ghost g: Mat) returns (ghost g': Mat)
    requires IsRows(s) && i < 4 && Kept(Block(s), m, g) && Cleared(Block(s), i, i + 1)
    modifies s
    ensures Kept(Block(s), m, g') && Upper(Block(s), i + 1)
  {
    g' := g;
    for j := i + 1 to 4
      invariant Kept(Block(s), m, g') && Cleared(Block(s), i, j)
    {
      ghost var b := Block(s);
      ghost var f := b[j][i] / b[i][i];
      EliminateRow(s[j], s[i], i);
      assert Block(s) == b[j := Subtracted(b[j], b[i], f)];
      ClearOne(b, i, j);
      SubtractedKept(b, m, g', i, j, f);
      g' := GainColumn(g', i, j, f);
    }
  }

  method BackOne(s: seq<array<real>>, i: nat, j: nat, ghost m: Mat, ghost g: Mat) returns (ghost g': Mat)
    requires IsRows(s) && j < i < 4 && Kept(Block(s), m, g) && Reduced(Block(s), i, j)
    modifies s
    ensures Kept(Block(s), m, g') && Reduced(Block(s), i, j - 1)
  {
    ghost var b := Block(s);
    ghost var f := b[j][i] / b[i][i];
    BackRow(s[j], s[i], i, j);
    assert Block(s) == b[j := Subtracted(b[j], b[i], f)];
    ReduceOne(b, i, j);
    SubtractedKept(b, m, g, i, j, f);
    g' := GainColumn(g, i, j, f);
  }

  method BackSubstitute(s: seq<array<real>>, ghost m: Mat, ghost g: Mat) returns (ghost g': Mat)
    requires IsRows(s) && Kept(Block(s), m, g) && Upper(Block(s), 4)
    modifies s
    ensures Kept(Block(s), m, g') && Diagonal(Block(s))
  {
    g' := g;
    var i := 3;
    while i > 0
      invariant 0 <= i <= 3
      invariant Kept(Block(s), m, g') && Reduced(Block(s), i, i - 1)
    {
      var j := i - 1;
      while j > -1
        invariant -1 <= j < i
        invariant Kept(Block(s), m, g') && Reduced(Block(s), i, j)
      {
        g' := BackOne(s, i, j, m, g');
        j := j - 1;
      }
      i := i - 1;
    }
  }

  /** The largest entry of a row of m in absolute value. */
  method Scale(r: array<real>) returns (x: real)
    requires r.Length == 8
    ensures x >= 0.0 && forall c :: 0 <= c < 4 ==> Abs(r[c]) <= x
    ensures exists c :: 0 <= c < 4 && x == Abs(r[c])
    ensures x == 0.0 <==> forall c :: 0 <= c < 4 ==> r[c] == 0.0
  {
    x := Abs(r[0]);
    for j := 1 to 4
      invariant x >= 0.0 && forall c :: 0 <= c < j ==> Abs(r[c]) <= x
      invariant exists c :: 0 <= c < j && x == Abs(r[c])
    {
      if Abs(r[j]) > x { x := Abs(r[j]); }
    }
  }

  /** p is the first row from i on whose entry in column i is largest relative
      to the row's scale. */
  ghost predicate IsBest(s: seq<array<real>>, scp: seq<real>, i: nat, p: nat)
    requires IsRows(s) && |scp| == 4 && i < 4 && forall k :: 0 <= k < 4 ==> scp[k] > 0.0
    reads s
  {
    && i <= p < 4
    && (forall q :: i <= q < 4 ==> Abs(s[q][i] / scp[q]) <= Abs(s[p][i] / scp[p]))
    && forall q :: i <= q < p ==> Abs(s[q][i] / scp[q]) < Abs(s[p][i] / scp[p])
  }

  /** Scaled partial pivoting: the first row from i on whose entry in column i
      is largest relative to the row's scale. */
  method SelectPivot(s: seq<array<real>>, scp: seq<real>, i: nat) returns (p: nat)
    requires IsRows(s) && |scp| == 4 && i < 4 && forall k :: 0 <= k < 4 ==> scp[k] > 0.0
    ensures i <= p < 4 && forall q :: i <= q < 4 ==> Abs(s[q][i] / scp[q]) <= Abs(s[p][i] / scp[p])
    ensures forall q :: i <= q < p ==> Abs(s[q][i] / scp[q]) < Abs(s[p][i] / scp[p])
    ensures IsBest(s, scp, i, p)
  {
    p := i;
    var best := Abs(s[i][i] / scp[i]);
    for q := i + 1 to 4
      invariant i <= p < q && best == Abs(s[p][i] / scp[p])
      invariant forall k :: i <= k < q ==> Abs(s[k][i] / scp[k]) <= best
      invariant forall k :: i <= k < p ==> Abs(s[k][i] / scp[k]) < best
    {
      if Abs(s[q][i] / scp[q]) > best {
        best := Abs(s[q][i] / scp[q]);
        p := q;
      }
    }
  }

  lemma ZeroQuotient(a: real, d: real)
    requires d > 0.0
    ensures Abs(a / d) == 0.0 <==> a == 0.0
  {
    if a != 0.0 { assert (a / d) * d == a; }
  }

  // ---------- the class ----------

  /** row | (col << 2), for two-bit row and col. */
  function Index(row: nat, col: nat): (k: nat)
    requires row < 4 && col < 4
    ensures k < 16
  {
    row + 4 * col
  }

  lemma SameEntries(x: Mat, y: Mat)
    requires IsMat(x) && IsMat(y)
    requires forall i, j :: 0 <= i < 4 && 0 <= j < 4 ==> x[i][j] == y[i][j]
    ensures x == y
  {
    forall i | 0 <= i < 4 ensures x[i] == y[i] {}
  }

  lemma SwapUpper(s: Mat, i: nat, p: nat)
    requires Upper(s, i) && i <= p < 4
    ensures Upper(SwapRows(s, i, p), i)
  {
  }

  /** When the chosen entry is zero, the whole column is zero from row i on. */
  lemma ZeroBest(s: Mat, scp: seq<real>, i: nat, p: nat)
    requires Upper(s, i) && i <= p < 4 && |scp| == 4 && forall k :: 0 <= k < 4 ==> scp[k] > 0.0
    requires forall q :: i <= q < 4 ==> Abs(s[q][i] / scp[q]) <= Abs(s[p][i] / scp[p])
    requires s[p][i] == 0.0
    ensures NoPivot(SwapRows(s, i, p), i)
  {
    ZeroQuotient(s[p][i], scp[p]);
    forall q | i <= q < 4 ensures s[q][i] == 0.0 {
      ZeroQuotient(s[q][i], scp[q]);
    }
    SwapUpper(s, i, p);
  }

  class Matrix4 {
    /** element(row, col) is entry row | (col << 2). */
    const a: array<real>

    ghost predicate Valid() { a.Length == 16 }

    ghost function Value(): (m: Mat)
      requires Valid()
      reads a
      ensures IsMat(m) && forall i, j :: 0 <= i < 4 && 0 <= j < 4 ==> m[i][j] == a[Index(i, j)]
    {
      seq(4, i requires 0 <= i < 4 reads a => seq(4, j requires 0 <= j < 4 reads a => a[Index(i, j)]))
    }

    constructor ()
      ensures Valid() && fresh(a) && Value() == IdentityMat()
    {
      a := new real[16](_ => 0.0);
      new;
      a[0], a[5], a[10], a[15] := 1.0, 1.0, 1.0, 1.0;
      forall i, j | 0 <= i < 4 && 0 <= j < 4 ensures a[Index(i, j)] == Delta(i, j) {}
      SameEntries(Value(), IdentityMat());
    }

    function Element(row: nat, col: nat): (x: real)
      requires Valid() && row < 4 && col < 4
      reads a
      ensures x == Value()[row][col]
    {
      a[Index(row, col)]
    }

    method SetElement(row: nat, col: nat, x: real)
      requires Valid() && row < 4 && col < 4
      modifies a
      ensures Value() == old(Value())[row := old(Value())[row][col := x]]
    {
      a[Index(row, col)] := x;
      ghost var v := old(Value())[row := old(Value())[row][col := x]];
      forall i, j | 0 <= i < 4 && 0 <= j < 4 ensures Value()[i][j] == v[i][j] {
        assert Index(i, j) == Index(row, col) <==> i == row && j == col;
      }
      SameEntries(Value(), v);
    }

    method WorkRow(i: nat) returns (r: array<real>)
      requires Valid() && i < 4
      ensures fresh(r) && r.Length == 8 && r[..] == Augmented(Value())[i]
    {
      r := new real[8];
      for j := 0 to 4
        invariant forall c :: 0 <= c < j ==> r[c] == Value()[i][c] && r[c + 4] == Delta(i, c)
      {
        r[j] := Element(i, j);
        r[j + 4] := if i == j then 1.0 else 0.0;
      }
      forall c | 0 <= c < 8 ensures r[c] == Augmented(Value())[i][c] {
        if c >= 4 { assert r[(c - 4) + 4] == Delta(i, c - 4); }
      }
    }

    /** The four rows [m | I] of the working block. */
    method WorkRows() returns (s: seq<array<real>>)
      requires Valid()
      ensures IsRows(s) && fresh(s[0]) && fresh(s[1]) && fresh(s[2]) && fresh(s[3])
      ensures Block(s) == Augmented(Value())
    {
      var r1 := WorkRow(0);
      var r2 := WorkRow(1);
      var r3 := WorkRow(2);
      var r4 := WorkRow(3);
      s := [r1, r2, r3, r4];
    }
  }

  /** Rows and their scales exchanged, as pointers. */
  method Exchanged(s0: seq<array<real>>, scp0: seq<real>, i: nat, p: nat) returns (s: seq<array<real>>, scp: seq<real>)
    requires IsRows(s0) && |scp0| == 4 && i < 4 && p < 4
    ensures IsRows(s) && (forall k :: 0 <= k < 4 ==> s[k] in s0) && Block(s) == SwapRows(Block(s0), i, p)
    ensures scp == scp0[i := scp0[p]][p := scp0[i]]
  {
    s, scp := s0, scp0;
    if p != i {
      s := s[i := s[p]][p := s[i]];
      scp := scp[i := scp[p]][p := scp[i]];
    }
  }

  /** The pivot row and what a zero pivot tells. */
  method BestRow(s: seq<array<real>>, scp: seq<real>, i: nat) returns (p: nat)
    requires IsRows(s) && i < 4 && Upper(Block(s), i)
    requires |scp| == 4 && forall k :: 0 <= k < 4 ==> scp[k] > 0.0
    ensures IsBest(s, scp, i, p)
    ensures Block(s)[p][i] == 0.0 ==> NoPivot(SwapRows(Block(s), i, p), i)
  {
    p := SelectPivot(s, scp, i);
    if Block(s)[p][i] == 0.0 { ZeroBest(Block(s), scp, i, p); }
  }

  method BringUp(s0: seq<array<real>>, scp0: seq<real>, i: nat, ghost m: Mat, ghost g0: Mat)
    returns (s: seq<array<real>>, scp: seq<real>, p: nat, ghost g: Mat)
    requires IsRows(s0) && i < 4 && Kept(Block(s0), m, g0) && Upper(Block(s0), i)
    requires |scp0| == 4 && forall k :: 0 <= k < 4 ==> scp0[k] > 0.0
    ensures IsRows(s) && (forall k :: 0 <= k < 4 ==> s[k] in s0)
    ensures IsBest(s0, scp0, i, p) && Block(s) == SwapRows(Block(s0), i, p)
    ensures scp == scp0[i := scp0[p]][p := scp0[i]] && forall k :: 0 <= k < 4 ==> scp[k] > 0.0
    ensures Kept(Block(s), m, g) && Upper(Block(s), i)
    ensures s[i][i] == 0.0 ==> NoPivot(Block(s), i)
  {
    p := BestRow(s0, scp0, i);
    s, scp := Exchanged(s0, scp0, i, p);
    g := SwapColumns(g0, i, p);
    SwapKept(Block(s0), m, g0, i, p);
    SwapUpper(Block(s0), i, p);
    forall k | 0 <= k < 4 ensures scp[k] > 0.0 { assert scp[k] == scp0[if k == i then p else if k == p then i else k]; }
    assert s[i][i] == Block(s)[i][i] == Block(s0)[p][i];
  }

  /** One column of forward elimination: choose and bring up the pivot row,
      then clear the column below it. */
  method PivotColumn(s0: seq<array<real>>, scp0: seq<real>, i: nat, ghost m: Mat, ghost g0: Mat)
    returns (s: seq<array<real>>, scp: seq<real>, ok: bool, ghost g: Mat)
    requires IsRows(s0) && i < 4 && Kept(Block(s0), m, g0) && Upper(Block(s0), i)
    requires |scp0| == 4 && forall k :: 0 <= k < 4 ==> scp0[k] > 0.0
    modifies s0
    ensures IsRows(s) && (forall k :: 0 <= k < 4 ==> s[k] in s0)
    ensures |scp| == 4 && forall k :: 0 <= k < 4 ==> scp[k] > 0.0
    ensures Kept(Block(s), m, g)
    ensures ok && i < 3 ==> Upper(Block(s), i + 1)
    ensures i == 3 ==> ok && Upper(Block(s), 3)
    ensures !ok ==> i < 3 && NoPivot(Block(s), i)
  {
    ok := true;
    var p;
    s, scp, p, g := BringUp(s0, scp0, i, m, g0);
    if i < 3 {
      if s[i][i] == 0.0 {
        ok := false;
      } else {
        g := EliminateBelow(s, i, m, g);
      }
    }
  }

  /** Forward elimination; false at the first column that has no pivot. */
  method Triangulate(s0: seq<array<real>>, scp0: seq<real>, ghost m: Mat)
    returns (s: seq<array<real>>, ok: bool, ghost g: Mat, ghost at: nat)
    requires IsRows(s0) && IsMat(m) && Block(s0) == Augmented(m)
    requires |scp0| == 4 && forall k :: 0 <= k < 4 ==> scp0[k] > 0.0
    modifies s0
    ensures IsRows(s) && forall i :: 0 <= i < 4 ==> s[i] in s0
    ensures Kept(Block(s), m, g)
    ensures ok ==> Upper(Block(s), 3)
    ensures !ok ==> at < 3 && NoPivot(Block(s), at)
  {
    var scp := scp0;
    s, g, ok, at := s0, IdentityMat(), true, 0;
    StartKept(m);
    for i := 0 to 4
      invariant IsRows(s) && forall k :: 0 <= k < 4 ==> s[k] in s0
      invariant |scp| == 4 && forall k :: 0 <= k < 4 ==> scp[k] > 0.0
      invariant Kept(Block(s), m, g) && ok
      invariant Upper(Block(s), if i < 4 then i else 3)
    {
      s, scp, ok, g := PivotColumn(s, scp, i, m, g);
      if !ok {
        at := i;
        return;
      }
    }
  }

  ghost predicate ZeroFour(r: Row) {
    |r| >= 4 && forall c :: 0 <= c < 4 ==> r[c] == 0.0
  }

  ghost predicate ZeroRow(b: Mat)
    requires IsBlock(b)
  {
    exists i :: 0 <= i < 4 && ZeroFour(b[i])
  }

  /** The scales of the four rows, or false exactly when some row of m is zero. */
  method Scales(s: seq<array<real>>) returns (scp: seq<real>, full: bool)
    requires IsRows(s)
    ensures full ==> |scp| == 4 && forall k :: 0 <= k < 4 ==> scp[k] > 0.0
    ensures full <==> !ZeroRow(Block(s))
  {
    scp, full := [], true;
    for i := 0 to 4
      invariant full && |scp| == i && forall k :: 0 <= k < i ==> scp[k] > 0.0
      invariant forall k :: 0 <= k < i ==> !ZeroFour(Block(s)[k])
    {
      var x := Scale(s[i]);
      assert Block(s)[i] == s[i][..];
      if x == 0.0 {
        assert ZeroFour(Block(s)[i]);
        full := false;
        return;
      }
      scp := scp + [x];
    }
  }

  lemma ZeroRowOfBlock(s: seq<array<real>>, m: Mat)
    requires IsRows(s) && IsMat(m) && Block(s) == Augmented(m)
    ensures ZeroRow(Block(s)) <==> HasZeroRow(m)
    ensures HasZeroRow(m) ==> !Invertible(m)
  {
    forall i | 0 <= i < 4 ensures ZeroFour(Block(s)[i]) <==> m[i] == [0.0, 0.0, 0.0, 0.0] {
      assert forall c :: 0 <= c < 4 ==> Augmented(m)[i][c] == m[i][c];
    }
    if HasZeroRow(m) {
      var i :| 0 <= i < 4 && m[i] == [0.0, 0.0, 0.0, 0.0];
      ZeroRowSingular(m, i);
    }
  }

  /** From the triangular block on: the last pivot, then back substitution. */
  method FinishBlock(s: seq<array<real>>, ghost m: Mat, ghost g: Mat) returns (how: Ending)
    requires IsRows(s) && Kept(Block(s), m, g) && Upper(Block(s), 3)
    modifies s
    ensures how == Inverted ==> Diagonal(Block(s)) && IsInverse(Divided(Block(s)), m)
    ensures how != Inverted ==> how == Singular && !Invertible(m)
  {
    if s[3][3] == 0.0 {
      NoPivotSingular(Block(s), m, g, 3);
      return Singular;
    }
    assert Upper(Block(s), 4);
    ghost var g' := BackSubstitute(s, m, g);
    DividedIsInverse(Block(s), m, g');
    how := Inverted;
  }

  /** What is left once every row has a scale. */
  method SolveFull(s0: seq<array<real>>, scp: seq<real>, ghost m: Mat) returns (s: seq<array<real>>, how: Ending)
    requires IsRows(s0) && IsMat(m) && Block(s0) == Augmented(m)
    requires |scp| == 4 && forall k :: 0 <= k < 4 ==> scp[k] > 0.0
    modifies s0
    ensures IsRows(s) && forall k :: 0 <= k < 4 ==> s[k] in s0
    ensures how == Inverted ==> Diagonal(Block(s)) && IsInverse(Divided(Block(s)), m)
    ensures how == Inverted <==> Invertible(m)
    ensures how == ZeroDivisor <==> DependentColumns(m)
  {
    var ok;
    ghost var g, at;
    s, ok, g, at := Triangulate(s0, scp, m);
    if !ok {
      NoPivotSingular(Block(s), m, g, at);
      EarlyPivotDependent(Block(s), m, g, at);
      return s, ZeroDivisor;
    }
    ThreePivotsIndependent(Block(s), m, g);
    how := FinishBlock(s, m, g);
  }

  method SolveBlock(s0: seq<array<real>>, ghost m: Mat) returns (s: seq<array<real>>, how: Ending)
    requires IsRows(s0) && IsMat(m) && Block(s0) == Augmented(m)
    modifies s0
    ensures IsRows(s) && forall k :: 0 <= k < 4 ==> s[k] in s0
    ensures how == Inverted ==> Diagonal(Block(s)) && IsInverse(Divided(Block(s)), m)
    ensures how == Inverted <==> Invertible(m)
    ensures how == ZeroDivisor <==> !HasZeroRow(m) && DependentColumns(m)
  {
    s := s0;
    var scp, full := Scales(s);
    ZeroRowOfBlock(s, m);
    if !full { return s, Singular; }
    s, how := SolveFull(s, scp, m);
  }

  method InverseRows(m: Matrix4) returns (s: seq<array<real>>, how: Ending)
    requires m.Valid()
    ensures IsRows(s) && forall k :: 0 <= k < 4 ==> fresh(s[k])
    ensures how == Inverted ==> Diagonal(Block(s)) && IsInverse(Divided(Block(s)), m.Value())
    ensures how == Inverted <==> Invertible(m.Value())
    ensures how == ZeroDivisor <==> !HasZeroRow(m.Value()) && DependentColumns(m.Value())
  {
    var s0 := m.WorkRows();
    s, how := SolveBlock(s0, m.Value());
  }

  method Store(minv: Matrix4, s: seq<array<real>>)
    requires minv.Valid() && IsRows(s) && Diagonal(Block(s))
    requires forall k :: 0 <= k < 4 ==> s[k] != minv.a
    modifies minv.a
    ensures minv.Value() == Divided(Block(s))
  {
    ghost var x := Divided(Block(s));
    for i := 0 to 4
      invariant Block(s) == old(Block(s))
      invariant forall r, c :: 0 <= r < i && 0 <= c < 4 ==> minv.Value()[r][c] == x[r][c]
    {
      for j := 0 to 4
        invariant Block(s) == old(Block(s))
        invariant forall r, c :: 0 <= r < i && 0 <= c < 4 ==> minv.Value()[r][c] == x[r][c]
        invariant forall c :: 0 <= c < j ==> minv.Value()[i][c] == x[i][c]
      {
        minv.SetElement(i, j, s[i][j + 4] / s[i][i]);
      }
    }
    SameEntries(minv.Value(), x);
  }

  /** inverse: on every input, an inverse on both sides is returned exactly
      when there is one. A matrix without one runs into a zero divisor exactly
      when no row is zero and the first three columns are dependent; every
      other one gives the identity. */
  method Inverse(m: Matrix4) returns (minv: Matrix4, how: Ending)
    requires m.Valid()
    ensures minv.Valid() && fresh(minv) && fresh(minv.a)
    ensures how == Inverted <==> Invertible(m.Value())
    ensures how == ZeroDivisor <==> !HasZeroRow(m.Value()) && DependentColumns(m.Value())
    ensures how == Inverted ==> IsInverse(minv.Value(), m.Value())
    ensures how == Singular ==> minv.Value() == IdentityMat()
  {
    minv := new Matrix4();
    var s;
    s, how := InverseRows(m);
    if how == Inverted { Store(minv, s); }
  }

  /** A matrix that is not reported as singular: all rows are nonzero, the first
      column is zero. */
  lemma DividesByZero()
    ensures var m := [[0.0, 1.0, 0.0, 0.0], [0.0, 0.0, 1.0, 0.0], [0.0, 0.0, 0.0, 1.0], [0.0, 1.0, 0.0, 1.0]];
            !HasZeroRow(m) && DependentColumns(m)
  {
    var m := [[0.0, 1.0, 0.0, 0.0], [0.0, 0.0, 1.0, 0.0], [0.0, 0.0, 0.0, 1.0], [0.0, 1.0, 0.0, 1.0]];
    assert m[0][1] == 1.0 && m[1][2] == 1.0 && m[2][3] == 1.0 && m[3][1] == 1.0;
    var v := [1.0, 0.0, 0.0, 0.0];
    assert FirstThree(v) && SentToZero(m, v);
  }

  // ---------- products ----------

  /** The first c terms of a row times a column, added in the loop's order. */
  function Partial(p: seq<real>, q: seq<real>, c: nat): real
    requires |p| == 4 && |q| == 4 && c <= 4
  {
    if c == 0 then 0.0 else Partial(p, q, c - 1) + Times(p[c - 1], q[c - 1])
  }

  lemma PartialIsDot(p: seq<real>, q: seq<real>)
    requires |p| == 4 && |q| == 4
    ensures Partial(p, q, 4) == Dot4(p, q)
  {
    assert Partial(p, q, 1) == p[0] * q[0];
    assert Partial(p, q, 2) == p[0] * q[0] + p[1] * q[1];
    assert Partial(p, q, 3) == p[0] * q[0] + p[1] * q[1] + p[2] * q[2];
  }

  ghost function ProductMat(x: Mat, y: Mat): (p: Mat)
    requires IsMat(x) && IsMat(y)
    ensures IsMat(p) && forall i, j :: 0 <= i < 4 && 0 <= j < 4 ==> p[i][j] == Dot(x, y, i, j)
  {
    seq(4, i requires 0 <= i < 4 => seq(4, j requires 0 <= j < 4 => Dot(x, y, i, j)))
  }

  ghost function ZeroMat(): (z: Mat)
    ensures IsMat(z)
  {
    seq(4, _ => seq(4, _ => 0.0))
  }

  function Put(v: Mat, i: nat, j: nat, x: real): (r: Mat)
    requires IsMat(v) && i < 4 && j < 4
    ensures IsMat(r) && r[i][j] == x
  {
    v[i := v[i][j := x]]
  }

  lemma PutTwice(v: Mat, i: nat, j: nat, x: real, y: real)
    requires IsMat(v) && i < 4 && j < 4
    ensures Put(Put(v, i, j, x), i, j, y) == Put(v, i, j, y)
    ensures Put(v, i, j, v[i][j]) == v
  {
    assert v[i][j := x][j := y] == v[i][j := y] && v[i][j := v[i][j]] == v[i];
    assert v[i := v[i][j := x]][i := v[i][j := y]] == v[i := v[i][j := y]] && v[i := v[i]] == v;
  }

  method AddTerm(r: Matrix4, i: nat, j: nat, term: real)
    requires r.Valid() && i < 4 && j < 4
    modifies r.a
    ensures r.Value() == Put(old(r.Value()), i, j, old(r.Value())[i][j] + term)
  {
    r.SetElement(i, j, r.Element(i, j) + term);
  }

  /** z with the first i rows taken from p. */
  ghost function RowsTaken(p: Mat, z: Mat, i: nat): (r: Mat)
    requires IsMat(p) && IsMat(z) && i <= 4
    ensures IsMat(r) && (i == 0 ==> r == z) && (i == 4 ==> r == p) && (i < 4 ==> r[i] == z[i])
  {
    p[..i] + z[i..]
  }

  lemma RowsStep(p: Mat, z: Mat, i: nat)
    requires IsMat(p) && IsMat(z) && i < 4
    ensures RowsTaken(p, z, i)[i := p[i]] == RowsTaken(p, z, i + 1)
  {
  }

  /** One entry of a product, accumulated in place in element (i, j) of r. */
  method Accumulate(r: Matrix4, lhs: Matrix4, rhs: Matrix4, i: nat, j: nat)
    requires r.Valid() && lhs.Valid() && rhs.Valid() && r.a != lhs.a && r.a != rhs.a && i < 4 && j < 4
    requires r.Value()[i][j] == 0.0
    modifies r.a
    ensures r.Value() == Put(old(r.Value()), i, j, Dot(lhs.Value(), rhs.Value(), i, j))
  {
    ghost var p, q, v := lhs.Value()[i], Column(rhs.Value(), j), r.Value();
    PutTwice(v, i, j, 0.0, 0.0);
    for c := 0 to 4
      invariant lhs.Value() == old(lhs.Value()) && rhs.Value() == old(rhs.Value())
      invariant r.Value() == Put(v, i, j, Partial(p, q, c))
    {
      assert p[c] == lhs.Element(i, c) && q[c] == rhs.Element(c, j);
      var term := Times(lhs.Element(i, c), rhs.Element(c, j));
      AddTerm(r, i, j, term);
      PutTwice(v, i, j, Partial(p, q, c), Partial(p, q, c + 1));
    }
    PartialIsDot(p, q);
  }

  /** v with the first j entries of row i taken from p. */
  ghost function RowDone(v: Mat, p: Mat, i: nat, j: nat): (r: Mat)
    requires IsMat(v) && IsMat(p) && i < 4 && j <= 4
    ensures IsMat(r) && (j == 0 ==> r == v) && (j == 4 ==> r == v[i := p[i]])
    ensures j < 4 ==> r[i][j] == v[i][j]
  {
    assert p[i][..0] + v[i][0..] == v[i] && v[i := v[i]] == v;
    assert p[i][..4] + v[i][4..] == p[i];
    v[i := p[i][..j] + v[i][j..]]
  }

  lemma RowStep(v: Mat, p: Mat, i: nat, j: nat)
    requires IsMat(v) && IsMat(p) && i < 4 && j < 4
    ensures var r := RowDone(v, p, i, j); r[i := r[i][j := p[i][j]]] == RowDone(v, p, i, j + 1)
  {
    assert (p[i][..j] + v[i][j..])[j := p[i][j]] == p[i][..j + 1] + v[i][j + 1..];
  }

  method MultiplyRow(r: Matrix4, lhs: Matrix4, rhs: Matrix4, i: nat, ghost p: Mat)
    requires r.Valid() && lhs.Valid() && rhs.Valid() && r.a != lhs.a && r.a != rhs.a && i < 4
    requires p == ProductMat(lhs.Value(), rhs.Value())
    requires r.Value()[i] == [0.0, 0.0, 0.0, 0.0]
    modifies r.a
    ensures r.Value() == old(r.Value())[i := p[i]]
  {
    ghost var v := r.Value();
    for j := 0 to 4
      invariant p == ProductMat(lhs.Value(), rhs.Value())
      invariant r.Value() == RowDone(v, p, i, j)
    {
      Accumulate(r, lhs, rhs, i, j);
      RowStep(v, p, i, j);
    }
  }

  /** The triple loop into a zero matrix that is neither operand. */
  method MultiplyInto(r: Matrix4, lhs: Matrix4, rhs: Matrix4)
    requires r.Valid() && lhs.Valid() && rhs.Valid() && r.a != lhs.a && r.a != rhs.a
    requires r.Value() == ZeroMat()
    modifies r.a
    ensures r.Value() == ProductMat(lhs.Value(), rhs.Value())
  {
    ghost var x, y, z := lhs.Value(), rhs.Value(), r.Value();
    ghost var p := ProductMat(x, y);
    for i := 0 to 4
      invariant lhs.Value() == x && rhs.Value() == y && r.Value() == RowsTaken(p, z, i)
    {
      assert z[i] == [0.0, 0.0, 0.0, 0.0];
      MultiplyRow(r, lhs, rhs, i, p);
      RowsStep(p, z, i);
    }
  }

  method Clear(r: Matrix4)
    requires r.Valid()
    modifies r.a
    ensures r.Value() == ZeroMat()
  {
    for k := 0 to 16
      invariant forall h :: 0 <= h < k ==> r.a[h] == 0.0
    {
      r.a[k] := 0.0;
    }
    SameEntries(r.Value(), ZeroMat());
  }

  /** operator * */
  method Product(lhs: Matrix4, rhs: Matrix4) returns (r: Matrix4)
    requires lhs.Valid() && rhs.Valid()
    ensures r.Valid() && fresh(r) && fresh(r.a)
    ensures r.Value() == ProductMat(lhs.Value(), rhs.Value())
  {
    r := new Matrix4();
    Clear(r);
    MultiplyInto(r, lhs, rhs);
  }

  /** One entry of `m *= m`: m was cleared first and is its own right operand,
      so it only ever adds zeros. */
  method AccumulateSelf(m: Matrix4, mt: Matrix4, i: nat, j: nat)
    requires m.Valid() && mt.Valid() && m.a != mt.a && i < 4 && j < 4 && m.Value() == ZeroMat()
    modifies m.a
    ensures m.Value() == ZeroMat()
  {
    for c := 0 to 4
      invariant m.Value() == ZeroMat()
    {
      assert m.Element(c, j) == 0.0 && m.Element(i, j) == 0.0;
      assert mt.Element(i, c) * 0.0 == 0.0;
      m.SetElement(i, j, m.Element(i, j) + mt.Element(i, c) * m.Element(c, j));
      SameEntries(m.Value(), ZeroMat());
    }
  }

  /** `m *= m` is not the square of every matrix. */
  lemma IdentityLost()
    ensures ProductMat(IdentityMat(), IdentityMat()) != ZeroMat()
  {
    assert ProductMat(IdentityMat(), IdentityMat())[0][0] == Dot(IdentityMat(), IdentityMat(), 0, 0) == 1.0;
    assert ZeroMat()[0][0] == 0.0;
  }

  method Copy(m: Matrix4) returns (r: Matrix4)
    requires m.Valid()
    ensures r.Valid() && fresh(r) && fresh(r.a) && r.Value() == m.Value()
  {
    r := new Matrix4();
    for k := 0 to 16
      invariant forall h :: 0 <= h < k ==> r.a[h] == m.a[h]
    {
      r.a[k] := m.a[k];
    }
    SameEntries(r.Value(), m.Value());
  }

  /** operator *= : the product when the operand is another matrix; `m *= m`
      leaves the zero matrix, because m is cleared before it is read. So the
      result is the product exactly when the operand is another matrix or the
      square of m is zero. */
  method MulAssign(m: Matrix4, rhs: Matrix4)
    requires m.Valid() && rhs.Valid()
    modifies m.a
    ensures m.a != rhs.a ==> m.Value() == ProductMat(old(m.Value()), rhs.Value())
    ensures m.a == rhs.a ==> m.Value() == ZeroMat()
    ensures m.Value() == ProductMat(old(m.Value()), old(rhs.Value())) <==>
            m.a != rhs.a || ProductMat(old(m.Value()), old(m.Value())) == ZeroMat()
  {
    var mt := Copy(m);
    Clear(m);
    if m.a != rhs.a {
      MultiplyInto(m, mt, rhs);
    } else {
      for i := 0 to 4
        invariant m.Value() == ZeroMat()
      {
        for j := 0 to 4
          invariant m.Value() == ZeroMat()
        {
          AccumulateSelf(m, mt, i, j);
        }
      }
    }
  }

  /** The product of the result of `inverse` with m, in both orders, is the
      identity that the default constructor makes. */
  lemma InverseProducts(x: Mat, m: Mat)
    requires IsInverse(x, m)
    ensures ProductMat(x, m) == IdentityMat() && ProductMat(m, x) == IdentityMat()
  {
    SameEntries(ProductMat(x, m), IdentityMat());
    SameEntries(ProductMat(m, x), IdentityMat());
  }

  // ---------- transpose ----------

  ghost function TransposeMat(m: Mat): (t: Mat)
    requires IsMat(m)
    ensures IsMat(t) && forall i, j :: 0 <= i < 4 && 0 <= j < 4 ==> t[i][j] == m[j][i]
  {
    seq(4, i requires 0 <= i < 4 => seq(4, j requires 0 <= j < 4 => m[j][i]))
  }

  /** The inner loop: one row of the result. */
  method TransposeRow(t: Matrix4, m: Matrix4, i: nat, ghost p: Mat)
    requires t.Valid() && m.Valid() && t.a != m.a && i < 4 && p == TransposeMat(m.Value())
    modifies t.a
    ensures t.Value() == old(t.Value())[i := p[i]]
  {
    ghost var v := t.Value();
    for j := 0 to 4
      invariant p == TransposeMat(m.Value()) && t.Value() == RowDone(v, p, i, j)
    {
      t.SetElement(i, j, m.Element(j, i));
      RowStep(v, p, i, j);
    }
  }

  method Transpose(m: Matrix4) returns (t: Matrix4)
    requires m.Valid()
    ensures t.Valid() && fresh(t) && fresh(t.a)
    ensures t.Value() == TransposeMat(m.Value())
  {
    t := new Matrix4();
    ghost var v, p := t.Value(), TransposeMat(m.Value());
    for i := 0 to 4
      invariant p == TransposeMat(m.Value()) && t.Value() == RowsTaken(p, v, i)
    {
      TransposeRow(t, m, i, p);
      RowsStep(p, v, i);
    }
  }

  lemma Commuted(p: seq<real>, q: seq<real>)
    requires |p| == 4 && |q| == 4
    ensures Dot4(p, q) == Dot4(q, p)
  {
  }

  lemma DotTransposed(x: Mat, y: Mat, i: nat, j: nat)
    requires IsMat(x) && IsMat(y) && i < 4 && j < 4
    ensures Dot(x, y, j, i) == Dot(TransposeMat(y), TransposeMat(x), i, j)
  {
    var p, q := x[j], Column(y, i);
    assert TransposeMat(y)[i] == q && Column(TransposeMat(x), j) == p;
    Commuted(p, q);
  }

  /** A product transposes to the transposed factors in the other order. */
  lemma TransposeProduct(x: Mat, y: Mat)
    requires IsMat(x) && IsMat(y)
    ensures TransposeMat(ProductMat(x, y)) == ProductMat(TransposeMat(y), TransposeMat(x))
  {
    forall i, j | 0 <= i < 4 && 0 <= j < 4
      ensures TransposeMat(ProductMat(x, y))[i][j] == ProductMat(TransposeMat(y), TransposeMat(x))[i][j]
    {
      DotTransposed(x, y, i, j);
    }
    SameEntries(TransposeMat(ProductMat(x, y)), ProductMat(TransposeMat(y), TransposeMat(x)));
  }

  /** Transposing commutes with inverting. */
  lemma TransposeInverse(x: Mat, m: Mat)
    requires IsInverse(x, m)
    ensures IsInverse(TransposeMat(x), TransposeMat(m))
  {
    forall i, j | 0 <= i < 4 && 0 <= j < 4
      ensures Dot(TransposeMat(x), TransposeMat(m), i, j) == Delta(i, j)
      ensures Dot(TransposeMat(m), TransposeMat(x), i, j) == Delta(i, j)
    {
      DotTransposed(m, x, i, j);
      DotTransposed(x, m, i, j);
      assert Dot(m, x, j, i) == Delta(j, i) && Dot(x, m, j, i) == Delta(j, i);
    }
  }
}
