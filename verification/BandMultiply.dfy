/** The threaded matrix product: each thread computes a band of rows of the
    shared result, one multiply-add or one store at a time, in any interleaving
    with the others. */
module BandMultiply {

  type Entries = (nat, nat) -> int

  /** The first k terms of entry (r, q) of the product. */
  function Terms(a: Entries, b: Entries, r: nat, q: nat, k: nat): int {
    if k == 0 then 0 else Terms(a, b, r, q, k - 1) + a(r, k - 1) * b(k - 1, q)
  }

  predicate Square(c: seq<seq<int>>, dim: nat) {
    |c| == dim && forall r :: 0 <= r < dim ==> |c[r]| == dim
  }

  // ---------- main: where the bands start ----------

  /** start is advanced by dim / threads for each thread. */
  function Starts(dx: nat, threads: nat): (s: seq<nat>)
    ensures |s| == threads
  {
    if threads == 0 then [] else
      var s := Starts(dx, threads - 1);
      s + [if threads == 1 then 0 else s[threads - 2] + dx]
  }

  lemma {:induction false} StartsAt(dx: nat, threads: nat, t: nat)
    requires t < threads
    ensures Starts(dx, threads)[t] == t * dx
  {
    if t < threads - 1 {
      StartsAt(dx, threads - 1, t);
    } else if threads > 1 {
      StartsAt(dx, threads - 1, threads - 2);
      assert (threads - 2) * dx + dx == (threads - 1) * dx;
    }
  }

  /** main's loop over the array of starting rows. */
  method BandStarts(starts: array<nat>, dim: nat)
    requires starts.Length > 0
    modifies starts
    ensures starts[..] == Starts(dim / starts.Length, starts.Length)
  {
    var dx, start := dim / starts.Length, 0;
    for i := 0 to starts.Length
      invariant start == i * dx
      invariant forall t: nat :: t < i ==> starts[t] == t * dx
    {
      starts[i] := start;
      start := start + dim / starts.Length;
    }
    forall t: nat | t < starts.Length ensures starts[t] == Starts(dx, starts.Length)[t] {
      StartsAt(dx, starts.Length, t);
    }
  }

  ghost predicate Disjoint(starts: seq<nat>, dx: nat) {
    forall t, u :: 0 <= t < u < |starts| ==> starts[t] + dx <= starts[u]
  }

  lemma MulMono(x: nat, y: nat, d: nat)
    requires x <= y
    ensures x * d <= y * d
  {
  }

  lemma StartsDisjoint(dx: nat, threads: nat)
    ensures Disjoint(Starts(dx, threads), dx)
  {
    forall t, u | 0 <= t < u < threads ensures Starts(dx, threads)[t] + dx <= Starts(dx, threads)[u] {
      StartsAt(dx, threads, t);
      StartsAt(dx, threads, u);
      MulMono(t + 1, u, dx);
    }
  }

  lemma BandsFit(dim: nat, threads: nat, t: nat)
    requires t < threads
    ensures Starts(dim / threads, threads)[t] + dim / threads <= threads * (dim / threads) <= dim
  {
    StartsAt(dim / threads, threads, t);
    MulMono(t + 1, threads, dim / threads);
  }

  // ---------- Calculate, one instruction at a time ----------

  /** A thread's locals; lo is the start of its band. */
  datatype Worker = Worker(lo: nat, i: nat, j: nat, k: nat, temp: int)

  datatype Par = Par(c: seq<seq<int>>, ws: seq<Worker>)

  ghost predicate Fits(s: Par, dim: nat, dx: nat, starts: seq<nat>) {
    && Square(s.c, dim) && |s.ws| == |starts|
    && forall t :: 0 <= t < |s.ws| ==>
         var w := s.ws[t];
         w.lo == starts[t] && w.lo + dx <= dim && w.lo <= w.i <= w.lo + dx && w.j <= dim && w.k <= dim
  }

  function WorkerStep(w: Worker, dim: nat, dx: nat, a: Entries, b: Entries): Worker {
    if w.i >= w.lo + dx then w
    else if w.j >= dim then w.(i := w.i + 1, j := 0)
    else if w.k < dim then w.(temp := w.temp + a(w.i, w.k) * b(w.k, w.j), k := w.k + 1)
    else w.(j := w.j + 1, k := 0, temp := 0)
  }

  predicate Stores(w: Worker, dim: nat, dx: nat) {
    w.i < w.lo + dx && w.j < dim && w.k >= dim
  }

  function ParStep(s: Par, dim: nat, dx: nat, a: Entries, b: Entries, t: nat): Par {
    if t >= |s.ws| then s else
      var w := s.ws[t];
      Par(if Stores(w, dim, dx) && w.i < |s.c| && w.j < |s.c[w.i]| then s.c[w.i := s.c[w.i][w.j := w.temp]] else s.c,
          s.ws[t := WorkerStep(w, dim, dx, a, b)])
  }

  function ParRun(s: Par, dim: nat, dx: nat, a: Entries, b: Entries, order: seq<nat>): Par {
    if order == [] then s else
      ParStep(ParRun(s, dim, dx, a, b, order[..|order| - 1]), dim, dx, a, b, order[|order| - 1])
  }

  function Initial(dim: nat, starts: seq<nat>): Par {
    Par(seq(dim, _ => seq(dim, _ => 0)),
        seq(|starts|, t requires 0 <= t < |starts| => Worker(starts[t], starts[t], 0, 0, 0)))
  }

  // ---------- what every interleaving keeps ----------

  /** Rows and columns the thread has already stored. */
  predicate Past(w: Worker, r: int, q: int) {
    r < w.i || (r == w.i && q < w.j)
  }

  ghost predicate BandOk(s: Par, dim: nat, dx: nat, a: Entries, b: Entries, t: nat)
    requires Square(s.c, dim) && t < |s.ws|
  {
    var w := s.ws[t];
    && w.temp == Terms(a, b, w.i, w.j, w.k)
    && (w.i == w.lo + dx ==> w.j == 0) && (w.j >= dim ==> w.k == 0)
    && forall r: nat, q: nat :: w.lo <= r < w.lo + dx && r < dim && q < dim ==>
         s.c[r][q] == if Past(w, r, q) then Terms(a, b, r, q, dim) else 0
  }

  ghost predicate RestZero(s: Par, dim: nat, top: nat)
    requires Square(s.c, dim)
  {
    forall r, q :: top <= r < dim && 0 <= q < dim ==> s.c[r][q] == 0
  }

  ghost predicate ParInv(s: Par, dim: nat, dx: nat, a: Entries, b: Entries, starts: seq<nat>, top: nat) {
    && Fits(s, dim, dx, starts)
    && (forall t :: 0 <= t < |starts| ==> starts[t] + dx <= top)
    && (forall t :: 0 <= t < |starts| ==> BandOk(s, dim, dx, a, b, t))
    && RestZero(s, dim, top)
  }

  lemma OwnBand(s: Par, dim: nat, dx: nat, a: Entries, b: Entries, t: nat)
    requires Square(s.c, dim) && t < |s.ws| && BandOk(s, dim, dx, a, b, t)
    requires var w := s.ws[t]; w.lo + dx <= dim && w.lo <= w.i <= w.lo + dx && w.j <= dim && w.k <= dim
    ensures Square(ParStep(s, dim, dx, a, b, t).c, dim)
    ensures BandOk(ParStep(s, dim, dx, a, b, t), dim, dx, a, b, t)
  {
  }

  lemma StepKeeps(s: Par, dim: nat, dx: nat, a: Entries, b: Entries, starts: seq<nat>, top: nat, t: nat)
    requires ParInv(s, dim, dx, a, b, starts, top) && Disjoint(starts, dx)
    ensures ParInv(ParStep(s, dim, dx, a, b, t), dim, dx, a, b, starts, top)
  {
    if t < |s.ws| {
      var s', w := ParStep(s, dim, dx, a, b, t), s.ws[t];
      OwnBand(s, dim, dx, a, b, t);
      forall u | 0 <= u < |starts| && u != t ensures BandOk(s', dim, dx, a, b, u) {
        assert BandOk(s, dim, dx, a, b, u);
        assert Stores(w, dim, dx) ==> !(s.ws[u].lo <= w.i < s.ws[u].lo + dx);
      }
    }
  }

  lemma {:induction false} RunKeeps(dim: nat, dx: nat, a: Entries, b: Entries, starts: seq<nat>, top: nat,
                                    order: seq<nat>)
    requires Disjoint(starts, dx) && top <= dim && forall t :: 0 <= t < |starts| ==> starts[t] + dx <= top
    ensures ParInv(ParRun(Initial(dim, starts), dim, dx, a, b, order), dim, dx, a, b, starts, top)
  {
    if order == [] {
      var s := Initial(dim, starts);
      forall t | 0 <= t < |starts| ensures BandOk(s, dim, dx, a, b, t) {}
    } else {
      RunKeeps(dim, dx, a, b, starts, top, order[..|order| - 1]);
      StepKeeps(ParRun(Initial(dim, starts), dim, dx, a, b, order[..|order| - 1]),
                dim, dx, a, b, starts, top, order[|order| - 1]);
    }
  }

  // ---------- the result after all joins ----------

  ghost predicate AllDone(s: Par, dx: nat) {
    forall t :: 0 <= t < |s.ws| ==> s.ws[t].i >= s.ws[t].lo + dx
  }

  /** Thread count and dimension as in main: dx = dim / threads. */
  ghost function Result(dim: nat, threads: nat, a: Entries, b: Entries, order: seq<nat>): Par
    requires threads > 0
  {
    ParRun(Initial(dim, Starts(dim / threads, threads)), dim, dim / threads, a, b, order)
  }

  lemma RowHasOwner(dim: nat, threads: nat, r: nat)
    requires threads > 0 && r < threads * (dim / threads)
    ensures var dx := dim / threads; dx > 0 && r / dx < threads
    ensures var dx := dim / threads; Starts(dx, threads)[r / dx] <= r < Starts(dx, threads)[r / dx] + dx
  {
    var dx := dim / threads;
    assert dx > 0;
    assert r == r / dx * dx + r % dx;
    if r / dx >= threads { MulMono(threads, r / dx, dx); }
    StartsAt(dx, threads, r / dx);
  }

  lemma RunResult(dim: nat, threads: nat, a: Entries, b: Entries, order: seq<nat>)
    requires threads > 0
    ensures var dx := dim / threads;
            && threads * dx <= dim
            && ParInv(Result(dim, threads, a, b, order), dim, dx, a, b, Starts(dx, threads), threads * dx)
  {
    var dx := dim / threads;
    StartsDisjoint(dx, threads);
    forall t | 0 <= t < threads ensures Starts(dx, threads)[t] + dx <= threads * dx <= dim {
      BandsFit(dim, threads, t);
    }
    BandsFit(dim, threads, 0);
    RunKeeps(dim, dx, a, b, Starts(dx, threads), threads * dx, order);
  }

  lemma CellOfBand(s: Par, dim: nat, dx: nat, a: Entries, b: Entries, t: nat, r: nat, q: nat)
    requires Square(s.c, dim) && t < |s.ws| && BandOk(s, dim, dx, a, b, t) && s.ws[t].i >= s.ws[t].lo + dx
    requires s.ws[t].lo <= r < s.ws[t].lo + dx && r < dim && q < dim
    ensures s.c[r][q] == Terms(a, b, r, q, dim)
  {
  }

  /** The first top rows are those of a * b and the others are zero. */
  ghost predicate RowsOfProduct(c: seq<seq<int>>, dim: nat, top: nat, a: Entries, b: Entries)
    requires Square(c, dim)
  {
    forall r: nat, q: nat :: r < dim && q < dim ==> c[r][q] == if r < top then Terms(a, b, r, q, dim) else 0
  }

  lemma BandsCover(s: Par, dim: nat, dx: nat, a: Entries, b: Entries, starts: seq<nat>, t: nat, r: nat, q: nat)
    requires t < |starts| && starts[t] <= r < starts[t] + dx && r < dim && q < dim
    requires Fits(s, dim, dx, starts) && AllDone(s, dx) && BandOk(s, dim, dx, a, b, t)
    ensures s.c[r][q] == Terms(a, b, r, q, dim)
  {
    CellOfBand(s, dim, dx, a, b, t, r, q);
  }

  lemma CoveredRows(s: Par, dim: nat, threads: nat, a: Entries, b: Entries)
    requires threads > 0 && AllDone(s, dim / threads)
    requires ParInv(s, dim, dim / threads, a, b, Starts(dim / threads, threads), threads * (dim / threads))
    ensures RowsOfProduct(s.c, dim, threads * (dim / threads), a, b)
  {
    var top := threads * (dim / threads);
    forall r: nat, q: nat | r < dim && q < dim
      ensures s.c[r][q] == if r < top then Terms(a, b, r, q, dim) else 0
    {
      if r < top {
        RowHasOwner(dim, threads, r);
        BandsCover(s, dim, dim / threads, a, b, Starts(dim / threads, threads), r / (dim / threads), r, q);
      }
    }
  }

  /** For every thread count and every interleaving that lets all threads
      finish: the first threads * (dim / threads) rows are those of a * b and
      the others keep their zeros. */
  lemma BandsComputed(dim: nat, threads: nat, a: Entries, b: Entries, order: seq<nat>)
    requires threads > 0
    requires AllDone(Result(dim, threads, a, b, order), dim / threads)
    ensures Square(Result(dim, threads, a, b, order).c, dim)
    ensures RowsOfProduct(Result(dim, threads, a, b, order).c, dim, threads * (dim / threads), a, b)
  {
    RunResult(dim, threads, a, b, order);
    CoveredRows(Result(dim, threads, a, b, order), dim, threads, a, b);
  }

  // ---------- how many turns a thread needs ----------

  /** Turns for one row: dim + 1 for each column and one to leave the row. */
  function RowTurns(dim: nat): nat {
    dim * (dim + 1) + 1
  }

  function Progress(w: Worker, dim: nat): int {
    (w.i - w.lo) * RowTurns(dim) + w.j * (dim + 1) + w.k
  }

  ghost predicate Sound(w: Worker, dim: nat, dx: nat) {
    && w.lo <= w.i <= w.lo + dx && w.j <= dim && w.k <= dim
    && (w.i == w.lo + dx ==> w.j == 0 && w.k == 0) && (w.j == dim ==> w.k == 0)
  }

  lemma TurnAdvances(w: Worker, dim: nat, dx: nat, a: Entries, b: Entries)
    requires Sound(w, dim, dx) && w.i < w.lo + dx
    ensures Sound(WorkerStep(w, dim, dx, a, b), dim, dx)
    ensures Progress(WorkerStep(w, dim, dx, a, b), dim) == Progress(w, dim) + 1
  {
    assert (w.i + 1 - w.lo) * RowTurns(dim) == (w.i - w.lo) * RowTurns(dim) + RowTurns(dim);
    assert (w.j + 1) * (dim + 1) == w.j * (dim + 1) + dim + 1;
  }

  lemma ProgressBound(w: Worker, dim: nat, dx: nat)
    requires Sound(w, dim, dx)
    ensures Progress(w, dim) <= dx * RowTurns(dim)
    ensures Progress(w, dim) == dx * RowTurns(dim) <==> w.i == w.lo + dx
  {
    MulMono(w.i - w.lo, dx, RowTurns(dim));
    MulMono(w.j, dim, dim + 1);
    if w.i < w.lo + dx {
      MulMono(w.i + 1 - w.lo, dx, RowTurns(dim));
      if w.j < dim { MulMono(w.j + 1, dim, dim + 1); }
    }
  }

  /** After any schedule a thread's progress is its number of turns, capped at
      the work of its band. */
  lemma {:induction false} TurnsAreProgress(dim: nat, dx: nat, a: Entries, b: Entries, starts: seq<nat>,
                                            order: seq<nat>, t: nat)
    requires t < |starts|
    ensures var s := ParRun(Initial(dim, starts), dim, dx, a, b, order);
            && |s.ws| == |starts| && Sound(s.ws[t], dim, dx)
            && Progress(s.ws[t], dim) ==
               if multiset(order)[t] < dx * RowTurns(dim) then multiset(order)[t] else dx * RowTurns(dim)
  {
    if order == [] {
      ProgressBound(Initial(dim, starts).ws[t], dim, dx);
    } else {
      var most, last := order[..|order| - 1], order[|order| - 1];
      assert order == most + [last];
      TurnsAreProgress(dim, dx, a, b, starts, most, t);
      var w := ParRun(Initial(dim, starts), dim, dx, a, b, most).ws[t];
      ProgressBound(w, dim, dx);
      if last == t && w.i < w.lo + dx {
        TurnAdvances(w, dim, dx, a, b);
        ProgressBound(WorkerStep(w, dim, dx, a, b), dim, dx);
      }
    }
  }

  /** All threads are joined exactly when each had enough turns, in whatever
      order the turns came. */
  lemma DoneExactly(dim: nat, threads: nat, a: Entries, b: Entries, order: seq<nat>)
    requires threads > 0
    ensures AllDone(Result(dim, threads, a, b, order), dim / threads) <==>
            forall t: nat :: t < threads ==> multiset(order)[t] >= (dim / threads) * RowTurns(dim)
  {
    var dx, starts, s := dim / threads, Starts(dim / threads, threads), Result(dim, threads, a, b, order);
    forall t: nat | t < threads
      ensures |s.ws| == threads && (s.ws[t].i >= s.ws[t].lo + dx <==> multiset(order)[t] >= dx * RowTurns(dim))
    {
      TurnsAreProgress(dim, dx, a, b, starts, order, t);
      ProgressBound(s.ws[t], dim, dx);
    }
    TurnsAreProgress(dim, dx, a, b, starts, order, 0);
  }

  ghost predicate IsProduct(c: seq<seq<int>>, dim: nat, a: Entries, b: Entries) {
    Square(c, dim) && RowsOfProduct(c, dim, dim, a, b)
  }

  /** The rows of a * b from top on are all zero. */
  ghost predicate ZeroFrom(dim: nat, top: nat, a: Entries, b: Entries) {
    forall r: nat, q: nat :: top <= r < dim && q < dim ==> Terms(a, b, r, q, dim) == 0
  }

  lemma ZeroRowsLeft(c: seq<seq<int>>, dim: nat, top: nat, a: Entries, b: Entries)
    requires Square(c, dim) && RowsOfProduct(c, dim, top, a, b) && top <= dim
    ensures IsProduct(c, dim, a, b) <==> ZeroFrom(dim, top, a, b)
  {
    if IsProduct(c, dim, a, b) {
      forall r: nat, q: nat | top <= r < dim && q < dim ensures Terms(a, b, r, q, dim) == 0 {
        assert c[r][q] == Terms(a, b, r, q, dim);
      }
    }
  }

  /** The full product is computed exactly when the thread count divides dim or
      the rows left out of it are zero anyway. */
  lemma ProductExactly(dim: nat, threads: nat, a: Entries, b: Entries, order: seq<nat>)
    requires threads > 0 && AllDone(Result(dim, threads, a, b, order), dim / threads)
    ensures IsProduct(Result(dim, threads, a, b, order).c, dim, a, b) <==>
            dim % threads == 0 || ZeroFrom(dim, threads * (dim / threads), a, b)
  {
    var top := threads * (dim / threads);
    assert dim == top + dim % threads;
    BandsComputed(dim, threads, a, b, order);
    ZeroRowsLeft(Result(dim, threads, a, b, order).c, dim, top, a, b);
  }

  // ---------- what the entries are ----------

  /** One at (u, v) and zero elsewhere. */
  ghost predicate IsUnit(b: Entries, u: nat, v: nat) {
    forall x: nat, y: nat :: b(x, y) == if x == u && y == v then 1 else 0
  }

  ghost predicate IsCombination(b: Entries, s: int, b1: Entries, b2: Entries) {
    forall x: nat, y: nat :: b(x, y) == s * b1(x, y) + b2(x, y)
  }

  lemma {:induction false} TermsUnitRight(a: Entries, b: Entries, u: nat, v: nat, r: nat, q: nat, k: nat)
    requires IsUnit(b, u, v)
    ensures Terms(a, b, r, q, k) == if u < k && q == v then a(r, u) else 0
  {
    if k == 0 {
    } else {
      TermsUnitRight(a, b, u, v, r, q, k - 1);
      assert b(k - 1, q) == if k - 1 == u && q == v then 1 else 0;
    }
  }

  lemma {:induction false} TermsUnitLeft(a: Entries, b: Entries, u: nat, v: nat, r: nat, q: nat, k: nat)
    requires IsUnit(a, u, v)
    ensures Terms(a, b, r, q, k) == if v < k && r == u then b(v, q) else 0
  {
    if k == 0 {
    } else {
      TermsUnitLeft(a, b, u, v, r, q, k - 1);
      assert a(r, k - 1) == if r == u && k - 1 == v then 1 else 0;
    }
  }

  lemma Spread(x: int, s: int, y: int, z: int)
    ensures x * (s * y + z) == s * (x * y) + x * z && (s * y + z) * x == s * (y * x) + z * x
  {
  }

  lemma {:induction false} TermsLinearRight(a: Entries, b: Entries, s: int, b1: Entries, b2: Entries,
                                            r: nat, q: nat, k: nat)
    requires IsCombination(b, s, b1, b2)
    ensures Terms(a, b, r, q, k) == s * Terms(a, b1, r, q, k) + Terms(a, b2, r, q, k)
  {
    if k == 0 {
    } else {
      TermsLinearRight(a, b, s, b1, b2, r, q, k - 1);
      Spread(a(r, k - 1), s, b1(k - 1, q), b2(k - 1, q));
      Spread(s, 1, Terms(a, b1, r, q, k - 1), a(r, k - 1) * b1(k - 1, q));
    }
  }

  lemma {:induction false} TermsLinearLeft(a: Entries, s: int, a1: Entries, a2: Entries, b: Entries,
                                           r: nat, q: nat, k: nat)
    requires IsCombination(a, s, a1, a2)
    ensures Terms(a, b, r, q, k) == s * Terms(a1, b, r, q, k) + Terms(a2, b, r, q, k)
  {
    if k == 0 {
    } else {
      TermsLinearLeft(a, s, a1, a2, b, r, q, k - 1);
      Spread(b(k - 1, q), s, a1(r, k - 1), a2(r, k - 1));
      Spread(s, 1, Terms(a1, b, r, q, k - 1), a1(r, k - 1) * b(k - 1, q));
    }
  }

  lemma {:induction false} TermsOfOnes(a: Entries, b: Entries, r: nat, q: nat, k: nat)
    requires forall x: nat, y: nat :: a(x, y) == 1 && b(x, y) == 1
    ensures Terms(a, b, r, q, k) == k
  {
    if k == 0 {
    } else {
      TermsOfOnes(a, b, r, q, k - 1);
    }
  }

  /** Cell (r, q) of c once all threads have ended. */
  ghost function Final(dim: nat, threads: nat, a: Entries, b: Entries, order: seq<nat>, r: nat, q: nat): int
    requires threads > 0 && AllDone(Result(dim, threads, a, b, order), dim / threads)
    requires r < threads * (dim / threads) && q < dim
  {
    BandsComputed(dim, threads, a, b, order);
    BandsFit(dim, threads, 0);
    Result(dim, threads, a, b, order).c[r][q]
  }

  lemma FinalTerms(dim: nat, threads: nat, a: Entries, b: Entries, order: seq<nat>, r: nat, q: nat)
    requires threads > 0 && AllDone(Result(dim, threads, a, b, order), dim / threads)
    requires r < threads * (dim / threads) && q < dim
    ensures Final(dim, threads, a, b, order, r, q) == Terms(a, b, r, q, dim)
  {
    BandsComputed(dim, threads, a, b, order);
    BandsFit(dim, threads, 0);
  }

  /** Times a unit matrix: column v of c is column u of a and the others are
      zero. */
  lemma UnitOnTheRight(dim: nat, threads: nat, a: Entries, b: Entries, order: seq<nat>, u: nat, v: nat, r: nat, q: nat)
    requires threads > 0 && AllDone(Result(dim, threads, a, b, order), dim / threads)
    requires r < threads * (dim / threads) && q < dim && u < dim && IsUnit(b, u, v)
    ensures Final(dim, threads, a, b, order, r, q) == if q == v then a(r, u) else 0
  {
    FinalTerms(dim, threads, a, b, order, r, q);
    TermsUnitRight(a, b, u, v, r, q, dim);
  }

  /** A unit matrix times b: row u of c is row v of b and the others are zero. */
  lemma UnitOnTheLeft(dim: nat, threads: nat, a: Entries, b: Entries, order: seq<nat>, u: nat, v: nat, r: nat, q: nat)
    requires threads > 0 && AllDone(Result(dim, threads, a, b, order), dim / threads)
    requires r < threads * (dim / threads) && q < dim && v < dim && IsUnit(a, u, v)
    ensures Final(dim, threads, a, b, order, r, q) == if r == u then b(v, q) else 0
  {
    FinalTerms(dim, threads, a, b, order, r, q);
    TermsUnitLeft(a, b, u, v, r, q, dim);
  }

  /** c is linear in b, whatever the three interleavings. */
  lemma LinearInRight(dim: nat, threads: nat, a: Entries, b: Entries, s: int, b1: Entries, b2: Entries,
                      order: seq<nat>, order1: seq<nat>, order2: seq<nat>, r: nat, q: nat)
    requires threads > 0 && IsCombination(b, s, b1, b2) && r < threads * (dim / threads) && q < dim
    requires AllDone(Result(dim, threads, a, b, order), dim / threads)
    requires AllDone(Result(dim, threads, a, b1, order1), dim / threads)
    requires AllDone(Result(dim, threads, a, b2, order2), dim / threads)
    ensures Final(dim, threads, a, b, order, r, q) ==
            s * Final(dim, threads, a, b1, order1, r, q) + Final(dim, threads, a, b2, order2, r, q)
  {
    FinalTerms(dim, threads, a, b, order, r, q);
    FinalTerms(dim, threads, a, b1, order1, r, q);
    FinalTerms(dim, threads, a, b2, order2, r, q);
    TermsLinearRight(a, b, s, b1, b2, r, q, dim);
  }

  /** And in a. */
  lemma LinearInLeft(dim: nat, threads: nat, a: Entries, s: int, a1: Entries, a2: Entries, b: Entries,
                     order: seq<nat>, order1: seq<nat>, order2: seq<nat>, r: nat, q: nat)
    requires threads > 0 && IsCombination(a, s, a1, a2) && r < threads * (dim / threads) && q < dim
    requires AllDone(Result(dim, threads, a, b, order), dim / threads)
    requires AllDone(Result(dim, threads, a1, b, order1), dim / threads)
    requires AllDone(Result(dim, threads, a2, b, order2), dim / threads)
    ensures Final(dim, threads, a, b, order, r, q) ==
            s * Final(dim, threads, a1, b, order1, r, q) + Final(dim, threads, a2, b, order2, r, q)
  {
    FinalTerms(dim, threads, a, b, order, r, q);
    FinalTerms(dim, threads, a1, b, order1, r, q);
    FinalTerms(dim, threads, a2, b, order2, r, q);
    TermsLinearLeft(a, s, a1, a2, b, r, q, dim);
  }

  /** The program's own input: with ones in a and b every covered cell is dim. */
  lemma OnesGiveDim(dim: nat, threads: nat, a: Entries, b: Entries, order: seq<nat>, r: nat, q: nat)
    requires threads > 0 && AllDone(Result(dim, threads, a, b, order), dim / threads)
    requires r < threads * (dim / threads) && q < dim
    requires forall x: nat, y: nat :: a(x, y) == 1 && b(x, y) == 1
    ensures Final(dim, threads, a, b, order, r, q) == dim
  {
    FinalTerms(dim, threads, a, b, order, r, q);
    TermsOfOnes(a, b, r, q, dim);
  }

  // ---------- Calculate as a loop ----------

  ghost function Of(a: array2<int>): (f: Entries)
    reads a
    ensures forall r: nat, q: nat :: r < a.Length0 && q < a.Length1 ==> f(r, q) == a[r, q]
  {
    var rows := seq(a.Length0, r requires 0 <= r < a.Length0 reads a =>
                  seq(a.Length1, q requires 0 <= q < a.Length1 reads a => a[r, q]));
    (r: nat, q: nat) => if r < |rows| && q < |rows[r]| then rows[r][q] else 0
  }

  /** The innermost loop. */
  method Inner(a: array2<int>, b: array2<int>, i: nat, j: nat) returns (temp: int)
    requires a.Length0 == a.Length1 == b.Length0 == b.Length1 && i < a.Length0 && j < a.Length0
    ensures temp == Terms(Of(a), Of(b), i, j, a.Length0)
  {
    var dim := a.Length0;
    temp := 0;
    for k := 0 to dim
      invariant temp == Terms(Of(a), Of(b), i, j, k)
    {
      temp := temp + a[i, k] * b[k, j];
    }
  }

  /** The body of one thread on the shared array, run on its own. */
  method Calculate(c: array2<int>, a: array2<int>, b: array2<int>, x: nat, dx: nat)
    requires c.Length0 == c.Length1 == a.Length0 == a.Length1 == b.Length0 == b.Length1
    requires c != a && c != b && x + dx <= c.Length0
    modifies c
    ensures forall r: nat, q: nat :: r < c.Length0 && q < c.Length1 ==>
              c[r, q] == if x <= r < x + dx then old(Terms(Of(a), Of(b), r, q, c.Length0)) else old(c[r, q])
  {
    var dim := c.Length0;
    ghost var fa, fb := Of(a), Of(b);
    var i := x;
    while i < x + dx
      invariant x <= i <= x + dx
      invariant forall r: nat, q: nat :: r < dim && q < dim ==>
                  c[r, q] == if x <= r < i then Terms(fa, fb, r, q, dim) else old(c[r, q])
    {
      var j := 0;
      while j < dim
        invariant 0 <= j <= dim
        invariant forall r: nat, q: nat :: r < dim && q < dim ==>
                    c[r, q] == if x <= r < i || (r == i && q < j) then Terms(fa, fb, r, q, dim) else old(c[r, q])
      {
        c[i, j] := Inner(a, b, i, j);
        j := j + 1;
      }
      i := i + 1;
    }
  }
}
