/** One block of the reduction kernel: the halving loop over shared memory,
    with the threads of a halving step interleaved instruction by instruction. */
module BlockSum {

  function Sum(s: seq<real>): real {
    if s == [] then 0.0 else Sum(s[..|s| - 1]) + s[|s| - 1]
  }

  lemma SumConcat(a: seq<real>, b: seq<real>)
    ensures Sum(a + b) == Sum(a) + Sum(b)
    decreases |b|
  {
    if b == [] {
      assert a + b == a;
    } else {
      assert (a + b)[..|a + b| - 1] == a + b[..|b| - 1];
      SumConcat(a, b[..|b| - 1]);
    }
  }

  lemma SumSnoc(s: seq<real>, x: real)
    ensures Sum(s + [x]) == Sum(s) + x
  {
    assert (s + [x])[..|s|] == s;
  }

  lemma {:induction false} SumPairs(a: seq<real>, b: seq<real>, c: seq<real>)
    requires |a| == |b| == |c| && forall i :: 0 <= i < |a| ==> c[i] == a[i] + b[i]
    ensures Sum(c) == Sum(a) + Sum(b)
  {
    if |a| == 0 {
    } else {
      SumPairs(a[..|a| - 1], b[..|b| - 1], c[..|c| - 1]);
    }
  }

  lemma {:induction false} SumZeros(s: seq<real>)
    requires forall i :: 0 <= i < |s| ==> s[i] == 0.0
    ensures Sum(s) == 0.0
  {
    if s == [] {
    } else {
      SumZeros(s[..|s| - 1]);
    }
  }

  // ---------- one halving step, instruction by instruction ----------

  /** sdata and the two registers of each thread; pc counts how many of the
      three instructions of `sdata[t] += sdata[t + s]` thread t has done. */
  datatype Shared = Shared(data: seq<real>, own: seq<real>, other: seq<real>, pc: seq<nat>)
  {
    predicate Valid(s: nat) {
      2 * s <= |data| && |own| == |other| == |pc| == s
    }
  }

  /** Thread t does its next instruction, if it has one left. */
  function Advance(h: Shared, s: nat, t: nat): (r: Shared)
    requires h.Valid(s) && t < s
    ensures r.Valid(s) && |r.data| == |h.data|
  {
    if h.pc[t] == 0 then h.(own := h.own[t := h.data[t]], pc := h.pc[t := 1])
    else if h.pc[t] == 1 then h.(other := h.other[t := h.data[t + s]], pc := h.pc[t := 2])
    else if h.pc[t] == 2 then h.(data := h.data[t := h.own[t] + h.other[t]], pc := h.pc[t := 3])
    else h
  }

  function Interleave(h: Shared, s: nat, order: seq<nat>): (r: Shared)
    requires h.Valid(s) && forall i :: 0 <= i < |order| ==> order[i] < s
    ensures r.Valid(s) && |r.data| == |h.data|
  {
    if order == [] then h else
      Advance(Interleave(h, s, order[..|order| - 1]), s, order[|order| - 1])
  }

  function Start(d: seq<real>, s: nat): (h: Shared)
    requires 2 * s <= |d|
    ensures h.Valid(s)
  {
    Shared(d, seq(s, _ => 0.0), seq(s, _ => 0.0), seq(s, _ => 0))
  }

  /** The barrier: `order` gives every active thread its three turns. */
  ghost predicate Completes(s: nat, order: seq<nat>) {
    && (forall i :: 0 <= i < |order| ==> order[i] < s)
    && forall t: nat :: t < s ==> multiset(order)[t] >= 3
  }

  lemma {:induction false} TurnsTaken(d: seq<real>, s: nat, order: seq<nat>, t: nat)
    requires 2 * s <= |d| && t < s && forall i :: 0 <= i < |order| ==> order[i] < s
    ensures Interleave(Start(d, s), s, order).pc[t] == if multiset(order)[t] < 3 then multiset(order)[t] else 3
  {
    if order == [] {
    } else {
      var pre := order[..|order| - 1];
      assert order == pre + [order[|order| - 1]];
      TurnsTaken(d, s, pre, t);
    }
  }

  ghost predicate Finished(h: Shared, s: nat)
    requires h.Valid(s)
  {
    forall t: nat :: t < s ==> h.pc[t] == 3
  }

  /** All active threads have finished exactly when each had three turns. */
  lemma FinishedExactly(d: seq<real>, s: nat, order: seq<nat>)
    requires 2 * s <= |d| && forall i :: 0 <= i < |order| ==> order[i] < s
    ensures Finished(Interleave(Start(d, s), s, order), s) <==> forall t: nat :: t < s ==> multiset(order)[t] >= 3
    ensures Completes(s, order) <==> forall t: nat :: t < s ==> multiset(order)[t] >= 3
  {
    forall t: nat | t < s ensures Interleave(Start(d, s), s, order).pc[t] == 3 <==> multiset(order)[t] >= 3 {
      TurnsTaken(d, s, order, t);
    }
  }

  function Halved(d: seq<real>, s: nat): (r: seq<real>)
    requires 2 * s <= |d|
    ensures |r| == |d|
    ensures forall i :: 0 <= i < |d| ==> r[i] == if i < s then d[i] + d[i + s] else d[i]
  {
    seq(|d|, i requires 0 <= i < |d| => if i < s then d[i] + d[i + s] else d[i])
  }

  ghost predicate CellOk(d: seq<real>, s: nat, h: Shared, t: nat)
    requires h.Valid(s) && |h.data| == |d| && t < s
  {
    && h.pc[t] <= 3
    && h.data[t] == (if h.pc[t] == 3 then d[t] + d[t + s] else d[t])
    && (1 <= h.pc[t] ==> h.own[t] == d[t])
    && (2 <= h.pc[t] ==> h.other[t] == d[t + s])
  }

  ghost predicate CellsOk(d: seq<real>, s: nat, h: Shared) {
    && h.Valid(s) && |h.data| == |d|
    && (forall i :: s <= i < |d| ==> h.data[i] == d[i])
    && (forall t :: 0 <= t < s ==> CellOk(d, s, h, t))
  }

  lemma AdvanceCells(d: seq<real>, s: nat, h: Shared, u: nat)
    requires CellsOk(d, s, h) && u < s
    ensures CellsOk(d, s, Advance(h, s, u))
  {
    assert CellOk(d, s, h, u);
    forall t | 0 <= t < s ensures CellOk(d, s, Advance(h, s, u), t) {
      assert CellOk(d, s, h, t);
    }
  }

  /** However the threads interleave, a thread reads cells no other thread
      writes, so each cell holds its old or its new value. */
  lemma {:induction false} InterleaveCells(d: seq<real>, s: nat, order: seq<nat>)
    requires 2 * s <= |d| && forall i :: 0 <= i < |order| ==> order[i] < s
    ensures CellsOk(d, s, Interleave(Start(d, s), s, order))
  {
    if order == [] {
    } else {
      InterleaveCells(d, s, order[..|order| - 1]);
      AdvanceCells(d, s, Interleave(Start(d, s), s, order[..|order| - 1]), order[|order| - 1]);
    }
  }

  lemma StepIsHalved(d: seq<real>, s: nat, order: seq<nat>)
    requires 2 * s <= |d| && Completes(s, order)
    ensures Interleave(Start(d, s), s, order).data == Halved(d, s)
  {
    InterleaveCells(d, s, order);
    var h := Interleave(Start(d, s), s, order);
    forall t | 0 <= t < s ensures h.data[t] == d[t] + d[t + s] {
      TurnsTaken(d, s, order, t);
      assert CellOk(d, s, h, t);
    }
  }

  lemma HalvedSum(d: seq<real>, s: nat)
    requires 2 * s <= |d|
    ensures Sum(Halved(d, s)[..s]) == Sum(d[..2 * s])
  {
    SumPairs(d[..s], d[s..2 * s], Halved(d, s)[..s]);
    SumConcat(d[..s], d[s..2 * s]);
    assert d[..s] + d[s..2 * s] == d[..2 * s];
  }

  // ---------- the whole loop ----------

  predicate PowerOfTwo(n: nat) {
    n == 1 || (n > 1 && n % 2 == 0 && PowerOfTwo(n / 2))
  }

  /** One turn of thread t. */
  method Turn(sdata: array<real>, own: array<real>, other: array<real>, pc: array<nat>, s: nat, t: nat)
    requires 2 * s <= sdata.Length && own.Length == other.Length == pc.Length == s && t < s
    requires sdata != own && sdata != other && own != other
    modifies sdata, own, other, pc
    ensures Shared(sdata[..], own[..], other[..], pc[..]) ==
            Advance(old(Shared(sdata[..], own[..], other[..], pc[..])), s, t)
  {
    if pc[t] == 0 { own[t] := sdata[t]; pc[t] := 1; }
    else if pc[t] == 1 { other[t] := sdata[t + s]; pc[t] := 2; }
    else if pc[t] == 2 { sdata[t] := own[t] + other[t]; pc[t] := 3; }
  }

  method HalvingStep(sdata: array<real>, s: nat, order: seq<nat>)
    requires 2 * s <= sdata.Length && forall i :: 0 <= i < |order| ==> order[i] < s
    modifies sdata
    ensures sdata[..] == Interleave(Start(old(sdata[..]), s), s, order).data
  {
    var own, other, pc := new real[s](_ => 0.0), new real[s](_ => 0.0), new nat[s](_ => 0);
    ghost var h0 := Start(sdata[..], s);
    assert own[..] == h0.own && other[..] == h0.other && pc[..] == h0.pc;
    for k := 0 to |order|
      invariant Shared(sdata[..], own[..], other[..], pc[..]) == Interleave(h0, s, order[..k])
    {
      assert order[..k + 1][..k] == order[..k];
      Turn(sdata, own, other, pc, s, order[k]);
    }
    assert order[..|order|] == order;
  }

  /** The halving loop; `order(s)` is how the s active threads interleave in
      the step with stride s. */
  method ReduceShared(sdata: array<real>, order: nat -> seq<nat>)
    requires PowerOfTwo(sdata.Length)
    requires forall s: nat :: 1 <= s < sdata.Length ==> Completes(s, order(s))
    modifies sdata
    ensures sdata[0] == Sum(old(sdata[..]))
  {
    var s := sdata.Length / 2;
    ghost var width := sdata.Length;
    assert sdata[..sdata.Length] == sdata[..];
    while s > 0
      invariant 1 <= width <= sdata.Length && PowerOfTwo(width) && s == width / 2
      invariant Sum(sdata[..width]) == Sum(old(sdata[..]))
      decreases s
    {
      ghost var d := sdata[..];
      HalvingStep(sdata, s, order(s));
      StepIsHalved(d, s, order(s));
      HalvedSum(d, s);
      assert d[..width] == d[..2 * s] && sdata[..s] == sdata[..][..s];
      width, s := s, s / 2;
    }
    assert width == 1 && sdata[..1] == [sdata[0]];
    assert Sum([sdata[0]]) == Sum([]) + sdata[0];
  }
}
