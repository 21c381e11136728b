/** The multi-pass reduction: after the first pass every launch reads and
    writes the same global array. Which block schedules are harmless, exactly,
    and what the host loop then returns. */
module Reduction {
  import opened BlockSum

  /** Threads per block. */
  const THREADS: nat := 256

  function Blocks(n: nat): nat {
    (n + THREADS - 1) / THREADS
  }

  function Lo(b: nat): nat { THREADS * b }

  function Hi(n: nat, b: nat): (h: nat)
    requires b < Blocks(n)
    ensures Lo(b) < h <= n && h <= Lo(b) + THREADS
  {
    if Lo(b) + THREADS <= n then Lo(b) + THREADS else n
  }

  /** What block b should store. */
  function Total(d: seq<real>, n: nat, b: nat): real
    requires n <= |d| && b < Blocks(n)
  {
    Sum(d[Lo(b)..Hi(n, b)])
  }

  // ---------- one launch on a shared array ----------

  /** Load(i): the thread of cell i copies it into its block's shared memory;
      Store(b): thread 0 of block b, past the barriers, writes cell b. */
  datatype GEvent = Load(i: nat) | Store(b: nat)

  ghost predicate LoadedAll(n: nat, past: seq<GEvent>, b: nat) {
    forall i: nat :: i < n && Lo(b) <= i < Lo(b) + THREADS ==> Load(i) in past
  }

  ghost predicate Enabled(n: nat, past: seq<GEvent>, e: GEvent) {
    match e
    case Load(i) => i < n && e !in past
    case Store(b) => b < Blocks(n) && e !in past && LoadedAll(n, past, b)
  }

  /** The order of events in one launch over n cells: each happens at most
      once, and a block stores only after all its threads have loaded. */
  ghost predicate Legal(n: nat, order: seq<GEvent>) {
    forall k :: 0 <= k < |order| ==> Enabled(n, order[..k], order[k])
  }

  ghost predicate Complete(n: nat, order: seq<GEvent>) {
    forall b: nat :: b < Blocks(n) ==> Store(b) in order
  }

  /** No cell is overwritten before it has been read. */
  ghost predicate Safe(order: seq<GEvent>) {
    forall k :: 0 <= k < |order| && order[k].Store? ==> Load(order[k].b) in order[..k]
  }

  datatype Global = Global(data: seq<real>, shared: seq<real>)

  function GStep(g: Global, n: nat, e: GEvent): (r: Global)
    requires n <= |g.data| && |g.shared| == n
    ensures |r.data| == |g.data| && |r.shared| == n
  {
    match e
    case Load(i) => if i < n then g.(shared := g.shared[i := g.data[i]]) else g
    case Store(b) =>
      if b < Blocks(n) && b < |g.data| then g.(data := g.data[b := Total(g.shared, n, b)]) else g
  }

  function Launch(n: nat, d: seq<real>, order: seq<GEvent>): (r: Global)
    requires n <= |d|
    ensures |r.data| == |d| && |r.shared| == n
  {
    if order == [] then Global(d, seq(n, _ => 0.0)) else
      GStep(Launch(n, d, order[..|order| - 1]), n, order[|order| - 1])
  }

  lemma LegalPrefix(n: nat, order: seq<GEvent>, k: nat)
    requires Legal(n, order) && k <= |order|
    ensures Legal(n, order[..k])
    ensures Safe(order) ==> Safe(order[..k])
    ensures forall e :: e in order[..k] ==> e in order
  {
    forall j | 0 <= j < k ensures order[..k][..j] == order[..j] {}
  }

  // ---------- a safe launch computes the block totals ----------

  ghost predicate SafeState(n: nat, d: seq<real>, past: seq<GEvent>, g: Global) {
    && n <= |d| == |g.data| && |g.shared| == n
    && (forall i: nat :: i < n && Load(i) in past ==> g.shared[i] == d[i])
    && (forall j: nat :: j < |d| ==>
          g.data[j] == if j < Blocks(n) && Store(j) in past then Total(d, n, j) else d[j])
  }

  lemma SafeLoad(n: nat, d: seq<real>, past: seq<GEvent>, g: Global, i: nat)
    requires SafeState(n, d, past, g) && i < n && Store(i) !in past
    ensures SafeState(n, d, past + [Load(i)], GStep(g, n, Load(i)))
  {
  }

  lemma SafeStore(n: nat, d: seq<real>, past: seq<GEvent>, g: Global, b: nat)
    requires SafeState(n, d, past, g) && b < Blocks(n) && LoadedAll(n, past, b)
    ensures SafeState(n, d, past + [Store(b)], GStep(g, n, Store(b)))
  {
    assert g.shared[Lo(b)..Hi(n, b)] == d[Lo(b)..Hi(n, b)];
  }

  /** A cell that is loaded next has not been stored yet. */
  lemma NotYetStored(n: nat, order: seq<GEvent>, k: nat)
    requires Legal(n, order) && Safe(order) && k < |order| && order[k].Load?
    ensures Store(order[k].i) !in order[..k]
  {
    assert Enabled(n, order[..k], order[k]);
    forall q | 0 <= q < k && order[q].Store? ensures order[q] != Store(order[k].i) {
      assert Load(order[q].b) in order[..q] && order[..q] <= order[..k];
    }
  }

  lemma SafeNext(n: nat, d: seq<real>, order: seq<GEvent>, k: nat, g: Global)
    requires Legal(n, order) && Safe(order) && k < |order| && SafeState(n, d, order[..k], g)
    ensures SafeState(n, d, order[..k] + [order[k]], GStep(g, n, order[k]))
  {
    assert Enabled(n, order[..k], order[k]);
    match order[k]
    case Load(i) =>
      NotYetStored(n, order, k);
      SafeLoad(n, d, order[..k], g, i);
    case Store(b) => SafeStore(n, d, order[..k], g, b);
  }

  lemma {:induction false} SafeLaunch(n: nat, d: seq<real>, order: seq<GEvent>)
    requires n <= |d| && Legal(n, order) && Safe(order)
    ensures SafeState(n, d, order, Launch(n, d, order))
    decreases |order|
  {
    if order == [] {
    } else {
      var k := |order| - 1;
      var pre, e := order[..k], order[k];
      assert order == pre + [e];
      LegalPrefix(n, order, k);
      SafeLaunch(n, d, pre);
      SafeNext(n, d, order, k, Launch(n, d, pre));
    }
  }

  /** The same cell by cell: cell b ends as the sum of the 256 cells from 256 * b
      on, or of those left, and a cell that belongs to no block as it was. */
  lemma SafeCells(n: nat, d: seq<real>, order: seq<GEvent>, b: nat)
    requires n <= |d| && Legal(n, order) && Complete(n, order) && Safe(order) && b < |d|
    ensures Launch(n, d, order).data[b] ==
            if 256 * b >= n then d[b] else Sum(d[256 * b..if 256 * b + 256 <= n then 256 * b + 256 else n])
  {
    SafeLaunch(n, d, order);
  }

  // ---------- the totals add up ----------

  function Totals(d: seq<real>, n: nat, g: nat): (r: seq<real>)
    requires n <= |d| && g <= Blocks(n)
    ensures |r| == g && forall b :: 0 <= b < g ==> r[b] == Total(d, n, b)
  {
    seq(g, b requires 0 <= b < g => Total(d, n, b))
  }

  /** How many cells the first g blocks cover. */
  function Covered(n: nat, g: nat): (c: nat)
    requires g <= Blocks(n)
    ensures c <= n && (g == Blocks(n) ==> c == n)
  {
    if g == 0 then 0 else Hi(n, g - 1)
  }

  lemma SumSlices(d: seq<real>, lo: nat, hi: nat)
    requires lo <= hi <= |d|
    ensures Sum(d[..hi]) == Sum(d[..lo]) + Sum(d[lo..hi])
  {
    SumConcat(d[..lo], d[lo..hi]);
    assert d[..lo] + d[lo..hi] == d[..hi];
  }

  lemma {:induction false} TotalsSum(d: seq<real>, n: nat, g: nat)
    requires n <= |d| && g <= Blocks(n)
    ensures Sum(Totals(d, n, g)) == Sum(d[..Covered(n, g)])
  {
    if g == 0 {
    } else {
      TotalsSum(d, n, g - 1);
      assert Totals(d, n, g) == Totals(d, n, g - 1) + [Total(d, n, g - 1)];
      SumSnoc(Totals(d, n, g - 1), Total(d, n, g - 1));
      var lo, hi := Lo(g - 1), Hi(n, g - 1);
      SumSlices(d, lo, hi);
      assert lo == Covered(n, g - 1);
    }
  }

  // ---------- an unsafe launch goes wrong on some input ----------

  ghost predicate Nonneg(s: seq<real>) {
    forall i :: 0 <= i < |s| ==> s[i] >= 0.0
  }

  lemma {:induction false} SumAtLeast(s: seq<real>, i: nat)
    requires Nonneg(s) && i < |s|
    ensures Sum(s) >= s[i]
    ensures Sum(s) >= 0.0
  {
    if |s| == 1 {
    } else {
      SumAtLeast(s[..|s| - 1], if i == |s| - 1 then 0 else i);
    }
  }

  lemma {:induction false} SumAtLeastTwo(s: seq<real>, i: nat, j: nat)
    requires Nonneg(s) && i < j < |s|
    ensures Sum(s) >= s[i] + s[j]
  {
    if j == |s| - 1 {
      SumAtLeast(s[..|s| - 1], i);
    } else {
      SumAtLeastTwo(s[..|s| - 1], i, j);
    }
  }

  ghost predicate StoredState(n: nat, past: seq<GEvent>, g: Global) {
    && n <= |g.data| && |g.shared| == n
    && Nonneg(g.data) && Nonneg(g.shared)
    && forall b: nat :: b < Blocks(n) && Store(b) in past ==> g.data[b] == Total(g.shared, n, b)
  }

  lemma StoredLoad(n: nat, past: seq<GEvent>, g: Global, i: nat)
    requires StoredState(n, past, g) && i < n
    requires forall b: nat :: b < Blocks(n) && Store(b) in past ==> !(Lo(b) <= i < Hi(n, b))
    requires forall b: nat :: b < Blocks(n) && Store(b) in past ==> b < |g.data|
    ensures StoredState(n, past + [Load(i)], GStep(g, n, Load(i)))
  {
    var g' := GStep(g, n, Load(i));
    forall b: nat | b < Blocks(n) && Store(b) in past + [Load(i)] ensures g'.data[b] == Total(g'.shared, n, b) {
      assert g'.shared[Lo(b)..Hi(n, b)] == g.shared[Lo(b)..Hi(n, b)];
    }
  }

  lemma StoredStore(n: nat, past: seq<GEvent>, g: Global, b: nat)
    requires StoredState(n, past, g) && b < Blocks(n)
    ensures StoredState(n, past + [Store(b)], GStep(g, n, Store(b)))
  {
    SumAtLeast(g.shared[Lo(b)..Hi(n, b)], 0);
  }

  lemma StoreAfterLoads(n: nat, order: seq<GEvent>, b: nat, i: nat)
    requires Legal(n, order) && Store(b) in order && i < n && Lo(b) <= i < Lo(b) + THREADS
    ensures Load(i) in order
  {
    var q :| 0 <= q < |order| && order[q] == Store(b);
    assert Enabled(n, order[..q], order[q]);
    assert Load(i) in order[..q];
  }

  /** Whatever the order, values stay nonnegative, and a stored cell holds the
      sum of what its block had loaded. */
  lemma {:induction false} StoredIsShared(n: nat, d: seq<real>, order: seq<GEvent>)
    requires n <= |d| && Nonneg(d) && Legal(n, order)
    ensures StoredState(n, order, Launch(n, d, order))
    decreases |order|
  {
    if order == [] {
    } else {
      var k := |order| - 1;
      var pre, e := order[..k], order[k];
      assert order == pre + [e];
      LegalPrefix(n, order, k);
      StoredIsShared(n, d, pre);
      assert Enabled(n, pre, e);
      match e
      case Load(i) =>
        forall b: nat | b < Blocks(n) && Store(b) in pre ensures !(Lo(b) <= i < Hi(n, b)) {
          if Lo(b) <= i < Hi(n, b) { StoreAfterLoads(n, pre, b, i); }
        }
        StoredLoad(n, pre, Launch(n, d, pre), i);
      case Store(b) => StoredStore(n, pre, Launch(n, d, pre), b);
    }
  }

  ghost predicate NewValue(past: seq<GEvent>, g: Global, c: nat, v: real) {
    && c < |g.data| && c < |g.shared|
    && Store(c) in past && g.data[c] == v && (Load(c) in past ==> g.shared[c] == v)
  }

  lemma NewValueKept(n: nat, past: seq<GEvent>, g: Global, e: GEvent, c: nat, v: real)
    requires n <= |g.data| && |g.shared| == n && NewValue(past, g, c, v) && Enabled(n, past, e)
    ensures NewValue(past + [e], GStep(g, n, e), c, v)
  {
  }

  /** What happens after one event more. */
  lemma LaunchSnoc(n: nat, d: seq<real>, past: seq<GEvent>, e: GEvent)
    requires n <= |d|
    ensures Launch(n, d, past + [e]) == GStep(Launch(n, d, past), n, e)
  {
    assert (past + [e])[..|past|] == past;
  }

  /** A cell overwritten before it is read keeps its new value, and that is
      the value read. */
  lemma {:induction false} ReadsNewValue(n: nat, d: seq<real>, order: seq<GEvent>, early: seq<GEvent>, c: nat)
    requires n <= |d| && Legal(n, order) && early <= order && c < n
    requires Store(c) in early && Load(c) !in early
    ensures NewValue(order, Launch(n, d, order), c, Launch(n, d, early).data[c])
    decreases |order|
  {
    if early == order {
    } else {
      var k := |order| - 1;
      var pre, e := order[..k], order[k];
      assert order == pre + [e] && Enabled(n, pre, e);
      LegalPrefix(n, order, k);
      ReadsNewValue(n, d, pre, early, c);
      NewValueKept(n, pre, Launch(n, d, pre), e, c, Launch(n, d, early).data[c]);
      LaunchSnoc(n, d, pre, e);
    }
  }

  function Unit(n: nat, z: nat): (d: seq<real>)
    requires z < n
    ensures |d| == n
  {
    seq(n, i => if i == z then 1.0 else 0.0)
  }

  lemma UnitSum(n: nat, z: nat)
    requires z < n
    ensures Sum(Unit(n, z)) == 1.0
  {
    var d := Unit(n, z);
    assert d == d[..z] + [1.0] + d[z + 1..];
    SumConcat(d[..z] + [1.0], d[z + 1..]);
    SumSnoc(d[..z], 1.0);
    SumZeros(d[..z]);
    SumZeros(d[z + 1..]);
  }

  lemma FirstOverwrite(n: nat, order: seq<GEvent>) returns (k: nat)
    requires !Safe(order)
    ensures k < |order| && order[k].Store? && Load(order[k].b) !in order[..k]
    ensures Safe(order[..k])
  {
    k := 0;
    while order[k].Load? || Load(order[k].b) in order[..k]
      invariant k < |order| && Safe(order[..k])
      invariant exists j :: k <= j < |order| && order[j].Store? && Load(order[j].b) !in order[..j]
      decreases |order| - k
    {
      forall j | 0 <= j < k + 1 ensures order[..k + 1][..j] == order[..j] {}
      forall j | 0 <= j < k && order[j].Store? ensures Load(order[j].b) in order[..j] {
        assert order[..k][j] == order[j] && order[..k][..j] == order[..j];
      }
      k := k + 1;
    }
  }

  ghost predicate Correct(n: nat, d: seq<real>, order: seq<GEvent>)
    requires n <= |d|
  {
    forall b: nat :: b < Blocks(n) ==> Launch(n, d, order).data[b] == Total(d, n, b)
  }

  /** Block 0 loads the cell it stores into, so another block overwrote first. */
  lemma OverwritesLater(n: nat, order: seq<GEvent>, k: nat)
    requires Legal(n, order) && k < |order| && order[k].Store? && Load(order[k].b) !in order[..k]
    ensures 0 < order[k].b < Blocks(n)
  {
    assert Enabled(n, order[..k], order[k]);
    assert order[k].b != 0 by { assert LoadedAll(n, order[..k], order[k].b); }
  }

  /** The first overwriting store still stores the right total. */
  lemma OverwrittenValue(n: nat, d: seq<real>, order: seq<GEvent>, k: nat)
    requires n <= |d| && Legal(n, order) && k < |order| && order[k].Store? && Safe(order[..k])
    ensures order[k].b < Blocks(n) && Store(order[k].b) in order[..k + 1]
    ensures Load(order[k].b) !in order[..k] ==> Load(order[k].b) !in order[..k + 1]
    ensures Launch(n, d, order[..k + 1]).data[order[k].b] == Total(d, n, order[k].b)
  {
    var c := order[k].b;
    assert Enabled(n, order[..k], order[k]);
    LegalPrefix(n, order, k);
    SafeLaunch(n, d, order[..k]);
    var h := Launch(n, d, order[..k]);
    assert order[..k + 1] == order[..k] + [order[k]];
    assert order[..k + 1][..k] == order[..k];
    assert h.shared[Lo(c)..Hi(n, c)] == d[Lo(c)..Hi(n, c)];
  }

  /** A block that has read v at some cell stores at least v. */
  lemma StoresAtLeast(n: nat, order: seq<GEvent>, g: Global, b: nat, i: nat)
    requires StoredState(n, order, g) && b < Blocks(n) && Store(b) in order && Lo(b) <= i < Hi(n, b)
    ensures g.data[b] >= g.shared[i]
  {
    var t := g.shared[Lo(b)..Hi(n, b)];
    assert t[i - Lo(b)] == g.shared[i];
    SumAtLeast(t, i - Lo(b));
  }

  /** The first overwriting block reads its first cell unharmed. */
  lemma OverwritesWithCell(n: nat, d: seq<real>, order: seq<GEvent>, k: nat)
    requires n <= |d| && Nonneg(d) && Legal(n, order) && k < |order| && order[k].Store? && Safe(order[..k])
    requires Load(order[k].b) !in order[..k] && 0 < order[k].b < Blocks(n)
    ensures exists v :: v >= d[Lo(order[k].b)] && NewValue(order, Launch(n, d, order), order[k].b, v)
  {
    var c := order[k].b;
    OverwrittenValue(n, d, order, k);
    ReadsNewValue(n, d, order, order[..k + 1], c);
    var s := d[Lo(c)..Hi(n, c)];
    assert s[0] == d[Lo(c)];
    SumAtLeast(s, 0);
    assert NewValue(order, Launch(n, d, order), c, Total(d, n, c));
  }

  /** The overwriting block's total is stored twice: in its own cell, and as
      part of the total of the block that reads this cell too late. */
  lemma CountsTwice(n: nat, d: seq<real>, order: seq<GEvent>, k: nat)
    requires n <= |d| && Nonneg(d) && Legal(n, order) && Complete(n, order)
    requires k < |order| && order[k].Store? && Load(order[k].b) !in order[..k] && Safe(order[..k])
    ensures Lo(order[k].b) < n && Nonneg(Launch(n, d, order).data)
    ensures Sum(Launch(n, d, order).data[..Blocks(n)]) >= 2.0 * d[Lo(order[k].b)]
  {
    OverwritesLater(n, order, k);
    var c, g := order[k].b, Launch(n, d, order);
    var b := c / THREADS;
    OverwritesWithCell(n, d, order, k);
    StoredIsShared(n, d, order);
    assert Store(b) in order && Store(c) in order;
    StoreAfterLoads(n, order, b, c);
    StoresAtLeast(n, order, g, b, c);
    SumAtLeastTwo(g.data[..Blocks(n)], b, c);
  }

  ghost predicate TwiceIn(n: nat, d: seq<real>, order: seq<GEvent>, v: real)
    requires n <= |d|
  {
    Nonneg(Launch(n, d, order).data) && Sum(Launch(n, d, order).data[..Blocks(n)]) >= 2.0 * v
  }

  /** The launch counts cell z of every nonnegative input at least twice. */
  ghost predicate Doubles(n: nat, order: seq<GEvent>, z: nat) {
    z < n && forall d: seq<real> :: n <= |d| && Nonneg(d) ==> TwiceIn(n, d, order, d[z])
  }

  /** Every complete unsafe launch does that to some cell. */
  lemma UnsafeDoubles(n: nat, order: seq<GEvent>) returns (z: nat)
    requires Legal(n, order) && Complete(n, order) && !Safe(order)
    ensures Doubles(n, order, z)
  {
    var k := FirstOverwrite(n, order);
    OverwritesLater(n, order, k);
    z := Lo(order[k].b);
    forall d: seq<real> | n <= |d| && Nonneg(d) ensures TwiceIn(n, d, order, d[z]) {
      CountsTwice(n, d, order, k);
    }
  }

  lemma CorrectSum(n: nat, d: seq<real>, order: seq<GEvent>)
    requires n <= |d| && Correct(n, d, order)
    ensures Sum(Launch(n, d, order).data[..Blocks(n)]) == Sum(d[..n])
  {
    TotalsSum(d, n, Blocks(n));
    assert Launch(n, d, order).data[..Blocks(n)] == Totals(d, n, Blocks(n));
  }

  lemma UnitIsInput(n: nat, z: nat)
    requires z < n
    ensures Nonneg(Unit(n, z)) && Unit(n, z)[z] == 1.0 && Unit(n, z)[..n] == Unit(n, z)
  {
  }

  lemma OverwriteSpoils(n: nat, order: seq<GEvent>) returns (d: seq<real>)
    requires Legal(n, order) && Complete(n, order) && !Safe(order)
    ensures |d| == n && !Correct(n, d, order)
    ensures Sum(d) == 1.0 && Sum(Launch(n, d, order).data[..Blocks(n)]) >= 2.0
  {
    var z := UnsafeDoubles(n, order);
    d := Unit(n, z);
    UnitSum(n, z);
    UnitIsInput(n, z);
    assert TwiceIn(n, d, order, d[z]);
    if Correct(n, d, order) { CorrectSum(n, d, order); }
  }

  /** The in-place launch is right for all inputs exactly when every cell is
      loaded before it is overwritten. */
  lemma LaunchCorrectIffSafe(n: nat, order: seq<GEvent>)
    requires Legal(n, order) && Complete(n, order)
    ensures Safe(order) <==> forall d: seq<real> :: n <= |d| ==> Correct(n, d, order)
  {
    if Safe(order) {
      forall d: seq<real> | n <= |d| ensures Correct(n, d, order) { SafeLaunch(n, d, order); }
    } else {
      var d := OverwriteSpoils(n, order);
    }
  }

  ghost predicate KeepsSum(n: nat, d: seq<real>, order: seq<GEvent>)
    requires n <= |d|
  {
    Sum(Launch(n, d, order).data[..Blocks(n)]) == Sum(d[..n])
  }

  lemma SafeKeepsSum(n: nat, d: seq<real>, order: seq<GEvent>)
    requires n <= |d| && Legal(n, order) && Complete(n, order) && Safe(order)
    ensures KeepsSum(n, d, order)
  {
    SafeLaunch(n, d, order);
    CorrectSum(n, d, order);
  }

  /** A pass of the host loop keeps the sum of the cells in use for all inputs
      under exactly the same schedules. */
  lemma PassKeepsSumIffSafe(n: nat, order: seq<GEvent>)
    requires Legal(n, order) && Complete(n, order)
    ensures Safe(order) <==> forall d: seq<real> :: n <= |d| ==> KeepsSum(n, d, order)
  {
    if Safe(order) {
      forall d: seq<real> | n <= |d| ensures KeepsSum(n, d, order) { SafeKeepsSum(n, d, order); }
    } else {
      var d := OverwriteSpoils(n, order);
      assert d[..n] == d && !KeepsSum(n, d, order);
    }
  }

  /** A launch of one block is always safe, and so is one in which no block
      stores before all blocks up to it have loaded. */
  lemma OneBlockSafe(n: nat, order: seq<GEvent>)
    requires Legal(n, order) && n <= 256
    ensures Safe(order)
  {
    forall k | 0 <= k < |order| && order[k].Store? ensures Load(order[k].b) in order[..k] {
      assert Enabled(n, order[..k], order[k]);
      assert LoadedAll(n, order[..k], 0);
    }
  }

  lemma AscendingSafe(n: nat, order: seq<GEvent>)
    requires Legal(n, order)
    requires forall k, b: nat :: 0 <= k < |order| && order[k].Store? && b <= order[k].b ==> LoadedAll(n, order[..k], b)
    ensures Safe(order)
  {
    forall k | 0 <= k < |order| && order[k].Store? ensures Load(order[k].b) in order[..k] {
      assert Enabled(n, order[..k], order[k]);
      assert LoadedAll(n, order[..k], order[k].b / THREADS);
    }
  }

  // ---------- both kinds of schedule exist ----------

  lemma LegalSnoc(n: nat, past: seq<GEvent>, e: GEvent)
    requires Legal(n, past) && Enabled(n, past, e)
    ensures Legal(n, past + [e])
    ensures Safe(past) && (e.Store? ==> Load(e.b) in past) ==> Safe(past + [e])
    ensures !Safe(past) ==> !Safe(past + [e])
  {
    var all := past + [e];
    assert all[..|past|] == past;
    forall k | 0 <= k < |past| ensures all[..k] == past[..k] && all[k] == past[k] {}
  }

  /** The first i loads have happened, and the first b stores. */
  ghost predicate Begun(order: seq<GEvent>, i: nat, b: nat) {
    && (forall j: nat :: j < i ==> Load(j) in order)
    && (forall c: nat :: c < b ==> Store(c) in order)
  }

  lemma NextLoad(n: nat, past: seq<GEvent>, i: nat) returns (order: seq<GEvent>)
    requires Legal(n, past) && Begun(past, i, 0) && i < n
    ensures Legal(n, order) && Begun(order, i + 1, 0) && (Safe(order) <==> Safe(past))
  {
    order := past;
    if Load(i) !in past {
      LegalSnoc(n, past, Load(i));
      order := past + [Load(i)];
    }
  }

  lemma NextStore(n: nat, past: seq<GEvent>, b: nat) returns (order: seq<GEvent>)
    requires Legal(n, past) && Begun(past, n, b) && b < Blocks(n)
    ensures Legal(n, order) && Begun(order, n, b + 1) && (Safe(order) <==> Safe(past))
  {
    order := past;
    if Store(b) !in past {
      assert b < n && LoadedAll(n, past, b);
      LegalSnoc(n, past, Store(b));
      order := past + [Store(b)];
    }
  }

  /** Any legal beginning can be carried on to a complete schedule: first the
      missing loads, then the missing stores. */
  lemma Finish(n: nat, start: seq<GEvent>) returns (order: seq<GEvent>)
    requires Legal(n, start)
    ensures Legal(n, order) && Complete(n, order)
    ensures Safe(order) <==> Safe(start)
  {
    order := start;
    for i := 0 to n
      invariant Legal(n, order) && Begun(order, i, 0) && (Safe(order) <==> Safe(start))
    {
      order := NextLoad(n, order, i);
    }
    for b := 0 to Blocks(n)
      invariant Legal(n, order) && Begun(order, n, b) && (Safe(order) <==> Safe(start))
    {
      order := NextStore(n, order, b);
    }
  }

  lemma SafeScheduleExists(n: nat)
    ensures exists order :: Legal(n, order) && Complete(n, order) && Safe(order)
  {
    var order := Finish(n, []);
  }

  /** With more than one block nothing in the program rules out a schedule
      that gives a wrong total: block 1 may store before block 0 has loaded. */
  lemma RaceExists(n: nat) returns (order: seq<GEvent>, d: seq<real>)
    requires n > 256
    ensures Legal(n, order) && Complete(n, order) && |d| == n && !Correct(n, d, order)
    ensures Sum(d) == 1.0 && Sum(Launch(n, d, order).data[..Blocks(n)]) >= 2.0
  {
    var start: seq<GEvent> := [];
    for i := THREADS to Hi(n, 1)
      invariant Legal(n, start)
      invariant forall j: nat :: Load(j) in start <==> THREADS <= j < i
      invariant forall b: nat :: Store(b) !in start
    {
      LegalSnoc(n, start, Load(i));
      start := start + [Load(i)];
    }
    LegalSnoc(n, start, Store(1));
    var bad := start + [Store(1)];
    assert bad[..|start|] == start && bad[|start|] == Store(1);
    order := Finish(n, bad);
    d := OverwriteSpoils(n, order);
  }

  // ---------- what an unsafe pass does to the final sum ----------

  /** Cell z is overwritten by event k before it has been read. */
  ghost predicate Late(order: seq<GEvent>, z: nat, k: nat) {
    k < |order| && order[k] == Store(z) && Load(z) !in order[..k]
  }

  ghost predicate NeverLate(order: seq<GEvent>, z: nat) {
    forall k: nat :: !Late(order, z, k)
  }

  ghost predicate OldValue(past: seq<GEvent>, g: Global, z: nat, v: real) {
    && z < |g.data| && z < |g.shared|
    && (Load(z) in past ==> g.shared[z] == v) && (Store(z) !in past ==> g.data[z] == v)
  }

  lemma OldValueKept(n: nat, past: seq<GEvent>, g: Global, e: GEvent, z: nat, v: real)
    requires n <= |g.data| && |g.shared| == n && OldValue(past, g, z, v) && Enabled(n, past, e)
    requires e == Load(z) ==> Store(z) !in past
    ensures OldValue(past + [e], GStep(g, n, e), z, v)
  {
  }

  /** One event less; and the last is no load of a cell already overwritten. */
  lemma NeverLatePrefix(n: nat, order: seq<GEvent>, z: nat)
    requires Legal(n, order) && order != [] && NeverLate(order, z)
    ensures NeverLate(order[..|order| - 1], z)
    ensures Enabled(n, order[..|order| - 1], order[|order| - 1])
    ensures order[|order| - 1] == Load(z) ==> Store(z) !in order[..|order| - 1]
  {
    var pre := order[..|order| - 1];
    forall j: nat ensures !Late(pre, z, j) {
      assert j < |pre| ==> pre[..j] == order[..j];
      assert !Late(order, z, j);
    }
    if Store(z) in pre {
      var j :| 0 <= j < |pre| && pre[j] == Store(z);
      assert !Late(pre, z, j);
    }
  }

  /** A cell that is read before it is overwritten is read as it was. */
  lemma {:induction false} ReadsOldValue(n: nat, d: seq<real>, order: seq<GEvent>, z: nat)
    requires n <= |d| && Legal(n, order) && z < n && NeverLate(order, z)
    ensures OldValue(order, Launch(n, d, order), z, d[z])
    decreases |order|
  {
    if order == [] {
    } else {
      var k := |order| - 1;
      var pre, e := order[..k], order[k];
      assert order == pre + [e];
      LegalPrefix(n, order, k);
      NeverLatePrefix(n, order, z);
      ReadsOldValue(n, d, pre, z);
      OldValueKept(n, pre, Launch(n, d, pre), e, z, d[z]);
    }
  }

  /** The block reads its first cell unharmed. */
  lemma FeedsDirectly(n: nat, d: seq<real>, order: seq<GEvent>, b: nat)
    requires Legal(n, order) && Complete(n, order) && b < Blocks(n) && n <= |d| && Nonneg(d)
    requires NeverLate(order, Lo(b))
    ensures Launch(n, d, order).data[b] >= d[Lo(b)]
  {
    StoredIsShared(n, d, order);
    ReadsOldValue(n, d, order, Lo(b));
    StoreAfterLoads(n, order, b, Lo(b));
    StoresAtLeast(n, order, Launch(n, d, order), b, Lo(b));
  }

  /** Or it reads there what another block has stored. */
  lemma FeedsThrough(n: nat, d: seq<real>, order: seq<GEvent>, b: nat, k: nat)
    requires Legal(n, order) && Complete(n, order) && b < Blocks(n) && n <= |d| && Nonneg(d)
    requires Late(order, Lo(b), k)
    ensures b < Lo(b) < Blocks(n) && Launch(n, d, order).data[b] >= Launch(n, d, order).data[Lo(b)]
  {
    var z := Lo(b);
    OverwritesLater(n, order, k);
    StoredIsShared(n, d, order);
    assert order[..k + 1] == order[..k] + [Store(z)];
    ReadsNewValue(n, d, order, order[..k + 1], z);
    StoreAfterLoads(n, order, b, z);
    StoresAtLeast(n, order, Launch(n, d, order), b, z);
  }

  /** Cell y of every nonnegative input goes into the total of block b in full. */
  ghost predicate Feeds(n: nat, order: seq<GEvent>, b: nat, y: nat) {
    && y < n && b < Blocks(n)
    && forall d: seq<real> :: n <= |d| && Nonneg(d) ==> Launch(n, d, order).data[b] >= d[y]
  }

  /** Under every schedule, safe or not, some cell does. */
  lemma SomeCellFeeds(n: nat, order: seq<GEvent>, b: nat) returns (y: nat)
    requires Legal(n, order) && Complete(n, order) && b < Blocks(n)
    ensures Feeds(n, order, b, y)
    decreases n - b
  {
    if k: nat :| Late(order, Lo(b), k) {
      FeedsThrough(n, seq(n, _ => 0.0), order, b, k);
      y := SomeCellFeeds(n, order, Lo(b));
      forall d: seq<real> | n <= |d| && Nonneg(d) ensures Launch(n, d, order).data[b] >= d[y] {
        FeedsThrough(n, d, order, b, k);
      }
    } else {
      y := Lo(b);
      forall d: seq<real> | n <= |d| && Nonneg(d) ensures Launch(n, d, order).data[b] >= d[y] {
        FeedsDirectly(n, d, order, b);
      }
    }
  }

  /** The while loop of the host, where `pass(s)` is the order in which the
      launch over s cells goes on. */
  function HostLoop(d: seq<real>, s: nat, pass: nat -> seq<GEvent>): (r: seq<real>)
    requires 1 <= s <= |d|
    ensures |r| == |d|
    decreases s
  {
    if s == 1 then d else HostLoop(Launch(s, d, pass(s)).data, Blocks(s), pass)
  }

  /** Every launch is one the program allows. */
  ghost predicate AllowedPasses(pass: nat -> seq<GEvent>) {
    forall n: nat :: n > 1 ==> Legal(n, pass(n)) && Complete(n, pass(n))
  }

  /** Every launch of the loop that starts with s cells is safe. */
  ghost predicate SafePasses(s: nat, pass: nat -> seq<GEvent>)
    decreases s
  {
    s <= 1 || (Safe(pass(s)) && SafePasses(Blocks(s), pass))
  }

  lemma {:induction false} SafeResult(d: seq<real>, s: nat, pass: nat -> seq<GEvent>)
    requires 1 <= s <= |d| && AllowedPasses(pass) && SafePasses(s, pass)
    ensures HostLoop(d, s, pass)[0] == Sum(d[..s])
    decreases s
  {
    if s == 1 {
      assert d[..1] == [d[0]];
      assert Sum([d[0]]) == Sum([]) + d[0];
    } else {
      SafeKeepsSum(s, d, pass(s));
      SafeResult(Launch(s, d, pass(s)).data, Blocks(s), pass);
    }
  }

  /** The result counts cell z of every nonnegative input at least twice. */
  ghost predicate ResultDoubles(s: nat, pass: nat -> seq<GEvent>, z: nat) {
    z < s && forall d: seq<real> :: s <= |d| && Nonneg(d) ==> HostLoop(d, s, pass)[0] >= 2.0 * d[z]
  }

  /** An unsafe launch, followed by safe ones only. */
  lemma LastUnsafe(s: nat, pass: nat -> seq<GEvent>, z: nat)
    requires s > 1 && AllowedPasses(pass) && SafePasses(Blocks(s), pass) && Doubles(s, pass(s), z)
    ensures ResultDoubles(s, pass, z)
  {
    forall d: seq<real> | s <= |d| && Nonneg(d) ensures HostLoop(d, s, pass)[0] >= 2.0 * d[z] {
      assert TwiceIn(s, d, pass(s), d[z]);
      SafeResult(Launch(s, d, pass(s)).data, Blocks(s), pass);
    }
  }

  /** Any launch before one that makes the result count a cell twice. */
  lemma UnsafeLater(s: nat, pass: nat -> seq<GEvent>, b: nat, z: nat)
    requires s > 1 && AllowedPasses(pass) && ResultDoubles(Blocks(s), pass, b) && Feeds(s, pass(s), b, z)
    ensures ResultDoubles(s, pass, z)
  {
    forall d: seq<real> | s <= |d| && Nonneg(d) ensures HostLoop(d, s, pass)[0] >= 2.0 * d[z] {
      StoredIsShared(s, d, pass(s));
      assert Launch(s, d, pass(s)).data[b] >= d[z];
    }
  }

  /** If any launch of the loop is unsafe, the result counts some cell twice. */
  lemma {:induction false} UnsafeResult(s: nat, pass: nat -> seq<GEvent>) returns (z: nat)
    requires AllowedPasses(pass) && !SafePasses(s, pass)
    ensures ResultDoubles(s, pass, z)
    decreases s
  {
    if SafePasses(Blocks(s), pass) {
      z := UnsafeDoubles(s, pass(s));
      LastUnsafe(s, pass, z);
    } else {
      var b := UnsafeResult(Blocks(s), pass);
      z := SomeCellFeeds(s, pass(s), b);
      UnsafeLater(s, pass, b, z);
    }
  }

  lemma UnsafeWrong(s: nat, pass: nat -> seq<GEvent>) returns (d: seq<real>)
    requires AllowedPasses(pass) && !SafePasses(s, pass)
    ensures |d| == s >= 1 && HostLoop(d, s, pass)[0] != Sum(d)
  {
    var z := UnsafeResult(s, pass);
    d := Unit(s, z);
    UnitSum(s, z);
    UnitIsInput(s, z);
    assert HostLoop(d, s, pass)[0] >= 2.0 * d[z];
  }

  /** The host loop returns the sum for all inputs exactly when every one of its
      launches is safe: no later launch can make up for an unsafe one. */
  lemma ResultRightIffSafe(s: nat, pass: nat -> seq<GEvent>)
    requires s >= 1 && AllowedPasses(pass)
    ensures SafePasses(s, pass) <==>
            forall d: seq<real> :: s <= |d| ==> HostLoop(d, s, pass)[0] == Sum(d[..s])
  {
    if SafePasses(s, pass) {
      forall d: seq<real> | s <= |d| ensures HostLoop(d, s, pass)[0] == Sum(d[..s]) { SafeResult(d, s, pass); }
    } else {
      var d := UnsafeWrong(s, pass);
      assert d[..s] == d;
    }
  }

  ghost function SafeOrder(n: nat): (order: seq<GEvent>)
    ensures Legal(n, order) && Complete(n, order) && Safe(order)
  {
    SafeScheduleExists(n);
    var order :| Legal(n, order) && Complete(n, order) && Safe(order);
    order
  }

  /** The given order for the launch over s cells, safe ones for all others. */
  lemma OtherwiseSafe(s: nat, order: seq<GEvent>) returns (pass: nat -> seq<GEvent>)
    requires Legal(s, order) && Complete(s, order)
    ensures AllowedPasses(pass) && pass(s) == order && forall n: nat :: n != s ==> Safe(pass(n))
  {
    pass := (n: nat) => if n == s then order else SafeOrder(n);
    forall n: nat | n > 1 ensures Legal(n, pass(n)) && Complete(n, pass(n)) {
      assert pass(n) == if n == s then order else SafeOrder(n);
    }
  }

  /** With more than one block in the first launch, the loop can go wrong even
      when all its other launches are safe. */
  lemma WrongSum(s: nat) returns (pass: nat -> seq<GEvent>, d: seq<real>)
    requires s > 256
    ensures AllowedPasses(pass) && forall n: nat :: n != s ==> Safe(pass(n))
    ensures |d| == s && HostLoop(d, s, pass)[0] != Sum(d)
  {
    var order, wrong := RaceExists(s);
    if Safe(order) { SafeLaunch(s, wrong, order); }
    pass := OtherwiseSafe(s, order);
    d := UnsafeWrong(s, pass);
  }

  // ---------- the host loop ----------

  /** A block's shared memory: its cells, then zeros. */
  function Padded(s: seq<real>, n: nat, b: nat): (r: seq<real>)
    requires n <= |s| && b < Blocks(n)
    ensures |r| == THREADS
  {
    seq(THREADS, t requires 0 <= t < THREADS => if Lo(b) + t < n then s[Lo(b) + t] else 0.0)
  }

  lemma PaddedSum(s: seq<real>, n: nat, b: nat)
    requires n <= |s| && b < Blocks(n)
    ensures Sum(Padded(s, n, b)) == Total(s, n, b)
  {
    var w := Hi(n, b) - Lo(b);
    var p := Padded(s, n, b);
    assert p == p[..w] + p[w..];
    assert p[..w] == s[Lo(b)..Hi(n, b)];
    SumConcat(p[..w], p[w..]);
    SumZeros(p[w..]);
  }

  /** `turns(b, s)` interleaves the s active threads of block b. */
  ghost predicate Turns(turns: (nat, nat) -> seq<nat>) {
    forall b: nat, s: nat :: 1 <= s < THREADS ==> Completes(s, turns(b, s))
  }

  lemma ThreadsPowerOfTwo()
    ensures PowerOfTwo(THREADS)
  {
    assert PowerOfTwo(1) && PowerOfTwo(2) && PowerOfTwo(4) && PowerOfTwo(8);
    assert PowerOfTwo(16) && PowerOfTwo(32) && PowerOfTwo(64) && PowerOfTwo(128);
  }

  /** The part of the kernel between the load and the store of block b. */
  method BlockResult(shared: array<real>, n: nat, b: nat, turns: (nat, nat) -> seq<nat>) returns (r: real)
    requires shared.Length == n && b < Blocks(n) && Turns(turns)
    ensures r == Total(shared[..], n, b)
  {
    var sdata := new real[THREADS];
    for t := 0 to THREADS
      invariant forall u :: 0 <= u < t ==> sdata[u] == Padded(shared[..], n, b)[u]
    {
      sdata[t] := if Lo(b) + t < n then shared[Lo(b) + t] else 0.0;
    }
    assert sdata[..] == Padded(shared[..], n, b);
    ThreadsPowerOfTwo();
    ReduceShared(sdata, s => turns(b, s));
    PaddedSum(shared[..], n, b);
    r := sdata[0];
  }

  /** One launch of the kernel on its own output array. */
  method LaunchInPlace(d: array<real>, n: nat, order: seq<GEvent>, turns: (nat, nat) -> seq<nat>)
    requires n <= d.Length && Legal(n, order) && Turns(turns)
    modifies d
    ensures d[..] == Launch(n, old(d[..]), order).data
  {
    var shared := new real[n](_ => 0.0);
    assert shared[..] == seq(n, _ => 0.0);
    for k := 0 to |order|
      invariant Global(d[..], shared[..]) == Launch(n, old(d[..]), order[..k])
    {
      assert order[..k + 1][..k] == order[..k];
      assert Enabled(n, order[..k], order[k]);
      match order[k]
      case Load(i) => shared[i] := d[i];
      case Store(b) =>
        var r := BlockResult(shared, n, b, turns);
        d[b] := r;
    }
    assert order[..|order|] == order;
  }

  /** One launch of the loop: the totals of the blocks add up to what they were
      made from, if no cell is overwritten before it is loaded. */
  method OnePass(d: array<real>, s: nat, order: seq<GEvent>, turns: (nat, nat) -> seq<nat>)
    requires 1 < s <= d.Length && Legal(s, order) && Complete(s, order) && Turns(turns)
    modifies d
    ensures d[..] == Launch(s, old(d[..]), order).data
    ensures Safe(order) ==> Sum(d[..Blocks(s)]) == Sum(old(d[..s]))
  {
    ghost var d0 := d[..];
    LaunchInPlace(d, s, order, turns);
    if Safe(order) { SafeKeepsSum(s, d0, order); }
    assert d0[..s] == old(d[..s]);
  }

  /** The while loop of the host: launches on d until one value is left. */
  method Passes(d: array<real>, count: nat, pass: nat -> seq<GEvent>, turns: (nat, nat) -> seq<nat>)
    requires 1 <= count <= d.Length && AllowedPasses(pass) && Turns(turns)
    modifies d
    ensures d[..] == HostLoop(old(d[..]), count, pass)
    ensures SafePasses(count, pass) ==> d[0] == Sum(old(d[..count]))
  {
    var s := count;
    while s > 1
      invariant 1 <= s <= d.Length
      invariant HostLoop(d[..], s, pass) == HostLoop(old(d[..]), count, pass)
      decreases s
    {
      OnePass(d, s, pass(s), turns);
      s := (s + THREADS - 1) / THREADS;
    }
    if SafePasses(count, pass) { SafeResult(old(d[..]), count, pass); }
    assert old(d[..count]) == old(d[..])[..count];
  }

  function Mapped(f: real -> real, s: seq<real>): (r: seq<real>)
    ensures |r| == |s| && forall i :: 0 <= i < |s| ==> r[i] == f(s[i])
  {
    seq(|s|, i requires 0 <= i < |s| => f(s[i]))
  }

  /** A launch that reads x and stores elsewhere: no store can disturb a load. */
  ghost predicate OutState(x: seq<real>, past: seq<GEvent>, g: Global) {
    && |g.shared| == |x| && |g.data| == Blocks(|x|)
    && (forall i: nat :: i < |x| && Load(i) in past ==> g.shared[i] == x[i])
    && forall b: nat :: b < Blocks(|x|) && Store(b) in past ==> g.data[b] == Total(x, |x|, b)
  }

  lemma OutLoad(x: seq<real>, past: seq<GEvent>, g: Global, i: nat)
    requires OutState(x, past, g) && i < |x|
    ensures OutState(x, past + [Load(i)], g.(shared := g.shared[i := x[i]]))
  {
  }

  lemma OutStore(x: seq<real>, past: seq<GEvent>, g: Global, b: nat)
    requires OutState(x, past, g) && b < Blocks(|x|) && LoadedAll(|x|, past, b)
    ensures OutState(x, past + [Store(b)], g.(data := g.data[b := Total(g.shared, |x|, b)]))
  {
    assert g.shared[Lo(b)..Hi(|x|, b)] == x[Lo(b)..Hi(|x|, b)];
  }

  /** One event of such a launch. */
  method OutEvent(input: array<real>, d: array<real>, shared: array<real>, e: GEvent, ghost past: seq<GEvent>,
                  turns: (nat, nat) -> seq<nat>)
    requires shared.Length <= input.Length && d != shared && input != d && input != shared && Turns(turns)
    requires OutState(input[..shared.Length], past, Global(d[..], shared[..])) && Enabled(shared.Length, past, e)
    modifies d, shared
    ensures OutState(input[..shared.Length], past + [e], Global(d[..], shared[..]))
  {
    ghost var x, g := input[..shared.Length], Global(d[..], shared[..]);
    match e
    case Load(i) =>
      OutLoad(x, past, g, i);
      shared[i] := input[i];
    case Store(b) =>
      OutStore(x, past, g, b);
      var r := BlockResult(shared, shared.Length, b, turns);
      d[b] := r;
  }

  lemma BlockCells(s: seq<real>, blocks: nat, b: nat)
    requires b < blocks && 256 * blocks <= |s|
    ensures Totals(s[..blocks * THREADS], blocks * THREADS, blocks)[b] == Sum(s[256 * b..256 * b + 256])
  {
    assert s[..256 * blocks][256 * b..256 * b + 256] == s[256 * b..256 * b + 256];
  }

  /** A launch from one array into another. */
  method FirstPass(input: array<real>, blocks: nat, order: seq<GEvent>, turns: (nat, nat) -> seq<nat>)
    returns (d: array<real>)
    requires 1 <= blocks && blocks * THREADS <= input.Length && Turns(turns)
    requires Legal(blocks * THREADS, order) && Complete(blocks * THREADS, order)
    ensures fresh(d) && d[..] == Totals(input[..blocks * THREADS], blocks * THREADS, blocks)
    ensures forall b: nat :: b < blocks ==> d[..][b] == Sum(input[..][256 * b..256 * b + 256])
    ensures Sum(d[..]) == Sum(input[..blocks * THREADS])
  {
    var used := blocks * THREADS;
    ghost var x := input[..used];
    d := new real[blocks](_ => 0.0);
    var shared := new real[used](_ => 0.0);
    for k := 0 to |order|
      invariant fresh(d) && fresh(shared) && d != shared && input[..used] == x
      invariant OutState(x, order[..k], Global(d[..], shared[..]))
    {
      assert order[..k + 1] == order[..k] + [order[k]] && Enabled(used, order[..k], order[k]);
      OutEvent(input, d, shared, order[k], order[..k], turns);
    }
    assert order[..|order|] == order;
    TotalsSum(x, used, blocks);
    assert d[..] == Totals(x, used, blocks) && x[..used] == x;
    forall b: nat | b < blocks ensures d[..][b] == Sum(input[..][256 * b..256 * b + 256]) {
      BlockCells(input[..], blocks, b);
    }
  }

  /** The first pass into a second array, then the host loop on that. */
  method ReduceBlocks(input: array<real>, blocks: nat, first: seq<GEvent>, pass: nat -> seq<GEvent>,
                      turns: (nat, nat) -> seq<nat>) returns (r: real)
    requires 1 <= blocks && blocks * THREADS <= input.Length && AllowedPasses(pass) && Turns(turns)
    requires Legal(blocks * THREADS, first) && Complete(blocks * THREADS, first)
    ensures r == HostLoop(Totals(input[..blocks * THREADS], blocks * THREADS, blocks), blocks, pass)[0]
    ensures SafePasses(blocks, pass) ==> r == Sum(input[..blocks * THREADS])
  {
    var d := FirstPass(input, blocks, first, turns);
    assert d[..blocks] == d[..];
    Passes(d, blocks, pass, turns);
    r := d[..][0];
  }

  /** reduction: `qroot` over the input, a first pass into a second array of
      size / 256 cells, then the host loop. The whole blocks are covered, so
      every power of two from 256 up is summed completely. */
  method Reduce(input: array<real>, qroot: real -> real,
                first: seq<GEvent>, pass: nat -> seq<GEvent>, turns: (nat, nat) -> seq<nat>) returns (r: real)
    requires input.Length >= 256 && AllowedPasses(pass) && Turns(turns)
    requires var used := input.Length / THREADS * THREADS; Legal(used, first) && Complete(used, first)
    modifies input
    ensures var blocks := input.Length / THREADS;
            var x := Mapped(qroot, old(input[..])[..blocks * THREADS]);
            && r == HostLoop(Totals(x, blocks * THREADS, blocks), blocks, pass)[0]
            && (SafePasses(blocks, pass) ==> r == Sum(x))
    ensures input.Length % 256 == 0 && SafePasses(input.Length / 256, pass) ==>
              r == Sum(Mapped(qroot, old(input[..])))
  {
    var n := input.Length;
    var blocks := n / THREADS;
    var used := blocks * THREADS;
    for i := 0 to used
      invariant forall j :: 0 <= j < n ==> input[j] == if j < i then qroot(old(input[j])) else old(input[j])
    {
      input[i] := qroot(input[i]);
    }
    assert input[..used] == Mapped(qroot, old(input[..])[..used]);
    r := ReduceBlocks(input, blocks, first, pass, turns);
    assert used == n ==> old(input[..])[..used] == old(input[..]);
  }

  function Power2(n: nat): nat {
    if n == 0 then 1 else 2 * Power2(n - 1)
  }

  lemma PowersAreWhole(k: nat)
    ensures Power2(k + 8) % 256 == 0 && Power2(k + 8) >= 256
  {
    if k == 0 {
      assert Power2(2) == 4 && Power2(4) == 16 && Power2(6) == 64 && Power2(8) == 256;
    } else {
      PowersAreWhole(k - 1);
    }
  }
}
