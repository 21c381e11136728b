/** Safety of every run of the thread library: who owns which slot, what the
    scheduler and the slot allocator may pick, and what a mailbox delivers. */
module ThreadRuns {
  import opened Threads
  import opened Wrappers

  // ---------- the invariant ----------

  ghost predicate Listed(mb: seq<Mbox>, b: int, i: int, x: nat) {
    0 <= b < |mb| && 0 <= i < |mb[b].queue| && mb[b].queue[i].xid == x
  }

  /** Slot x is blocked in a receive. */
  ghost predicate Waiting(mb: seq<Mbox>, x: nat) {
    exists b, i :: Listed(mb, b, i, x)
  }

  /** Every blocked slot is listed exactly once over all mailboxes. */
  ghost predicate ListedOnce(mb: seq<Mbox>) {
    forall b, i, c, j, x :: Listed(mb, b, i, x) && Listed(mb, c, j, x) ==> b == c && i == j
  }

  ghost predicate NeverBoth(mb: seq<Mbox>) {
    forall b :: 0 <= b < |mb| && mb[b].message != EMPTY ==> mb[b].queue == []
  }

  /** With no thread on the processor, XRUN marks exactly the blocked slots:
      the state is never XBLOCK. */
  ghost predicate Parked(st: seq<XState>, mb: seq<Mbox>) {
    && (forall b, i, x: nat :: Listed(mb, b, i, x) ==> x < |st| && st[x] == XRUN)
    && (forall x :: 0 <= x < |st| && st[x] == XRUN ==> Waiting(mb, x))
    && (forall x :: 0 <= x < |st| ==> st[x] != XBLOCK)
    && ListedOnce(mb)
    && NeverBoth(mb)
  }

  ghost predicate Inv(s: Sys) {
    && s.tab.Valid()
    && s.tab.st[s.tab.curr] == XRUN
    && Parked(s.tab.st[s.tab.curr := XREADY], s.mb)
  }

  lemma InvIsValid(s: Sys)
    requires Inv(s)
    ensures s.Valid()
  {
    forall b, i | 0 <= b < |s.mb| && 0 <= i < |s.mb[b].queue|
      ensures s.mb[b].queue[i].xid < |s.tab.st|
    {
      assert Listed(s.mb, b, i, s.mb[b].queue[i].xid);
    }
  }

  // ---------- how each kind of step keeps it ----------

  lemma ParkedSet(st: seq<XState>, mb: seq<Mbox>, x: nat, v: XState)
    requires Parked(st, mb) && x < |st| && st[x] != XRUN && (v == XFREE || v == XREADY)
    ensures Parked(st[x := v], mb)
  {
  }

  lemma ParkedEnqueue(st: seq<XState>, mb: seq<Mbox>, b: nat, w: Waiter)
    requires b < |mb| && w.xid < |st| && st[w.xid] == XREADY
    requires Parked(st, mb) && mb[b].message == EMPTY
    ensures Parked(st[w.xid := XRUN], mb[b := Mbox(EMPTY, mb[b].queue + [w])])
  {
    var mb' := mb[b := Mbox(EMPTY, mb[b].queue + [w])];
    forall c, i, x | Listed(mb', c, i, x)
      ensures Listed(mb, c, i, x) || (c == b && i == |mb[b].queue| && x == w.xid)
    {
    }
    forall c, i, x | Listed(mb, c, i, x)
      ensures Listed(mb', c, i, x)
    {
    }
    assert Listed(mb', b, |mb[b].queue|, w.xid);
  }

  /** Dropping the first k waiters of box b shifts the rest of that queue. */
  lemma DropListed(mb: seq<Mbox>, b: nat, k: nat)
    requires b < |mb| && k <= |mb[b].queue|
    ensures var mb' := mb[b := Mbox(EMPTY, mb[b].queue[k..])];
            && (forall c, i, x: nat :: Listed(mb', c, i, x) ==> Listed(mb, c, if c == b then i + k else i, x))
            && (forall c, i, x: nat :: Listed(mb, c, i, x) ==>
                  (c == b && i < k) || Listed(mb', c, if c == b then i - k else i, x))
  {
  }

  lemma DropWaiting(mb: seq<Mbox>, b: nat, k: nat, x: nat)
    requires b < |mb| && k <= |mb[b].queue| && ListedOnce(mb)
    ensures var mb' := mb[b := Mbox(EMPTY, mb[b].queue[k..])];
            Waiting(mb', x) <==> Waiting(mb, x) && !Among(x, mb[b].queue[..k])
  {
    DropListed(mb, b, k);
    var mb' := mb[b := Mbox(EMPTY, mb[b].queue[k..])];
    if Waiting(mb', x) {
      var c, j :| Listed(mb', c, j, x);
      assert Listed(mb, c, if c == b then j + k else j, x);
      forall i | 0 <= i < k ensures mb[b].queue[..k][i].xid != x
      {
        assert Listed(mb, b, i, mb[b].queue[i].xid);
      }
    }
    if Waiting(mb, x) && !Among(x, mb[b].queue[..k]) {
      var c, j :| Listed(mb, c, j, x);
      assert Listed(mb', c, if c == b then j - k else j, x);
    }
  }

  lemma DropOnce(mb: seq<Mbox>, b: nat, k: nat)
    requires b < |mb| && k <= |mb[b].queue| && ListedOnce(mb)
    ensures ListedOnce(mb[b := Mbox(EMPTY, mb[b].queue[k..])])
  {
    DropListed(mb, b, k);
    var mb' := mb[b := Mbox(EMPTY, mb[b].queue[k..])];
    forall c, i, d, j, x: nat | Listed(mb', c, i, x) && Listed(mb', d, j, x)
      ensures c == d && i == j
    {
      assert Listed(mb, c, if c == b then i + k else i, x);
      assert Listed(mb, d, if d == b then j + k else j, x);
    }
  }

  /** Waking the first k waiters of a box; a send wakes one, a broadcast all. */
  lemma ParkedWake(st: seq<XState>, mb: seq<Mbox>, b: nat, k: nat)
    requires b < |mb| && k <= |mb[b].queue|
    requires Parked(st, mb) && mb[b].message == EMPTY
    requires forall i :: 0 <= i < |mb[b].queue| ==> mb[b].queue[i].xid < |st|
    ensures Parked(Wake(st, mb[b].queue[..k]), mb[b := Mbox(EMPTY, mb[b].queue[k..])])
  {
    var ws := mb[b].queue[..k];
    var st' := Wake(st, ws);
    var mb' := mb[b := Mbox(EMPTY, mb[b].queue[k..])];
    DropOnce(mb, b, k);
    forall x: nat | x < |st|
      ensures st'[x] == XRUN <==> Waiting(mb', x)
    {
      DropWaiting(mb, b, k, x);
    }
    forall c, i, x: nat | Listed(mb', c, i, x)
      ensures x < |st| && st'[x] == XRUN
    {
      DropListed(mb, b, k);
      assert Waiting(mb', x);
    }
  }

  /** A box whose queue is empty may change its message freely. */
  lemma ParkedMessage(st: seq<XState>, mb: seq<Mbox>, b: nat, msg: int)
    requires b < |mb| && Parked(st, mb) && mb[b].queue == []
    ensures Parked(st, mb[b := mb[b].(message := msg)])
  {
    var mb' := mb[b := mb[b].(message := msg)];
    forall c, i, x
      ensures Listed(mb', c, i, x) <==> Listed(mb, c, i, x)
    {
    }
    forall x | Waiting(mb, x) ensures Waiting(mb', x)
    {
      var c, i :| Listed(mb, c, i, x);
      assert Listed(mb', c, i, x);
    }
  }

  /** resched from any parked state. */
  lemma ReschedInv(t: Table, mb: seq<Mbox>)
    requires t.Valid() && Parked(t.st, mb)
    ensures match Resched(t)
            case None => forall x :: 0 <= x < |t.st| ==> t.st[x] == XFREE || Waiting(mb, x)
            case Some(t') => Inv(Sys(t', mb)) && t.st[t'.curr] == XREADY && t'.st == t.st[t'.curr := XRUN]
  {
    match Resched(t)
    case None =>
    case Some(t') =>
      assert t'.st[t'.curr := XREADY] == t.st;
  }

  lemma MboxInv(s: Sys, e: Event)
    requires Inv(s) && Allowed(s, e) && (e.Send? || e.Broadcast? || e.Recv?)
    ensures s.Valid()
    ensures var c := MboxCall(s, e); var mb := s.mb[e.b := c.box];
            if c.blocks then Parked(s.tab.st, mb)
            else Inv(Sys(s.tab.(st := Wake(s.tab.st, c.woken)), mb))
  {
    InvIsValid(s);
    var t := s.tab;
    var free := t.st[t.curr := XREADY];
    var m := s.mb[e.b];
    var c := MboxCall(s, e);
    assert Waiter(t.curr, 0).xid == t.curr;
    if c.blocks {
      ParkedEnqueue(free, s.mb, e.b, Waiter(t.curr, e.dest));
      assert free[t.curr := XRUN] == t.st;
    } else if c.woken != [] {
      var k := |c.woken|;
      ParkedWake(free, s.mb, e.b, k);
      assert m.queue[..k] == c.woken && m.queue[k..] == c.box.queue;
      forall i | 0 <= i < k ensures c.woken[i].xid != t.curr
      {
        assert Listed(s.mb, e.b, i, c.woken[i].xid);
      }
      assert Wake(t.st, c.woken)[t.curr := XREADY] == Wake(free, c.woken);
    } else {
      assert Wake(t.st, []) == t.st;
      if c.box != m {
        ParkedMessage(free, s.mb, e.b, c.box.message);
      } else {
        assert s.mb[e.b := m] == s.mb;
      }
    }
  }

  /** Does event e end in resched? */
  predicate Reschedules(s: Sys, e: Event) {
    match e
    case Timer => true
    case Exit => true
    case Recv(b, _) => b < |s.mb| && s.mb[b].message == EMPTY
    case _ => false
  }

  lemma StepInv(s: Sys, e: Event)
    requires Inv(s) && Allowed(s, e)
    ensures s.Valid()
    ensures Step(s, e).Next? ==>
              && Inv(Step(s, e).sys)
              && |Step(s, e).sys.tab.st| == |s.tab.st|
              && |Step(s, e).sys.mb| == |s.mb|
  {
    InvIsValid(s);
    var t := s.tab;
    var free := t.st[t.curr := XREADY];
    match e
    case Create =>
      match CreateIn(t) {
        case None =>
        case Some((x, t')) =>
          ParkedSet(free, s.mb, x, XREADY);
          assert t'.st[t.curr := XREADY] == free[x := XREADY];
      }
    case Timer =>
      ReschedInv(t.(st := free), s.mb);
    case Exit =>
      ParkedSet(free, s.mb, t.curr, XFREE);
      assert free[t.curr := XFREE] == t.st[t.curr := XFREE];
      ReschedInv(t.(st := t.st[t.curr := XFREE]), s.mb);
    case _ =>
      MboxInv(s, e);
      var c := MboxCall(s, e);
      if c.blocks { ReschedInv(t, s.mb[e.b := c.box]); }
  }

  // ---------- the moment before resched ----------

  lemma YieldIs(s: Sys, e: Event)
    requires s.Valid() && Allowed(s, e) && Reschedules(s, e)
    ensures YieldTable(s, e).Valid()
    ensures Step(s, e) == Yield(YieldTable(s, e), YieldBoxes(s, e), 0)
  {
  }

  lemma YieldParked(s: Sys, e: Event)
    requires Inv(s) && Allowed(s, e) && Reschedules(s, e)
    ensures s.Valid() && Parked(YieldTable(s, e).st, YieldBoxes(s, e))
  {
    InvIsValid(s);
    var free := s.tab.st[s.tab.curr := XREADY];
    if e.Recv? {
      MboxInv(s, e);
    } else if e.Exit? {
      ParkedSet(free, s.mb, s.tab.curr, XFREE);
      assert free[s.tab.curr := XFREE] == YieldTable(s, e).st;
    }
  }

  lemma BootInv(n: nat, boxes: nat)
    requires n > 0
    ensures Inv(Boot(n, boxes))
  {
    var s := Boot(n, boxes);
    forall b, i, x ensures !Listed(s.mb, b, i, x) {}
  }

  // ---------- runs ----------

  /** The state after a whole run, None when it stopped on the way. */
  ghost function Exec(s: Sys, es: seq<Event>): (r: Option<Sys>)
    requires Inv(s)
    ensures r.Some? ==> Inv(r.value) && |r.value.tab.st| == |s.tab.st| && |r.value.mb| == |s.mb|
    decreases |es|
  {
    if es == [] then Some(s) else
      match Exec(s, es[..|es| - 1])
      case None => None
      case Some(m) =>
        if !Allowed(m, es[|es| - 1]) then None else
          StepInv(m, es[|es| - 1]);
          match Step(m, es[|es| - 1])
          case Stop(_) => None
          case Next(m', _, _) => Some(m')
  }

  /** Slots of any reachable state are FREE, READY, current or blocked, each
      exactly one of these, whatever the messages were. */
  lemma SlotPartition(n: nat, boxes: nat, es: seq<Event>)
    requires n > 0
    ensures Inv(Boot(n, boxes))
    ensures Exec(Boot(n, boxes), es).Some? ==>
              var s := Exec(Boot(n, boxes), es).value;
              && s.tab.st[s.tab.curr] == XRUN
              && (forall x :: 0 <= x < n ==>
                    && (s.tab.st[x] == XFREE || s.tab.st[x] == XREADY || x == s.tab.curr || Waiting(s.mb, x))
                    && (Waiting(s.mb, x) <==> s.tab.st[x] == XRUN && x != s.tab.curr))
              && ListedOnce(s.mb)
              && NeverBoth(s.mb)
  {
    BootInv(n, boxes);
    if Exec(Boot(n, boxes), es).Some? {
      var s := Exec(Boot(n, boxes), es).value;
      var free := s.tab.st[s.tab.curr := XREADY];
      forall x | 0 <= x < n
        ensures Waiting(s.mb, x) <==> s.tab.st[x] == XRUN && x != s.tab.curr
      {
        assert Waiting(s.mb, x) <==> free[x] == XRUN;
      }
    }
  }

  lemma SuccWraps(x: nat, n: nat)
    requires x < n
    ensures Succ(x, n) == (x + 1) % n
  {
    if x + 1 < n {
      assert (x + 1) % n == x + 1;
    } else {
      assert (x + 1) % n == 0;
    }
  }

  lemma FreeNotWaiting(s: Sys, x: nat)
    requires Inv(s) && x < |s.tab.st| && s.tab.st[x] == XFREE
    ensures x != s.tab.curr && !Waiting(s.mb, x)
  {
    assert s.tab.st[s.tab.curr := XREADY][x] == XFREE;
  }

  /** The slot handed out by a create is neither the current thread's nor a
      blocked one, and it is the first free slot from the rotating cursor. */
  lemma CreatePicksFirstFree(s: Sys)
    requires Inv(s)
    ensures match CreateIn(s.tab)
            case Some((x, t')) =>
              && s.tab.st[x] == XFREE && x != s.tab.curr && !Waiting(s.mb, x)
              && t' == Table(s.tab.st[x := XREADY], s.tab.curr, (x + 1) % |s.tab.st|)
              && FirstFrom(s.tab.st, s.tab.nextproc, XFREE, x)
            case None => forall j :: 0 <= j < |s.tab.st| ==> s.tab.st[j] != XFREE
  {
    SearchInOrder(s.tab.st, s.tab.nextproc, XFREE);
    match CreateIn(s.tab)
    case None =>
    case Some((x, t')) =>
      SuccWraps(x, |s.tab.st|);
      FreeNotWaiting(s, x);
  }

  /** The next thread is the first READY one after the current slot, going up
      and then from 0 again; the current slot comes last. */
  lemma ReschedPicksFirstReady(t: Table)
    requires t.Valid()
    ensures match Resched(t)
            case Some(t') =>
              && t'.st == t.st[t'.curr := XRUN] && t'.nextproc == t.nextproc
              && FirstFrom(t.st, (t.curr + 1) % |t.st|, XREADY, t'.curr)
            case None => forall j :: 0 <= j < |t.st| ==> t.st[j] != XREADY
  {
    SuccWraps(t.curr, |t.st|);
    SearchInOrder(t.st, Succ(t.curr, |t.st|), XREADY);
  }

  lemma ReschedFails(t: Table)
    requires t.Valid()
    ensures Resched(t).None? <==> forall x :: 0 <= x < |t.st| ==> t.st[x] != XREADY
  {
  }

  /** The library stops for want of a thread exactly when the caller gives up
      the processor for good and every other slot is free or blocked; the
      alarm handler never stops it. It stops for want of a slot exactly on a
      create with no free slot. */
  lemma StopsExactly(s: Sys, e: Event)
    requires Inv(s) && Allowed(s, e)
    ensures s.Valid()
    ensures Step(s, e) == Stop(NoThreadToRun) <==>
              && Reschedules(s, e) && !e.Timer?
              && forall x :: 0 <= x < |s.tab.st| && x != s.tab.curr ==> s.tab.st[x] == XFREE || Waiting(s.mb, x)
    ensures Step(s, e) == Stop(OutOfTable) <==>
              e.Create? && forall x :: 0 <= x < |s.tab.st| ==> s.tab.st[x] != XFREE
  {
    InvIsValid(s);
    var t := s.tab;
    var free := t.st[t.curr := XREADY];
    forall x | 0 <= x < |t.st| && x != t.curr
      ensures (t.st[x] == XFREE || Waiting(s.mb, x)) <==> t.st[x] != XREADY
    {
      assert free[x] == t.st[x];
    }
    match e
    case Create =>
    case Timer => assert free[t.curr] == XREADY;
    case Exit =>
      var t' := t.(st := t.st[t.curr := XFREE]);
      ReschedFails(t');
      forall x | 0 <= x < |t.st| && x != t.curr ensures t'.st[x] == t.st[x] {}
    case _ => ReschedFails(t);
  }

  // ---------- bounded waiting ----------

  /** Slots from the one after the current thread up to x. */
  ghost function Turns(t: Table, x: nat): nat
    requires t.Valid() && x < |t.st|
  {
    Gap(Succ(t.curr, |t.st|), x, |t.st|) + 1
  }

  lemma NearerInRing(n: nat, c: nat, k: nat, x: nat)
    requires c < n && k < n && x < n && k != x
    requires Gap(Succ(c, n), k, n) <= Gap(Succ(c, n), x, n)
    ensures Gap(Succ(k, n), x, n) < Gap(Succ(c, n), x, n)
  {
  }

  lemma ReschedNearer(t: Table, x: nat)
    requires t.Valid() && x < |t.st| && t.st[x] == XREADY
    ensures Resched(t).Some?
    ensures var t' := Resched(t).value;
            t'.curr == x || (t'.st[x] == XREADY && Turns(t', x) < Turns(t, x))
  {
    var k := Resched(t).value.curr;
    if k != x { NearerInRing(|t.st|, t.curr, k, x); }
  }

  lemma StepNearer(s: Sys, e: Event, x: nat)
    requires Inv(s) && Allowed(s, e) && x < |s.tab.st| && s.tab.st[x] == XREADY
    ensures s.Valid()
    ensures Step(s, e).Next? ==>
              var s' := Step(s, e).sys;
              && s'.tab.Valid() && |s'.tab.st| == |s.tab.st|
              && (s'.tab.curr == x ||
                  (s'.tab.st[x] == XREADY &&
                   Turns(s'.tab, x) + (if Reschedules(s, e) then 1 else 0) <= Turns(s.tab, x)))
  {
    StepInv(s, e);
    var t := s.tab;
    match e
    case Create =>
    case Timer => ReschedNearer(t.(st := t.st[t.curr := XREADY]), x);
    case Exit => ReschedNearer(t.(st := t.st[t.curr := XFREE]), x);
    case _ =>
      if MboxCall(s, e).blocks { ReschedNearer(t, x); }
  }

  /** How many calls of resched a run makes. */
  ghost function Rescheds(s: Sys, es: seq<Event>): nat
    requires Inv(s) && Exec(s, es).Some?
    decreases |es|
  {
    if es == [] then 0 else
      var m := Exec(s, es[..|es| - 1]).value;
      Rescheds(s, es[..|es| - 1]) + if Reschedules(m, es[|es| - 1]) then 1 else 0
  }

  ghost predicate Runs(s: Sys, es: seq<Event>, i: nat, x: nat)
    requires Inv(s)
  {
    i <= |es| && Exec(s, es[..i]).Some? && Exec(s, es[..i]).value.tab.curr == x
  }

  lemma {:induction false} WaitsAtMost(s: Sys, es: seq<Event>, x: nat)
    requires Inv(s) && Exec(s, es).Some?
    requires x < |s.tab.st| && s.tab.st[x] == XREADY
    requires forall i: nat :: !Runs(s, es, i, x)
    ensures var s' := Exec(s, es).value;
            s'.tab.st[x] == XREADY && Turns(s'.tab, x) + Rescheds(s, es) <= Turns(s.tab, x)
    decreases |es|
  {
    if es == [] {
    } else {
      var pre := es[..|es| - 1];
      forall i: nat ensures !Runs(s, pre, i, x) {
        assert i <= |pre| ==> pre[..i] == es[..i];
        assert !Runs(s, es, i, x);
      }
      WaitsAtMost(s, pre, x);
      StepNearer(Exec(s, pre).value, es[|es| - 1], x);
      assert es[..|es|] == es;
      assert !Runs(s, es, |es|, x);
    }
  }

  /** A READY thread runs within as many calls of resched as its distance from
      the current thread, so within N - 1 of them. */
  lemma BoundedWaiting(s: Sys, es: seq<Event>, x: nat)
    requires Inv(s) && Exec(s, es).Some?
    requires x < |s.tab.st| && s.tab.st[x] == XREADY
    ensures Turns(s.tab, x) <= |s.tab.st| - 1
    ensures Rescheds(s, es) >= Turns(s.tab, x) ==> exists i :: Runs(s, es, i, x)
  {
    assert s.tab.st[s.tab.curr] == XRUN;
    if forall i: nat :: !Runs(s, es, i, x) { WaitsAtMost(s, es, x); }
  }
}
