/** What a mailbox does over a whole run: the k-th message it accepts is stored
    through the pointer of the k-th receive request, with any number of
    mailboxes, broadcasts and preemptions in between. */
module MailboxOrder {
  import opened Threads
  import opened Wrappers
  import opened ThreadRuns

  // ---------- the history of one mailbox ----------

  predicate On(s: Sys, e: Event, b: nat) {
    (e.Send? || e.Broadcast? || e.Recv?) && e.b == b && b < |s.mb|
  }

  /** An accepted send is one message; an accepted broadcast is one message
      for each thread that is waiting. */
  function AcceptedBy(s: Sys, e: Event, b: nat): seq<int> {
    if !On(s, e, b) || MboxCall(s, e).ret != 0 then []
    else match e
      case Send(_, msg) => [msg]
      case Broadcast(_, msg) => seq(|s.mb[b].queue|, _ => msg)
      case _ => []
  }

  function RequestedBy(s: Sys, e: Event, b: nat): seq<Waiter> {
    if On(s, e, b) && e.Recv? then [Waiter(s.tab.curr, e.dest)] else []
  }

  function DeliveredBy(s: Sys, e: Event, b: nat): seq<Delivery> {
    if On(s, e, b) then MboxCall(s, e).out else []
  }

  datatype History = History(accepted: seq<int>, requested: seq<Waiter>, delivered: seq<Delivery>)

  ghost function HistoryOf(s: Sys, es: seq<Event>, b: nat): History
    requires Inv(s) && Exec(s, es).Some?
    decreases |es|
  {
    if es == [] then History([], [], []) else
      var m := Exec(s, es[..|es| - 1]).value;
      var h := HistoryOf(s, es[..|es| - 1], b);
      var e := es[|es| - 1];
      History(h.accepted + AcceptedBy(m, e, b),
              h.requested + RequestedBy(m, e, b),
              h.delivered + DeliveredBy(m, e, b))
  }

  // ---------- the order ----------

  /** Deliveries pair off requests and messages from the front; what is left
      over is exactly what the box holds. */
  ghost predicate Ordered(h: History, box: Mbox) {
    && |h.delivered| <= |h.accepted|
    && |h.delivered| <= |h.requested|
    && (forall k :: 0 <= k < |h.delivered| ==> h.delivered[k] == Delivery(h.requested[k], h.accepted[k]))
    && h.requested[|h.delivered|..] == box.queue
    && h.accepted[|h.delivered|..] == if box.message == EMPTY then [] else [box.message]
  }

  /** Every message that is sent or broadcast passes the test p. */
  ghost predicate Messages(es: seq<Event>, p: int -> bool) {
    forall i :: 0 <= i < |es| ==>
      && (es[i].Send? ==> p(es[i].msg))
      && (es[i].Broadcast? ==> p(es[i].msg))
  }

  ghost predicate Positive(es: seq<Event>) {
    Messages(es, x => x > 0)
  }

  ghost predicate GoodBox(box: Mbox) {
    (box.message == EMPTY || box.message > 0) && (box.message != EMPTY ==> box.queue == [])
  }

  function Extend(h: History, a: seq<int>, r: seq<Waiter>, d: seq<Delivery>): History {
    History(h.accepted + a, h.requested + r, h.delivered + d)
  }

  lemma StoreOrdered(h: History, msg: int)
    requires msg > 0 && Ordered(h, FRESH_MBOX)
    ensures Ordered(Extend(h, [msg], [], []), Mbox(msg, []))
  {
    assert h.delivered + [] == h.delivered && h.requested + [] == h.requested;
  }

  lemma TakeOrdered(h: History, msg: int, w: Waiter)
    requires msg != EMPTY && Ordered(h, Mbox(msg, []))
    ensures Ordered(Extend(h, [], [w], [Delivery(w, msg)]), FRESH_MBOX)
  {
    assert h.accepted + [] == h.accepted;
    assert h.accepted[|h.delivered|..][0] == msg;
  }

  lemma QueueOrdered(h: History, q: seq<Waiter>, w: Waiter)
    requires Ordered(h, Mbox(EMPTY, q))
    ensures Ordered(Extend(h, [], [w], []), Mbox(EMPTY, q + [w]))
  {
    assert h.accepted + [] == h.accepted && h.delivered + [] == h.delivered;
  }

  /** The first k waiters get one message each. */
  lemma HandOverOrdered(h: History, q: seq<Waiter>, k: nat, msg: int)
    requires k <= |q| && Ordered(h, Mbox(EMPTY, q))
    ensures Ordered(Extend(h, seq(k, _ => msg), [], DeliverAll(q[..k], msg)), Mbox(EMPTY, q[k..]))
  {
    var n := |h.delivered|;
    assert h.requested + [] == h.requested;
    assert |h.accepted| == n by { assert |h.accepted[n..]| == 0; }
    forall i | 0 <= i < k ensures h.requested[n + i] == q[i] {
      assert h.requested[n..][i] == q[i];
    }
    assert h.requested[n + k..] == h.requested[n..][k..];
  }

  lemma CallOrdered(s: Sys, e: Event, b: nat, h: History)
    requires On(s, e, b) && GoodBox(s.mb[b]) && Ordered(h, s.mb[b])
    requires (e.Send? || e.Broadcast?) ==> e.msg > 0
    ensures GoodBox(MboxCall(s, e).box)
    ensures Ordered(Extend(h, AcceptedBy(s, e, b), RequestedBy(s, e, b), DeliveredBy(s, e, b)), MboxCall(s, e).box)
  {
    var m := s.mb[b];
    var w := Waiter(s.tab.curr, if e.Recv? then e.dest else 0);
    if e.Recv? {
      if m.message == EMPTY { QueueOrdered(h, m.queue, w); } else { TakeOrdered(h, m.message, w); }
    } else if m.message > 0 || (e.Broadcast? && m.queue == []) {
      assert Extend(h, [], [], []) == h;
    } else if m.queue == [] {
      StoreOrdered(h, e.msg);
    } else if e.Send? {
      HandOverOrdered(h, m.queue, 1, e.msg);
      assert DeliverAll(m.queue[..1], e.msg) == [Delivery(m.queue[0], e.msg)];
      assert seq(1, _ => e.msg) == [e.msg];
    } else {
      HandOverOrdered(h, m.queue, |m.queue|, e.msg);
      assert m.queue[..|m.queue|] == m.queue && m.queue[|m.queue|..] == [];
    }
  }

  lemma OtherBoxes(s: Sys, e: Event, b: nat)
    requires s.Valid() && Allowed(s, e) && b < |s.mb| && Step(s, e).Next?
    ensures b < |Step(s, e).sys.mb|
    ensures Step(s, e).sys.mb[b] == if On(s, e, b) then MboxCall(s, e).box else s.mb[b]
  {
  }

  lemma {:induction false} OrderKept(s: Sys, es: seq<Event>, b: nat)
    requires Inv(s) && b < |s.mb| && s.mb[b] == FRESH_MBOX
    requires Positive(es) && Exec(s, es).Some?
    ensures var box := Exec(s, es).value.mb[b];
            GoodBox(box) && Ordered(HistoryOf(s, es, b), box)
    decreases |es|
  {
    if es == [] {
    } else {
      var pre, e := es[..|es| - 1], es[|es| - 1];
      OrderKept(s, pre, b);
      var m := Exec(s, pre).value;
      StepInv(m, e);
      OtherBoxes(m, e, b);
      var h := HistoryOf(s, pre, b);
      assert HistoryOf(s, es, b) == Extend(h, AcceptedBy(m, e, b), RequestedBy(m, e, b), DeliveredBy(m, e, b));
      if On(m, e, b) {
        CallOrdered(m, e, b, h);
      } else {
        assert Extend(h, [], [], []) == h;
      }
    }
  }

  /** Deliveries are the accepted messages in order, each given to the request
      with the same number; nothing is lost or delivered twice, and the
      surplus is the stored message or the queue. */
  ghost predicate Fifo(s: Sys, es: seq<Event>, b: nat)
    requires Inv(s) && b < |s.mb| && Exec(s, es).Some?
  {
    var h, box := HistoryOf(s, es, b), Exec(s, es).value.mb[b];
    && |h.delivered| == (if |h.accepted| <= |h.requested| then |h.accepted| else |h.requested|)
    && (forall k :: 0 <= k < |h.delivered| ==>
          h.delivered[k].to == h.requested[k] && h.delivered[k].msg == h.accepted[k])
    && |h.accepted| - |h.requested| == (if box.message == EMPTY then 0 else 1) - |box.queue|
  }

  lemma FifoDelivery(n: nat, boxes: nat, es: seq<Event>, b: nat)
    requires n > 0 && b < boxes && Positive(es)
    ensures Inv(Boot(n, boxes))
    ensures Exec(Boot(n, boxes), es).Some? ==> Fifo(Boot(n, boxes), es, b)
  {
    BootInv(n, boxes);
    var s := Boot(n, boxes);
    if Exec(s, es).Some? {
      OrderKept(s, es, b);
      var h, box := HistoryOf(s, es, b), Exec(s, es).value.mb[b];
      assert |h.requested| - |h.delivered| == |box.queue|;
    }
  }

  // ---------- what the callers are told ----------

  /** A send is refused with -1 exactly if the box holds a message above zero and
      accepted with 0 otherwise; so is a broadcast, but with no waiter to serve
      it says -2. A message that is stored or served is one of these calls'. */
  lemma Returned(s: Sys, b: nat, msg: int)
    requires Inv(s) && b < |s.mb|
    ensures s.Valid() && Step(s, Send(b, msg)).Next? && Step(s, Broadcast(b, msg)).Next?
    ensures Step(s, Send(b, msg)).ret == if s.mb[b].message > 0 then -1 else 0
    ensures Step(s, Broadcast(b, msg)).ret ==
            if s.mb[b].message > 0 then -1 else if |s.mb[b].queue| == 0 then -2 else 0
    ensures |Step(s, Send(b, msg)).out| == if s.mb[b].message > 0 || |s.mb[b].queue| == 0 then 0 else 1
    ensures |Step(s, Broadcast(b, msg)).out| == if s.mb[b].message > 0 then 0 else |s.mb[b].queue|
    ensures Step(s, Send(b, msg)).sys.mb[b].message ==
            if s.mb[b].message <= 0 && |s.mb[b].queue| == 0 then msg else s.mb[b].message
    ensures Step(s, Broadcast(b, msg)).sys.mb[b].message == s.mb[b].message
  {
    InvIsValid(s);
  }

  // ---------- why messages have to be positive ----------

  lemma StoresOver(t: Table, old': int, m: int)
    requires t.Valid() && old' <= 0
    ensures var s := Sys(t, [Mbox(old', [])]); s.Valid() && Step(s, Send(0, m)) == Next(Sys(t, [Mbox(m, [])]), [], 0)
  {
    assert Wake(t.st, []) == t.st;
  }

  /** "Full" is tested as > 0 but "empty" as == -1, so any other message can
      be stored and then overwritten or never seen. */
  lemma LosesMessage(m: int)
    requires m <= 0
    ensures Inv(Boot(1, 1))
    ensures var s := Boot(1, 1); var es := [Send(0, m), Send(0, m)];
            Messages(es, x => x == m) && Exec(s, es).Some? && !Fifo(s, es, 0)
  {
    BootInv(1, 1);
    var s0 := Boot(1, 1);
    var es := [Send(0, m), Send(0, m)];
    assert es[..1] == [Send(0, m)] && es[..1][..0] == [];
    var s1 := Sys(s0.tab, [Mbox(m, [])]);
    assert s0 == Sys(s0.tab, [Mbox(EMPTY, [])]);
    StoresOver(s0.tab, EMPTY, m);
    StoresOver(s0.tab, m, m);
    assert Exec(s0, es[..1][..0]) == Some(s0);
    assert Exec(s0, es[..1]) == Some(s1);
    assert Exec(s0, es) == Some(s1);
    var h0 := HistoryOf(s0, es[..1][..0], 0);
    var h1 := HistoryOf(s0, es[..1], 0);
    assert h1.accepted == [m] && h1.requested == [];
    assert HistoryOf(s0, es, 0).accepted == [m, m];
  }

  ghost predicate FifoFor(m: int, n: nat, boxes: nat, es: seq<Event>, b: nat)
    requires n > 0 && Inv(Boot(n, boxes))
  {
    b < boxes && Messages(es, x => x == m) && Exec(Boot(n, boxes), es).Some? ==> Fifo(Boot(n, boxes), es, b)
  }

  /** A message value is carried faithfully by every run exactly when it is
      positive. */
  lemma FifoExactlyPositive(m: int)
    ensures forall n: nat, boxes: nat :: n > 0 ==> Inv(Boot(n, boxes))
    ensures m > 0 <==>
            forall n: nat, boxes: nat, es, b: nat :: n > 0 ==> FifoFor(m, n, boxes, es, b)
  {
    forall n: nat, boxes: nat | n > 0 ensures Inv(Boot(n, boxes)) { BootInv(n, boxes); }
    if m > 0 {
      forall n: nat, boxes: nat, es, b: nat | n > 0 ensures FifoFor(m, n, boxes, es, b) {
        if b < boxes && Messages(es, x => x == m) {
          assert Positive(es);
          FifoDelivery(n, boxes, es, b);
        }
      }
    } else {
      LosesMessage(m);
      assert !FifoFor(m, 1, 1, [Send(0, m), Send(0, m)], 0);
    }
  }

  // ---------- why a receive has to be atomic ----------

  /** The emptiness test of a receive runs before the alarm is disabled. When
      the caller queues itself on the strength of an old test, the invariant
      survives exactly if the box is still empty at that moment. */
  lemma LateQueueing(s: Sys, b: nat, dest: int)
    requires Inv(s) && b < |s.mb|
    ensures Parked(s.tab.st, s.mb[b := QueueSelf(s.mb[b], Waiter(s.tab.curr, dest))]) <==>
            s.mb[b].message == EMPTY
  {
    var w := Waiter(s.tab.curr, dest);
    var free := s.tab.st[s.tab.curr := XREADY];
    var mb' := s.mb[b := QueueSelf(s.mb[b], w)];
    if s.mb[b].message == EMPTY {
      ParkedEnqueue(free, s.mb, b, w);
      assert free[w.xid := XRUN] == s.tab.st;
    } else {
      assert mb'[b].message != EMPTY && mb'[b].queue != [];
    }
  }

  /** The other branch: a receiver that saw a message takes what is there when
      it goes on. That is a receive from the box as it is then, and the word
      stored is a message, exactly if the box has not been emptied meanwhile;
      the invariant survives either way. */
  lemma LateTake(s: Sys, b: nat, dest: int)
    requires Inv(s) && b < |s.mb|
    ensures var me := Waiter(s.tab.curr, dest);
            && (TakeFrom(s.mb[b], me) == RecvFrom(s.mb[b], me) <==> s.mb[b].message != EMPTY)
            && (TakeFrom(s.mb[b], me).out == [Delivery(me, EMPTY)] <==> s.mb[b].message == EMPTY)
            && Inv(s.(mb := s.mb[b := TakeFrom(s.mb[b], me).box]))
  {
    var free := s.tab.st[s.tab.curr := XREADY];
    if s.mb[b].message == EMPTY {
      assert s.mb[b := TakeFrom(s.mb[b], Waiter(s.tab.curr, dest)).box] == s.mb;
    } else {
      ParkedMessage(free, s.mb, b, EMPTY);
    }
  }

  lemma ExecSnoc(s: Sys, es: seq<Event>, e: Event, m: Sys)
    requires Inv(s) && Exec(s, es) == Some(m) && Allowed(m, e)
    ensures m.Valid()
    ensures Exec(s, es + [e]) == if Step(m, e).Next? then Some(Step(m, e).sys) else None
  {
    InvIsValid(m);
    assert (es + [e])[..|es|] == es;
  }

  /** Such a late receiver exists: thread 0 tests the empty box and is
      preempted, thread 1 stores a message and is preempted in turn. */
  lemma LateReceiverReachable()
    ensures Inv(Boot(2, 1))
    ensures FRESH_MBOX == Boot(2, 1).mb[0]
    ensures Exec(Boot(2, 1), [Create] + [Timer] + [Send(0, 7)] + [Timer])
            == Some(Sys(Table([XRUN, XREADY], 0, 0), [Mbox(7, [])]))
  {
    BootInv(2, 1);
    var s0 := Boot(2, 1);
    assert s0.tab.st == [XRUN, XFREE];
    assert [] + [Create] == [Create];
    ExecSnoc(s0, [], Create, s0);
    var s1 := Sys(Table([XRUN, XREADY], 0, 0), [FRESH_MBOX]);
    assert Step(s0, Create).sys == s1;
    ExecSnoc(s0, [Create], Timer, s1);
    var s2 := Sys(Table([XREADY, XRUN], 1, 0), [FRESH_MBOX]);
    assert Step(s1, Timer).sys == s2;
    ExecSnoc(s0, [Create] + [Timer], Send(0, 7), s2);
    var s3 := Sys(Table([XREADY, XRUN], 1, 0), [Mbox(7, [])]);
    assert Step(s2, Send(0, 7)).sys == s3;
    ExecSnoc(s0, [Create] + [Timer] + [Send(0, 7)], Timer, s3);
    assert Step(s3, Timer).sys == Sys(Table([XRUN, XREADY], 0, 0), [Mbox(7, [])]);
  }

  /** And so does a late taker: thread 0 sees the message it has sent and is
      preempted, thread 1 takes it and is preempted in turn. */
  lemma LateTakerReachable()
    ensures Inv(Boot(2, 1))
    ensures Exec(Boot(2, 1), [Create] + [Send(0, 7)]) == Some(Sys(Table([XRUN, XREADY], 0, 0), [Mbox(7, [])]))
    ensures Exec(Boot(2, 1), [Create] + [Send(0, 7)] + [Timer] + [Recv(0, 100)] + [Timer])
            == Some(Sys(Table([XRUN, XREADY], 0, 0), [FRESH_MBOX]))
  {
    BootInv(2, 1);
    var s0 := Boot(2, 1);
    assert s0.tab.st == [XRUN, XFREE];
    assert [] + [Create] == [Create];
    ExecSnoc(s0, [], Create, s0);
    var s1 := Sys(Table([XRUN, XREADY], 0, 0), [FRESH_MBOX]);
    assert Step(s0, Create).sys == s1;
    ExecSnoc(s0, [Create], Send(0, 7), s1);
    var s2 := Sys(Table([XRUN, XREADY], 0, 0), [Mbox(7, [])]);
    StoresOver(s1.tab, EMPTY, 7);
    ExecSnoc(s0, [Create] + [Send(0, 7)], Timer, s2);
    var s3 := Sys(Table([XREADY, XRUN], 1, 0), [Mbox(7, [])]);
    assert Step(s2, Timer).sys == s3;
    ExecSnoc(s0, [Create] + [Send(0, 7)] + [Timer], Recv(0, 100), s3);
    var s4 := Sys(Table([XREADY, XRUN], 1, 0), [FRESH_MBOX]);
    assert Wake(s3.tab.st, []) == s3.tab.st;
    assert Step(s3, Recv(0, 100)).sys == s4;
    ExecSnoc(s0, [Create] + [Send(0, 7)] + [Timer] + [Recv(0, 100)], Timer, s4);
    assert Step(s4, Timer).sys == Sys(Table([XRUN, XREADY], 0, 0), [FRESH_MBOX]);
  }

  /** Running on paper only: not current, not READY, and in no queue. */
  ghost predicate Orphan(s: Sys, x: nat) {
    s.Valid() && x < |s.tab.st| && x != s.tab.curr && s.tab.st[x] == XRUN && !Waiting(s.mb, x)
  }

  lemma OrphanForever(s: Sys, e: Event, x: nat)
    requires Orphan(s, x) && Allowed(s, e)
    ensures Step(s, e).Next? ==> Orphan(Step(s, e).sys, x)
  {
    if (e.Send? || e.Broadcast? || e.Recv?) && Step(s, e).Next? {
      var c := MboxCall(s, e);
      var mb' := s.mb[e.b := c.box];
      forall i | 0 <= i < |c.woken| ensures c.woken[i].xid != x
      {
        assert Listed(s.mb, e.b, i, c.woken[i].xid);
      }
      forall d, i ensures !Listed(mb', d, i, x) {
        assert !Listed(s.mb, d, i, x) && !Listed(s.mb, d, i + 1, x);
      }
    }
  }

  lemma EarlyWake()
    ensures var s := Sys(Table([XREADY, XRUN], 1, 0), [QueueSelf(FRESH_MBOX, Waiter(0, 100))]);
            s.Valid() && Step(s, Send(0, 7)) == Next(Sys(s.tab, [FRESH_MBOX]), [Delivery(Waiter(0, 100), 7)], 0)
  {
    var s := Sys(Table([XREADY, XRUN], 1, 0), [QueueSelf(FRESH_MBOX, Waiter(0, 100))]);
    var q := s.mb[0].queue;
    assert q == [Waiter(0, 100)] && q[1..] == [];
    assert Wake(s.tab.st, [q[0]]) == s.tab.st by {
      assert Among(0, [q[0]]) by { assert [q[0]][0].xid == 0; }
    }
  }

  /** The alarm is re-armed before the receiver's own resched. If it fires in
      between, a send wakes the receiver early; its own resched then leaves it
      an orphan. Each state follows from the one before by the named step. */
  lemma EarlyAlarmOrphans()
    ensures var s1 := Sys(Table([XRUN, XREADY], 0, 0), [FRESH_MBOX]);
            var q := s1.(mb := [QueueSelf(FRESH_MBOX, Waiter(0, 100))]);
            var s2 := Sys(Table([XREADY, XRUN], 1, 0), q.mb);
            var s3 := Sys(s2.tab, [FRESH_MBOX]);
            var s4 := Sys(Table([XRUN, XREADY], 0, 0), [FRESH_MBOX]);
            && Inv(Boot(2, 1)) && Exec(Boot(2, 1), [Create]) == Some(s1)
            && q.Valid() && Step(q, Timer) == Next(s2, [], 0)
            && s2.Valid() && Step(s2, Send(0, 7)) == Next(s3, [Delivery(Waiter(0, 100), 7)], 0)
            && s3.Valid() && Step(s3, Timer) == Next(s4, [], 0)
            && s4.tab.Valid() && Resched(s4.tab).Some?
            && Orphan(Sys(Resched(s4.tab).value, s4.mb), 0)
  {
    BootInv(2, 1);
    var s0 := Boot(2, 1);
    assert s0.tab.st == [XRUN, XFREE];
    assert [] + [Create] == [Create];
    ExecSnoc(s0, [], Create, s0);
    var s1 := Sys(Table([XRUN, XREADY], 0, 0), [FRESH_MBOX]);
    assert Step(s0, Create).sys == s1;
    var q := s1.(mb := [QueueSelf(FRESH_MBOX, Waiter(0, 100))]);
    var s2 := Sys(Table([XREADY, XRUN], 1, 0), q.mb);
    assert Step(q, Timer).sys == s2;
    var s3 := Sys(s2.tab, [FRESH_MBOX]);
    EarlyWake();
    forall x: nat ensures !Waiting(s3.mb, x) {
      forall b, i ensures !Listed(s3.mb, b, i, x) {}
    }
  }
}
