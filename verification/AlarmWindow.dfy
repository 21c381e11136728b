/** The alarm between the enqueue of a receive and its own resched: the receiver
    is listed in a box and made READY by the handler at once. What becomes of it,
    for every run of the other threads. */
module AlarmWindow {
  import opened Threads
  import opened Wrappers
  import opened ThreadRuns
  import opened MailboxOrder

  // ---------- a slot that is READY although it is listed ----------

  /** The state in which x would be properly blocked. */
  function Shadow(s: Sys, x: nat): Sys
    requires x < |s.tab.st|
  {
    s.(tab := s.tab.(st := s.tab.st[x := XRUN]))
  }

  /** x is off the processor, READY, and still inside its receive. */
  ghost predicate Away(s: Sys, x: nat) {
    && s.Valid() && x < |s.tab.st| && x != s.tab.curr && s.tab.st[x] == XREADY
    && if Waiting(s.mb, x) then Inv(Shadow(s, x)) else Inv(s)
  }

  /** x has the processor again and is about to call its own resched. */
  ghost predicate Back(s: Sys, x: nat) {
    && s.Valid() && x == s.tab.curr && s.tab.st[x] == XRUN
    && if Waiting(s.mb, x) then Parked(s.tab.st, s.mb) else Inv(s)
  }

  /** The event takes x off a list: a send or broadcast that serves it. */
  ghost predicate Served(s: Sys, e: Event, x: nat) {
    Allowed(s, e) && (e.Send? || e.Broadcast?) && Among(x, MboxCall(s, e).woken)
  }

  // ---------- what the searches do with the extra READY slot ----------

  lemma {:induction false} SearchSame(st: seq<XState>, other: seq<XState>, start: nat, k: nat, want: XState)
    requires |other| == |st| && start < |st| && k <= |st|
    requires forall j :: 0 <= j < |st| ==> (st[j] == want <==> other[j] == want)
    ensures SearchFrom(other, start, k, want) == SearchFrom(st, start, k, want)
    decreases |st| - k
  {
    if k == |st| {
    } else {
      SearchSame(st, other, start, k + 1, want);
    }
  }

  lemma {:induction false} SearchSkips(st: seq<XState>, start: nat, k: nat, want: XState, x: nat, v: XState)
    requires start < |st| && k <= |st| && x < |st| && v != want
    requires SearchFrom(st, start, k, want).Some? && SearchFrom(st, start, k, want) != Some(x)
    ensures SearchFrom(st[x := v], start, k, want) == SearchFrom(st, start, k, want)
    decreases |st| - k
  {
    if st[At(start, k, |st|)] == want {
    } else {
      SearchSkips(st, start, k + 1, want, x, v);
    }
  }

  // ---------- steps that end in resched ----------

  lemma ValidWhenParked(s: Sys)
    requires s.tab.Valid() && Parked(s.tab.st, s.mb)
    ensures s.Valid()
  {
    forall b, i | 0 <= b < |s.mb| && 0 <= i < |s.mb[b].queue| ensures s.mb[b].queue[i].xid < |s.tab.st| {
      assert Listed(s.mb, b, i, s.mb[b].queue[i].xid);
    }
  }

  /** resched from a table in which x is READY although it is listed. */
  lemma ReschedAway(t: Table, mb: seq<Mbox>, x: nat)
    requires t.Valid() && x < |t.st| && t.st[x] == XREADY && Parked(t.st[x := XRUN], mb)
    requires Resched(t).Some?
    ensures Waiting(mb, x)
    ensures var s' := Sys(Resched(t).value, mb); Away(s', x) || Back(s', x)
  {
    var th := t.(st := t.st[x := XRUN]);
    var k := Resched(t).value.curr;
    assert th.st[x] == XRUN;
    if k == x {
      ValidWhenParked(Sys(Resched(t).value, mb));
    } else {
      SearchSkips(t.st, Succ(t.curr, |t.st|), 0, XREADY, x, XRUN);
      ReschedInv(th, mb);
      var s' := Sys(Resched(t).value, mb);
      assert Shadow(s', x) == Sys(Resched(th).value, mb);
      InvIsValid(Shadow(s', x));
    }
  }

  lemma YieldAway(s: Sys, e: Event, x: nat)
    requires Away(s, x) && Waiting(s.mb, x) && Allowed(s, e) && Reschedules(s, e) && Step(s, e).Next?
    ensures var s' := Step(s, e).sys; Waiting(s'.mb, x) && (Away(s', x) || Back(s', x))
  {
    var h := Shadow(s, x);
    YieldIs(s, e);
    YieldParked(h, e);
    var t := YieldTable(s, e);
    assert YieldTable(h, e).st == t.st[x := XRUN] && YieldBoxes(h, e) == YieldBoxes(s, e);
    ReschedAway(t, YieldBoxes(s, e), x);
  }

  // ---------- steps that keep the processor ----------

  lemma CreateAway(s: Sys, x: nat)
    requires Away(s, x) && Waiting(s.mb, x) && Step(s, Create).Next?
    ensures var s' := Step(s, Create).sys; s'.mb == s.mb && Away(s', x)
  {
    var h := Shadow(s, x);
    SearchSame(s.tab.st, h.tab.st, s.tab.nextproc, 0, XFREE);
    StepInv(h, Create);
    var s' := Step(s, Create).sys;
    assert Shadow(s', x) == Step(h, Create).sys;
    InvIsValid(Shadow(s', x));
  }

  /** A call that does not block does the same to the state and its shadow. */
  lemma ShadowBoxStep(s: Sys, e: Event, x: nat)
    requires Away(s, x) && Waiting(s.mb, x) && Allowed(s, e) && !Reschedules(s, e) && !e.Create?
    ensures var h := Shadow(s, x);
            && h.Valid() && Step(s, e).Next? && Step(h, e).Next? && |Step(s, e).sys.tab.st| == |s.tab.st|
            && if Served(s, e, x) then Step(h, e).sys == Step(s, e).sys && Step(s, e).sys.tab.st[x] == XREADY
               else Step(h, e).sys == Shadow(Step(s, e).sys, x) && Step(s, e).sys.tab.st[x] == XREADY
  {
    var h := Shadow(s, x);
    InvIsValid(h);
    var c := MboxCall(s, e);
    assert c == MboxCall(h, e);
    if Among(x, c.woken) {
      assert Wake(h.tab.st, c.woken) == Wake(s.tab.st, c.woken);
    } else {
      assert Wake(h.tab.st, c.woken) == Wake(s.tab.st, c.woken)[x := XRUN];
    }
  }

  lemma NotWaiting(s: Sys, x: nat)
    requires Inv(s) && x < |s.tab.st| && (s.tab.st[x] == XREADY || x == s.tab.curr)
    ensures !Waiting(s.mb, x)
  {
    forall b, i ensures !Listed(s.mb, b, i, x) {
      assert s.tab.st[s.tab.curr := XREADY][x] == XREADY;
    }
  }

  lemma StillWaiting(s: Sys, x: nat)
    requires Inv(s) && x < |s.tab.st| && x != s.tab.curr && s.tab.st[x] == XRUN
    ensures Waiting(s.mb, x)
  {
    assert s.tab.st[s.tab.curr := XREADY][x] == XRUN;
  }

  lemma BoxAway(s: Sys, e: Event, x: nat)
    requires Away(s, x) && Waiting(s.mb, x) && Allowed(s, e) && !Reschedules(s, e) && !e.Create?
    ensures Step(s, e).Next? && Away(Step(s, e).sys, x)
    ensures Waiting(Step(s, e).sys.mb, x) <==> !Served(s, e, x)
  {
    var h := Shadow(s, x);
    StepInv(h, e);
    ShadowBoxStep(s, e, x);
    var s', h' := Step(s, e).sys, Step(h, e).sys;
    if Served(s, e, x) {
      NotWaiting(h', x);
      InvIsValid(s');
    } else {
      StillWaiting(h', x);
      InvIsValid(h');
    }
  }

  /** Once x has been served it is an ordinary READY thread. */
  lemma ServedAway(s: Sys, e: Event, x: nat)
    requires Away(s, x) && !Waiting(s.mb, x) && Allowed(s, e)
    ensures !Served(s, e, x)
    ensures Step(s, e).Next? ==>
              var s' := Step(s, e).sys; !Waiting(s'.mb, x) && (Away(s', x) || Back(s', x))
  {
    if e.Send? || e.Broadcast? {
      forall i | 0 <= i < |MboxCall(s, e).woken| ensures MboxCall(s, e).woken[i].xid != x {
        assert !Listed(s.mb, e.b, i, x);
      }
    }
    if Step(s, e).Next? {
      StepInv(s, e);
      StepNearer(s, e, x);
      NotWaiting(Step(s, e).sys, x);
      InvIsValid(Step(s, e).sys);
    }
  }

  lemma AwayStep(s: Sys, e: Event, x: nat)
    requires Away(s, x) && Allowed(s, e) && Step(s, e).Next?
    ensures var s' := Step(s, e).sys;
            && (Away(s', x) || Back(s', x))
            && (Waiting(s'.mb, x) <==> Waiting(s.mb, x) && !Served(s, e, x))
  {
    if !Waiting(s.mb, x) {
      ServedAway(s, e, x);
    } else if Reschedules(s, e) {
      YieldAway(s, e, x);
    } else if e.Create? {
      CreateAway(s, x);
    } else {
      BoxAway(s, e, x);
    }
  }

  // ---------- runs up to x's own resched ----------

  /** The run es leads from s to f, where x has the processor for the first
      time. */
  ghost predicate ComesBack(s: Sys, es: seq<Event>, x: nat, f: Sys)
    decreases |es|
  {
    if es == [] then s == f && s.tab.curr == x
    else
      && s.Valid() && s.tab.curr != x && Allowed(s, es[0]) && Step(s, es[0]).Next?
      && ComesBack(Step(s, es[0]).sys, es[1..], x, f)
  }

  /** Some event of the run serves x. */
  ghost predicate ServedIn(s: Sys, es: seq<Event>, x: nat)
    decreases |es|
  {
    && es != [] && s.Valid() && Allowed(s, es[0]) && Step(s, es[0]).Next?
    && (Served(s, es[0], x) || ServedIn(Step(s, es[0]).sys, es[1..], x))
  }

  lemma {:induction false} WindowRun(s: Sys, es: seq<Event>, x: nat, f: Sys)
    requires (Away(s, x) || Back(s, x)) && ComesBack(s, es, x, f)
    ensures Back(f, x)
    ensures Waiting(f.mb, x) <==> Waiting(s.mb, x) && !ServedIn(s, es, x)
    decreases |es|
  {
    if es == [] {
    } else {
      AwayStep(s, es[0], x);
      WindowRun(Step(s, es[0]).sys, es[1..], x, f);
    }
  }

  /** x's own resched: it is blocked as a receiver should be if it is still
      listed, and an orphan if it is not. */
  lemma OwnResched(f: Sys, x: nat)
    requires Back(f, x) && Resched(f.tab).Some?
    ensures var r := Sys(Resched(f.tab).value, f.mb);
            && (Inv(r) <==> Waiting(f.mb, x))
            && (Orphan(r, x) <==> !Waiting(f.mb, x))
  {
    var r := Sys(Resched(f.tab).value, f.mb);
    assert r.tab.curr != x && r.tab.st[x] == XRUN;
    if Waiting(f.mb, x) {
      ReschedInv(f.tab, f.mb);
    } else if Inv(r) {
      StillWaiting(r, x);
    }
  }

  lemma AlarmFires(s: Sys, b: nat, dest: int)
    requires Inv(s) && b < |s.mb| && s.mb[b].message == EMPTY
    ensures var x := s.tab.curr;
            var q := s.(mb := s.mb[b := QueueSelf(s.mb[b], Waiter(x, dest))]);
            && q.Valid() && Step(q, Timer).Next? && Waiting(Step(q, Timer).sys.mb, x)
            && (Away(Step(q, Timer).sys, x) || Back(Step(q, Timer).sys, x))
  {
    var x := s.tab.curr;
    var q := s.(mb := s.mb[b := QueueSelf(s.mb[b], Waiter(x, dest))]);
    LateQueueing(s, b, dest);
    ValidWhenParked(q);
    var t := YieldTable(q, Timer);
    YieldIs(q, Timer);
    assert t.st[x := XRUN] == s.tab.st && t.st[x] == XREADY;
    ReschedFails(t);
    ReschedAway(t, q.mb, x);
  }

  /** The alarm fires after x has queued itself and before it calls resched.
      Then, for every run of the others up to the moment x has the processor
      again, its own resched restores the invariant exactly if no send or
      broadcast served x in between, and otherwise makes x an orphan. */
  lemma EarlyAlarmExactly(s: Sys, b: nat, dest: int, es: seq<Event>, f: Sys)
    requires Inv(s) && b < |s.mb| && s.mb[b].message == EMPTY
    ensures var x := s.tab.curr;
            var q := s.(mb := s.mb[b := QueueSelf(s.mb[b], Waiter(x, dest))]);
            && q.Valid() && Step(q, Timer).Next?
            && var s1 := Step(q, Timer).sys;
               ComesBack(s1, es, x, f) ==>
                 && f.tab.Valid()
                 && (Resched(f.tab).Some? ==>
                       var r := Sys(Resched(f.tab).value, f.mb);
                       && (Inv(r) <==> !ServedIn(s1, es, x))
                       && (Orphan(r, x) <==> ServedIn(s1, es, x)))
  {
    var x := s.tab.curr;
    var q := s.(mb := s.mb[b := QueueSelf(s.mb[b], Waiter(x, dest))]);
    AlarmFires(s, b, dest);
    var s1 := Step(q, Timer).sys;
    if ComesBack(s1, es, x, f) {
      WindowRun(s1, es, x, f);
      if Resched(f.tab).Some? { OwnResched(f, x); }
    }
  }

  // ---------- the same window in userret ----------

  /** After the alarm the interrupted thread is READY and in no list, or running
      again at once. */
  lemma ReadyAgain(s: Sys)
    requires Inv(s)
    ensures s.Valid()
    ensures Step(s, Timer).Next? ==>
              var s1, x := Step(s, Timer).sys, s.tab.curr; !Waiting(s1.mb, x) && (Away(s1, x) || Back(s1, x))
  {
    InvIsValid(s);
    NotWaiting(s, s.tab.curr);
    if Step(s, Timer).Next? {
      StepInv(s, Timer);
      InvIsValid(Step(s, Timer).sys);
    }
  }

  /** userret marks its slot FREE with the alarm still live. If the alarm fires
      before its resched, the handler makes the finished thread READY again;
      for every run of the others, when it has the processor next, its own
      resched leaves it an orphan, and its slot is lost. */
  lemma LateExitOrphans(s: Sys, es: seq<Event>, f: Sys)
    requires Inv(s)
    ensures var x := s.tab.curr;
            var q := s.(tab := s.tab.(st := s.tab.st[x := XFREE]));
            && s.Valid() && q.Valid() && Step(q, Timer) == Step(s, Timer) && Step(q, Timer).Next?
            && (ComesBack(Step(q, Timer).sys, es, x, f) ==>
                  f.tab.Valid() && (Resched(f.tab).Some? ==> Orphan(Sys(Resched(f.tab).value, f.mb), x)))
  {
    var x := s.tab.curr;
    var q := s.(tab := s.tab.(st := s.tab.st[x := XFREE]));
    InvIsValid(s);
    assert q.tab.st[x := XREADY] == s.tab.st[x := XREADY];
    var t := YieldTable(s, Timer);
    assert t.st[x] == XREADY;
    ReschedFails(t);
    StepInv(s, Timer);
    var s1 := Step(s, Timer).sys;
    ReadyAgain(s);
    if ComesBack(s1, es, x, f) {
      WindowRun(s1, es, x, f);
      if Resched(f.tab).Some? { OwnResched(f, x); }
    }
  }
}
