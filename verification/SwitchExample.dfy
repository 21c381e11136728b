/** One run of the machine, step by step: two threads that switch to each other
    and back. It shows that the theorems about leaving and returning speak of
    real runs, and that a register other than those saved is lost. */
module SwitchExample {
  import opened Threads
  import opened Wrappers
  import opened ThreadRuns
  import opened Machine
  import opened MachineRuns
  import opened SwitchedBack

  /** Two stacks of twenty words, two stack pointers, main's stack and m.xregs. */
  const LAYOUT := Layout([0, 20], [20, 40], [40, 41], 49, 100, 101)

  const MAIN := Cpu(48, 0, 0, 0, 0, 0)

  lemma LayoutValid()
    ensures LAYOUT.Valid(2) && MainOutside(LAYOUT, 2, MAIN, 48)
  {
    forall x: nat, y: nat, a | LAYOUT.InStack(x, a) && LAYOUT.InStack(y, a) ensures x == y {
      assert x == 0 || x == 1;
    }
    forall a | 42 <= a <= 48 ensures Outside(LAYOUT, 2, a) {}
  }

  const BOTH := Sys(Table([XRUN, XREADY], 0, 0), [FRESH_MBOX])
  const OTHER := Sys(Table([XREADY, XRUN], 1, 0), [FRESH_MBOX])

  lemma Creates()
    ensures CreateIn(Boot(2, 1).tab) == Some((1, BOTH.tab)) && Boot(2, 1).(tab := BOTH.tab) == BOTH
  {
    var t := Boot(2, 1).tab;
    assert t == Table([XRUN, XFREE], 0, 1);
    assert Search(t.st, 1, XFREE) == Some(1);
    assert t.st[1 := XREADY] == [XRUN, XREADY];
  }

  lemma SwitchesOver()
    ensures BOTH.Valid() && Step(BOTH, Timer) == Next(OTHER, [], 0)
  {
    var t := Table([XREADY, XREADY], 0, 0);
    assert BOTH.tab.st[0 := XREADY] == t.st;
    assert Search(t.st, 1, XREADY) == Some(1);
    assert t.st[1 := XRUN] == [XREADY, XRUN];
  }

  /** Thread 0 waits for a message into word 19. */
  const WAITING := Sys(Table([XRUN, XRUN], 1, 0), [Mbox(EMPTY, [Waiter(0, 19)])])

  lemma Receives()
    ensures BOTH.Valid() && Reschedules(BOTH, Recv(0, 19)) && Step(BOTH, Recv(0, 19)) == Next(WAITING, [], 0)
  {
    assert Search(BOTH.tab.st, 1, XREADY) == Some(1);
    assert BOTH.tab.st[1 := XRUN] == [XRUN, XRUN];
    assert QueueSelf(FRESH_MBOX, Waiter(0, 19)).queue == [Waiter(0, 19)];
  }

  lemma Sends()
    ensures WAITING.Valid() && Serves(WAITING, Send(0, 7), 0)
    ensures Step(WAITING, Send(0, 7)) == Next(OTHER, [Delivery(Waiter(0, 19), 7)], 0)
    ensures MboxCall(WAITING, Send(0, 7)).out[0].to == Waiter(0, 19)
  {
    var q := WAITING.mb[0].queue;
    assert q[1..] == [] && Among(0, [q[0]]) by { assert [q[0]][0].xid == 0; }
    assert !Among(1, [q[0]]);
    assert Wake(WAITING.tab.st, [q[0]]) == [XREADY, XRUN];
  }

  lemma SwitchesBack()
    ensures OTHER.Valid() && Step(OTHER, Timer) == Next(BOTH, [], 0)
  {
    var t := Table([XREADY, XREADY], 1, 0);
    assert OTHER.tab.st[1 := XREADY] == t.st;
    assert Search(t.st, 0, XREADY) == Some(0);
    assert t.st[0 := XRUN] == [XRUN, XREADY];
  }

  /** xmain at 7 has been entered. */
  lemma Started() returns (m: Mach)
    ensures MachInv(LAYOUT, m) && m.sys == Boot(2, 1) && m.cpu.esp == 18
  {
    LayoutValid();
    var mem := seq(49, _ => 0);
    BootEnters(LAYOUT, 2, mem, 7, [], MAIN, 48, 9);
    BootMachInv(LAYOUT, 2, 1, mem, 7, [], MAIN, 48, 9);
    m := BootMach(LAYOUT, 2, 1, mem, 7, [], MAIN, 48, 9);
  }

  /** It has created a thread that enters 8. */
  lemma Spawned() returns (m: Mach)
    ensures MachInv(LAYOUT, m) && m.sys == BOTH && m.cpu.esp == 18 && 1 in m.frames && m.frames[1].sp == 34
  {
    var m0 := Started();
    Creates();
    SpawnInv(LAYOUT, m0, 8, []);
    m := MStep(LAYOUT, m0, Spawn(8, [])).value;
  }

  /** It has put 5 into ebx. */
  lemma Computed() returns (m: Mach)
    ensures MachInv(LAYOUT, m) && m.sys == BOTH && m.cpu.esp == 18 && m.cpu.ebx == 5
    ensures 1 in m.frames && m.frames[1].sp == 34
  {
    var m0 := Spawned();
    var e := Compute(m0.cpu.(ebx := 5), []);
    MStepInv(LAYOUT, m0, e);
    m := MStep(LAYOUT, m0, e).value;
  }

  /** The alarm gives the processor to thread 1. */
  lemma Left(m: Mach) returns (q: Mach)
    requires MachInv(LAYOUT, m) && m.sys == BOTH && m.cpu.esp == 18 && 1 in m.frames && m.frames[1].sp == 34
    ensures Leaves(LAYOUT, m, Timer) && MStep(LAYOUT, m, Library(Timer)) == Some(q)
    ensures MachInv(LAYOUT, q) && q.sys == OTHER && q.cpu.esp == 38 && 0 in q.frames
  {
    SwitchesOver();
    q := MStep(LAYOUT, m, Library(Timer)).value;
    MStepInv(LAYOUT, m, Library(Timer));
    YieldHolds(LAYOUT, m, Timer);
  }

  /** And the next one gives it back to thread 0. */
  lemma Returned(q: Mach) returns (r: Mach)
    requires MachInv(LAYOUT, q) && q.sys == OTHER && q.cpu.esp == 38 && 0 in q.frames
    ensures Returns(LAYOUT, q, [], Timer, 0, r)
  {
    SwitchesBack();
    r := MStep(LAYOUT, q, Library(Timer)).value;
    assert MExec(LAYOUT, q, [][..0]) == Some(q);
  }

  /** A thread that leaves and comes back, with another ebx than it had. */
  lemma EbxLost() returns (m: Mach, q: Mach, r: Mach)
    ensures MachInv(LAYOUT, m) && Leaves(LAYOUT, m, Timer)
    ensures MStep(LAYOUT, m, Library(Timer)) == Some(q) && MachInv(LAYOUT, q)
    ensures Returns(LAYOUT, q, [], Timer, m.sys.tab.curr, r) && r.cpu.ebx != m.cpu.ebx
  {
    m := Computed();
    q := Left(m);
    r := Returned(q);
    EbxKeptExactly(LAYOUT, m, Timer, [], Timer, r);
  }

  /** A created thread entered for the first time. */
  lemma EntryHappens() returns (m: Mach, q: Mach, r: Mach)
    ensures MachInv(LAYOUT, m) && Permitted(LAYOUT, m, Spawn(8, [])) && CreateIn(m.sys.tab).Some?
    ensures MStep(LAYOUT, m, Spawn(8, [])) == Some(q) && MachInv(LAYOUT, q)
    ensures Returns(LAYOUT, q, [], Timer, CreateIn(m.sys.tab).value.0, r)
  {
    m := Started();
    Creates();
    SpawnInv(LAYOUT, m, 8, []);
    q := MStep(LAYOUT, m, Spawn(8, [])).value;
    SwitchesOver();
    r := MStep(LAYOUT, q, Library(Timer)).value;
    assert MExec(LAYOUT, q, [][..0]) == Some(q);
  }

  lemma Waits(m: Mach) returns (q: Mach)
    requires MachInv(LAYOUT, m) && m.sys == BOTH && m.cpu.esp == 18 && 1 in m.frames && m.frames[1].sp == 34
    ensures MachInv(LAYOUT, q) && q.sys == WAITING && q.cpu.esp == 38 && 0 in q.frames
  {
    Receives();
    q := MStep(LAYOUT, m, Library(Recv(0, 19))).value;
    MStepInv(LAYOUT, m, Library(Recv(0, 19)));
    YieldHolds(LAYOUT, m, Recv(0, 19));
  }

  /** A message sent to a blocked thread, and the thread running again. */
  lemma MessageSent() returns (m: Mach, q: Mach, r: Mach)
    ensures MachInv(LAYOUT, m) && Permitted(LAYOUT, m, Library(Send(0, 7))) && Serves(m.sys, Send(0, 7), 0)
    ensures var w := MboxCall(m.sys, Send(0, 7)).out[0].to; LAYOUT.InStack(w.xid, w.dest)
    ensures MStep(LAYOUT, m, Library(Send(0, 7))) == Some(q) && MachInv(LAYOUT, q)
    ensures Returns(LAYOUT, q, [], Timer, MboxCall(m.sys, Send(0, 7)).out[0].to.xid, r)
  {
    var m0 := Computed();
    m := Waits(m0);
    Sends();
    MStepInv(LAYOUT, m, Library(Send(0, 7)));
    CallFrames(LAYOUT, m, Send(0, 7));
    q := MStep(LAYOUT, m, Library(Send(0, 7))).value;
    r := Returned(q);
  }
}
