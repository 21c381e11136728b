/** The library's objects running: main's first switch, and every library step
    of the machine carried out by the methods on the table, the mailboxes and
    the memory. */
module KernelRuns {
  import opened Threads
  import opened Wrappers
  import opened ThreadRuns
  import opened Machine
  import opened MachineRuns
  import opened SwitchedBack
  import opened ThreadLib
  import opened MailboxLists

  // ---------- the preconditions of the methods hold in every run ----------

  lemma LiveLoadable(l: Layout, m: Mach, k: nat)
    requires MachInv(l, m) && l.lo[m.sys.tab.curr] + 6 <= m.cpu.esp && k < |m.sys.tab.st|
    requires k == m.sys.tab.curr || m.sys.tab.st[k] == XREADY
    ensures CanSwitch(l, m.mem, m.cpu, m.sys.tab.curr, k)
  {
    SwitchHolds(l, |m.sys.tab.st|, m.mem, m.frames, m.cpu, m.sys.tab.curr, k);
  }

  lemma FirstLoadable(l: Layout, n: nat, mem: Memory, xmain: int, args: seq<int>, cpu: Cpu, mregs: int, back: int)
    requires n > 0 && l.Valid(n) && |mem| == l.size && |args| + 5 <= l.hi[0] - 1 - l.lo[0]
    requires MainOutside(l, n, cpu, mregs)
    ensures cpu.esp <= |mem| && 0 <= mregs < |mem|
    ensures var mem1 := Created(l, mem, 0, xmain, args).0;
            Loadable(CalledAt(mem1, cpu, mregs, l.reg[0], back), cpu.(esp := cpu.esp - 3))
  {
    BootEnters(l, n, mem, xmain, args, cpu, mregs, back);
  }

  /** The slot resched picks is the caller's own or another live one. */
  lemma PickedSlot(s: Sys, e: Event)
    requires Inv(s) && Allowed(s, e) && Reschedules(s, e)
    ensures var t := YieldTable(s, e);
            && s.Valid() && t.Valid() && t.curr == s.tab.curr && |t.st| == |s.tab.st|
            && (Resched(t).Some? <==> Step(s, e).Next?)
            && (Resched(t).Some? ==>
                  var k := Resched(t).value.curr;
                  k < |s.tab.st| && (k == s.tab.curr || s.tab.st[k] == XREADY))
  {
    NextThread(s, e);
    YieldIs(s, e);
  }

  lemma StepsWhenNext(l: Layout, m: Mach, e: Event)
    requires MachInv(l, m) && Permitted(l, m, Library(e)) && Reschedules(m.sys, e)
    ensures m.sys.Valid() && (MStep(l, m, Library(e)).Some? <==> Step(m.sys, e).Next?)
  {
    InvIsValid(m.sys);
  }

  /** A call of resched has room for its pushes and finds a saved stack in the
      slot it picks. */
  lemma ReschedLoadable(l: Layout, m: Mach, e: Event)
    requires MachInv(l, m) && Permitted(l, m, Library(e)) && Reschedules(m.sys, e)
    ensures var t := YieldTable(m.sys, e);
            && 6 <= m.cpu.esp <= |m.mem| && t.Valid()
            && (Resched(t).Some? <==> MStep(l, m, Library(e)).Some?)
            && (Resched(t).Some? ==>
                  CanSwitch(l, m.mem, m.cpu, t.curr, Resched(t).value.curr))
  {
    PickedSlot(m.sys, e);
    StepsWhenNext(l, m, e);
    var t := YieldTable(m.sys, e);
    if Resched(t).Some? { LiveLoadable(l, m, Resched(t).value.curr); }
  }

  /** Every waiter has a slot and a word to receive into. */
  lemma WaitersInMemory(l: Layout, m: Mach, b: nat)
    requires MachInv(l, m) && b < |m.sys.mb|
    ensures forall i :: 0 <= i < |m.sys.mb[b].queue| ==>
              m.sys.mb[b].queue[i].xid < |m.sys.tab.st| && 0 <= m.sys.mb[b].queue[i].dest < |m.mem|
  {
    InvIsValid(m.sys);
  }

  /** What the machine is after a switch. */
  lemma YieldMach(l: Layout, m: Mach, e: Event)
    requires MachInv(l, m) && Permitted(l, m, Library(e)) && Reschedules(m.sys, e)
    requires MStep(l, m, Library(e)).Some?
    ensures var t, m' := YieldTable(m.sys, e), MStep(l, m, Library(e)).value;
            && t.Valid() && Resched(t) == Some(m'.sys.tab) && m'.sys.mb == YieldBoxes(m.sys, e)
            && 6 <= m.cpu.esp <= |m.mem|
            && (m'.mem, m'.cpu) == CallCtxsw(l, m.mem, m.cpu, t.curr, m'.sys.tab.curr)
  {
    NextThread(m.sys, e);
    YieldIs(m.sys, e);
  }

  /** A receive from an empty box. */
  lemma WaitStep(l: Layout, m: Mach, b: nat, dest: int)
    requires MachInv(l, m) && Permitted(l, m, Library(Recv(b, dest))) && b < |m.sys.mb| && m.sys.mb[b].message == EMPTY
    ensures var t := m.sys.tab;
            && 6 <= m.cpu.esp <= |m.mem| && t.Valid() && 0 <= dest < |m.mem|
            && match Resched(t)
               case None => MStep(l, m, Library(Recv(b, dest))).None?
               case Some(t') =>
                 && CanSwitch(l, m.mem, m.cpu, t.curr, t'.curr)
                 && MStep(l, m, Library(Recv(b, dest))).Some?
                 && var m' := MStep(l, m, Library(Recv(b, dest))).value;
                   && m'.sys == Sys(t', m.sys.mb[b := QueueSelf(m.sys.mb[b], Waiter(t.curr, dest))])
                   && (m'.mem, m'.cpu) == CallCtxsw(l, m.mem, m.cpu, t.curr, t'.curr)
  {
    ReschedLoadable(l, m, Recv(b, dest));
    if Resched(m.sys.tab).Some? { YieldMach(l, m, Recv(b, dest)); }
  }

  lemma CallBounds(l: Layout, m: Mach, e: Event)
    requires MachInv(l, m) && Permitted(l, m, Library(e)) && !Reschedules(m.sys, e)
    ensures var c := MboxCall(m.sys, e);
            && (forall i :: 0 <= i < |c.woken| ==> c.woken[i].xid < |m.sys.tab.st|)
            && (forall i :: 0 <= i < |c.out| ==> 0 <= c.out[i].to.dest < |m.mem|)
  {
    OutInMemory(l, m, e);
    assert Step(m.sys, e).out == MboxCall(m.sys, e).out;
  }

  /** And after a call that does not give up the processor. */
  lemma CallMach(l: Layout, m: Mach, e: Event)
    requires MachInv(l, m) && Permitted(l, m, Library(e)) && !Reschedules(m.sys, e)
    ensures MStep(l, m, Library(e)).Some?
    ensures var c, m' := MboxCall(m.sys, e), MStep(l, m, Library(e)).value;
            && (forall i :: 0 <= i < |c.woken| ==> c.woken[i].xid < |m.sys.tab.st|)
            && (forall i :: 0 <= i < |c.out| ==> 0 <= c.out[i].to.dest < |m.mem|)
            && m'.sys == Sys(m.sys.tab.(st := Wake(m.sys.tab.st, c.woken)), m.sys.mb[e.b := c.box])
            && m'.mem == StoreAll(m.mem, c.out) && m'.cpu == m.cpu
  {
    CallBounds(l, m, e);
    OutInMemory(l, m, e);
  }

  // ---------- the objects as a machine ----------

  /** Table, memory and registers are those of m. */
  ghost predicate StandsFor(k: Kernel, m: Mach)
    reads k, k.xid, k.xlimit, k.xbase, k.xstate, k.mem
  {
    k.Valid() && m.sys.tab == k.Tab() && m.mem == k.mem[..] && m.cpu == k.Regs()
  }

  /** In every run the methods that call resched may do so. */
  lemma MayResched(k: Kernel, m: Mach, e: Event)
    requires StandsFor(k, m) && MachInv(k.layout, m) && Permitted(k.layout, m, Library(e)) && Reschedules(m.sys, e)
    ensures var t := YieldTable(m.sys, e);
            && t.Valid() && |t.st| == k.xstate.Length && k.CanResched(t)
            && (Resched(t).Some? <==> MStep(k.layout, m, Library(e)).Some?)
  {
    ReschedLoadable(k.layout, m, e);
    PickedSlot(m.sys, e);
  }

  /** And those that serve waiters. */
  lemma MayServe(k: Kernel, mb: Mailbox, m: Mach, b: nat)
    requires StandsFor(k, m) && MachInv(k.layout, m) && b < |m.sys.mb| && mb.Box() == m.sys.mb[b]
    ensures k.CanServe(mb)
  {
    WaitersInMemory(k.layout, m, b);
  }

  // ---------- main ----------

  lemma BootMachIs(l: Layout, n: nat, boxes: nat, mem: Memory, mem1: Memory, xmain: int, args: seq<int>,
                   cpu: Cpu, mregs: int, back: int)
    requires n > 0 && l.Valid(n) && |mem| == l.size && |args| + 5 <= l.hi[0] - 1 - l.lo[0]
    requires MainOutside(l, n, cpu, mregs) && mem1 == Created(l, mem, 0, xmain, args).0
    ensures cpu.esp <= |mem| && 0 <= mregs < |mem|
    ensures var m := BootMach(l, n, boxes, mem, xmain, args, cpu, mregs, back);
            && m.sys == Boot(n, boxes) && m.sys.tab == Boot(n, 0).tab
            && (m.mem, m.cpu) == CallAt(mem1, cpu, mregs, l.reg[0], back)
  {
    FirstLoadable(l, n, mem, xmain, args, cpu, mregs, back);
  }

  /** main's call of ctxsw. */
  method EnterFirst(k: Kernel, ghost n: nat, ghost boxes: nat, ghost mem: Memory,
                    ghost xmain: int, ghost args: seq<int>, mregs: int, back: int)
    requires k.Valid() && k.xstate.Length == n > 0 && k.Tab() == Boot(n, 0).tab
    requires |mem| == k.layout.size && |args| + 5 <= k.layout.hi[0] - 1 - k.layout.lo[0]
    requires k.mem[..] == Created(k.layout, mem, 0, xmain, args).0 && MainOutside(k.layout, n, k.Regs(), mregs)
    modifies k`esp, k`ebp, k`esi, k`edi, k`ebx, k`eip, k.mem
    ensures StandsFor(k, BootMach(k.layout, n, boxes, mem, xmain, args, old(k.Regs()), mregs, back))
  {
    FirstLoadable(k.layout, n, mem, xmain, args, k.Regs(), mregs, back);
    BootMachIs(k.layout, n, boxes, mem, k.mem[..], xmain, args, k.Regs(), mregs, back);
    k.CallSwitchAt(mregs, k.layout.reg[0], back);
    assert k.Tab() == old(k.Tab());
  }

  /** main: the kernel is set up, the mailboxes are initialised and the first
      thread is entered. */
  method StartLibrary(l: Layout, memory: array<int>, n: nat, mbs: seq<Mailbox>, xmain: int, args: seq<int>,
                      cpu: Cpu, mregs: int, back: int)
    returns (k: Kernel)
    requires n > 0 && l.Valid(n) && memory.Length == l.size
    requires forall i :: 0 <= i < n ==> l.hi[i] == l.lo[i] + 2048
    requires |args| + 6 <= 2048 && MainOutside(l, n, cpu, mregs)
    requires forall b, c :: 0 <= b < |mbs| && 0 <= c < |mbs| && b != c ==> mbs[b] != mbs[c]
    modifies memory, mbs
    ensures fresh(k) && fresh(k.xstate) && k.layout == l && k.mem == memory
    ensures var m := BootMach(l, n, |mbs|, old(memory[..]), xmain, args, cpu, mregs, back);
            StandsFor(k, m) && Hold(mbs, seq(|mbs|, _ => []), {}, m.sys.mb)
  {
    ghost var mem0 := memory[..];
    assert l.hi[0] == l.lo[0] + 2048;
    InitAll(mbs);
    assert Boot(n, |mbs|).mb == seq(|mbs|, _ => FRESH_MBOX);
    k := new Kernel(l, memory, n, xmain, args, cpu);
    EnterFirst(k, n, |mbs|, mem0, xmain, args, mregs, back);
  }

  // ---------- the library steps ----------

  method PerformTimer(k: Kernel, ghost m: Mach) returns (ok: bool)
    requires StandsFor(k, m) && MachInv(k.layout, m) && Permitted(k.layout, m, Library(Timer))
    modifies k, k.xstate, k.mem
    ensures ok && MStep(k.layout, m, Library(Timer)).Some?
    ensures StandsFor(k, MStep(k.layout, m, Library(Timer)).value)
  {
    MayResched(k, m, Timer);
    ok := k.Handler();
    YieldMach(k.layout, m, Timer);
  }

  method PerformExit(k: Kernel, ghost m: Mach) returns (ok: bool)
    requires StandsFor(k, m) && MachInv(k.layout, m) && Permitted(k.layout, m, Library(Exit))
    modifies k, k.xstate, k.mem
    ensures ok == MStep(k.layout, m, Library(Exit)).Some?
    ensures ok ==> StandsFor(k, MStep(k.layout, m, Library(Exit)).value)
  {
    MayResched(k, m, Exit);
    ok := k.UserRet();
    if ok { YieldMach(k.layout, m, Exit); }
  }

  method PerformSend(k: Kernel, mbs: seq<Mailbox>, ghost lists: seq<seq<Node>>, ghost own: set<Node>,
                 b: nat, msg: int, ghost m: Mach) returns (r: int, ghost lists': seq<seq<Node>>)
    requires StandsFor(k, m) && Hold(mbs, lists, own, m.sys.mb)
    requires MachInv(k.layout, m) && Permitted(k.layout, m, Library(Send(b, msg)))
    modifies k.xstate, k.mem, mbs[b]
    ensures MStep(k.layout, m, Library(Send(b, msg))).Some? && r == MboxCall(m.sys, Send(b, msg)).ret
    ensures var m' := MStep(k.layout, m, Library(Send(b, msg))).value;
            StandsFor(k, m') && Hold(mbs, lists', own, m'.sys.mb)
  {
    assert Has(mbs[b], lists[b], m.sys.mb[b]);
    MayServe(k, mbs[b], m, b);
    r, lists' := SendAmong(k, mbs, lists, own, m.sys.mb, b, msg);
    CallMach(k.layout, m, Send(b, msg));
  }

  method PerformBroadcast(k: Kernel, mbs: seq<Mailbox>, ghost lists: seq<seq<Node>>, ghost own: set<Node>,
                 b: nat, msg: int, ghost m: Mach) returns (r: int, ghost lists': seq<seq<Node>>)
    requires StandsFor(k, m) && Hold(mbs, lists, own, m.sys.mb)
    requires MachInv(k.layout, m) && Permitted(k.layout, m, Library(Broadcast(b, msg)))
    modifies k.xstate, k.mem, mbs[b]
    ensures MStep(k.layout, m, Library(Broadcast(b, msg))).Some? && r == MboxCall(m.sys, Broadcast(b, msg)).ret
    ensures var m' := MStep(k.layout, m, Library(Broadcast(b, msg))).value;
            StandsFor(k, m') && Hold(mbs, lists', own, m'.sys.mb)
  {
    assert Has(mbs[b], lists[b], m.sys.mb[b]);
    MayServe(k, mbs[b], m, b);
    r, lists' := BroadcastAmong(k, mbs, lists, own, m.sys.mb, b, msg);
    CallMach(k.layout, m, Broadcast(b, msg));
  }

  /** The machine after a receive that finds a message. */
  lemma TakeStep(l: Layout, m: Mach, b: nat, dest: int)
    requires MachInv(l, m) && Permitted(l, m, Library(Recv(b, dest))) && b < |m.sys.mb| && m.sys.mb[b].message != EMPTY
    ensures MStep(l, m, Library(Recv(b, dest))).Some? && 0 <= dest < |m.mem|
    ensures var c, m' := RecvFrom(m.sys.mb[b], Waiter(m.sys.tab.curr, dest)), MStep(l, m, Library(Recv(b, dest))).value;
            m'.sys == Sys(m.sys.tab, m.sys.mb[b := c.box]) && m'.mem == StoreAll(m.mem, c.out) && m'.cpu == m.cpu
  {
    CallMach(l, m, Recv(b, dest));
    assert Wake(m.sys.tab.st, []) == m.sys.tab.st;
  }

  /** A receive that blocks. */
  method WaitForMessage(k: Kernel, mbs: seq<Mailbox>, ghost lists: seq<seq<Node>>, ghost own: set<Node>,
                     b: nat, dest: int, ghost m: Mach)
    returns (ok: bool, ghost lists': seq<seq<Node>>, ghost own': set<Node>)
    requires StandsFor(k, m) && Hold(mbs, lists, own, m.sys.mb)
    requires MachInv(k.layout, m) && Permitted(k.layout, m, Library(Recv(b, dest))) && m.sys.mb[b].message == EMPTY
    modifies k, k.xstate, k.mem, mbs[b], mbs[b].nodes
    ensures own <= own' && fresh(own' - own)
    ensures ok == MStep(k.layout, m, Library(Recv(b, dest))).Some?
    ensures ok ==> var m' := MStep(k.layout, m, Library(Recv(b, dest))).value;
                   StandsFor(k, m') && Hold(mbs, lists', own', m'.sys.mb)
  {
    WaitStep(k.layout, m, b, dest);
    ok, lists', own' := RecvAmong(k, mbs, lists, own, m.sys.mb, b, dest);
  }

  /** A receive that finds a message. */
  method TakeMessage(k: Kernel, mbs: seq<Mailbox>, ghost lists: seq<seq<Node>>, ghost own: set<Node>,
                     b: nat, dest: int, ghost m: Mach)
    returns (ok: bool, ghost lists': seq<seq<Node>>, ghost own': set<Node>)
    requires StandsFor(k, m) && Hold(mbs, lists, own, m.sys.mb)
    requires MachInv(k.layout, m) && Permitted(k.layout, m, Library(Recv(b, dest))) && m.sys.mb[b].message != EMPTY
    modifies k, k.xstate, k.mem, mbs[b], mbs[b].nodes
    ensures own <= own' && fresh(own' - own)
    ensures ok == MStep(k.layout, m, Library(Recv(b, dest))).Some?
    ensures ok ==> var m' := MStep(k.layout, m, Library(Recv(b, dest))).value;
                   StandsFor(k, m') && Hold(mbs, lists', own', m'.sys.mb)
  {
    TakeStep(k.layout, m, b, dest);
    ok, lists', own' := RecvAmong(k, mbs, lists, own, m.sys.mb, b, dest);
  }

  method PerformRecv(k: Kernel, mbs: seq<Mailbox>, ghost lists: seq<seq<Node>>, ghost own: set<Node>,
                     b: nat, dest: int, ghost m: Mach)
    returns (ok: bool, ghost lists': seq<seq<Node>>, ghost own': set<Node>)
    requires StandsFor(k, m) && Hold(mbs, lists, own, m.sys.mb)
    requires MachInv(k.layout, m) && Permitted(k.layout, m, Library(Recv(b, dest)))
    modifies k, k.xstate, k.mem, mbs[b], mbs[b].nodes
    ensures own <= own' && fresh(own' - own)
    ensures ok == MStep(k.layout, m, Library(Recv(b, dest))).Some?
    ensures ok ==> var m' := MStep(k.layout, m, Library(Recv(b, dest))).value;
                   StandsFor(k, m') && Hold(mbs, lists', own', m'.sys.mb)
  {
    assert Has(mbs[b], lists[b], m.sys.mb[b]);
    if mbs[b].message == EMPTY {
      ok, lists', own' := WaitForMessage(k, mbs, lists, own, b, dest, m);
    } else {
      ok, lists', own' := TakeMessage(k, mbs, lists, own, b, dest, m);
    }
  }

  method PerformSpawn(k: Kernel, proc: int, args: seq<int>, ghost m: Mach) returns (r: Option<nat>)
    requires StandsFor(k, m) && MachInv(k.layout, m) && Permitted(k.layout, m, Spawn(proc, args))
    modifies k, k.xstate, k.mem
    ensures r.Some? == MStep(k.layout, m, Spawn(proc, args)).Some?
    ensures r.Some? ==> StandsFor(k, MStep(k.layout, m, Spawn(proc, args)).value)
  {
    r := k.XthreadCreate(proc, args);
  }

  // ---------- every step, and whole runs ----------

  /** What the program does between calls. */
  method PerformCompute(k: Kernel, cpu: Cpu, stores: seq<(int, int)>, ghost m: Mach)
    requires StandsFor(k, m) && MachInv(k.layout, m) && Permitted(k.layout, m, Compute(cpu, stores))
    modifies k, k.mem
    ensures StandsFor(k, MStep(k.layout, m, Compute(cpu, stores)).value)
  {
    k.esp, k.ebp, k.esi, k.edi, k.ebx, k.eip := cpu.esp, cpu.ebp, cpu.esi, cpu.edi, cpu.ebx, cpu.eip;
    for i := 0 to |stores|
      invariant StorePairs(k.mem[..], stores[i..]) == StorePairs(m.mem, stores)
      invariant k.Valid() && k.Tab() == m.sys.tab && k.Regs() == cpu
    {
      assert stores[i..][0] == stores[i] && stores[i..][1..] == stores[i + 1..];
      ghost var before := k.mem[..];
      k.mem[stores[i].0] := stores[i].1;
      assert k.mem[..] == before[stores[i].0 := stores[i].1];
    }
  }

  predicate AboutBox(me: MEvent) {
    me.Library? && (me.e.Send? || me.e.Broadcast? || me.e.Recv?)
  }

  /** A step that is about no box. */
  method PerformBeside(k: Kernel, me: MEvent, ghost m: Mach) returns (ok: bool)
    requires StandsFor(k, m) && MachInv(k.layout, m) && Permitted(k.layout, m, me) && !AboutBox(me)
    modifies k, k.xstate, k.mem
    ensures ok == MStep(k.layout, m, me).Some?
    ensures ok ==> StandsFor(k, MStep(k.layout, m, me).value)
  {
    ok := true;
    if me.Compute? {
      PerformCompute(k, me.cpu, me.stores, m);
    } else if me.Spawn? {
      var r := PerformSpawn(k, me.proc, me.args, m);
      ok := r.Some?;
    } else if me.e.Timer? {
      ok := PerformTimer(k, m);
    } else {
      ok := PerformExit(k, m);
    }
  }

  lemma BoxesStay(l: Layout, m: Mach, me: MEvent)
    requires MachInv(l, m) && Permitted(l, m, me) && MStep(l, m, me).Some? && !AboutBox(me)
    ensures MStep(l, m, me).value.sys.mb == m.sys.mb
  {
    if me.Library? { YieldMach(l, m, me.e); }
  }

  /** Every step of the machine: code between calls, a create, a call about a
      box, the alarm and a thread's return. */
  method Perform(k: Kernel, mbs: seq<Mailbox>, ghost lists: seq<seq<Node>>, ghost own: set<Node>,
                 me: MEvent, ghost m: Mach)
    returns (ok: bool, ghost lists': seq<seq<Node>>, ghost own': set<Node>)
    requires StandsFor(k, m) && Hold(mbs, lists, own, m.sys.mb) && MachInv(k.layout, m) && Permitted(k.layout, m, me)
    modifies k, k.xstate, k.mem, mbs, own
    ensures own <= own' && fresh(own' - own)
    ensures ok == MStep(k.layout, m, me).Some?
    ensures ok ==> var m' := MStep(k.layout, m, me).value; StandsFor(k, m') && Hold(mbs, lists', own', m'.sys.mb)
  {
    ok, lists', own' := true, lists, own;
    var ret;
    if !AboutBox(me) {
      ok := PerformBeside(k, me, m);
      if ok { BoxesStay(k.layout, m, me); }
    } else if me.e.Send? {
      ret, lists' := PerformSend(k, mbs, lists, own, me.e.b, me.e.msg, m);
    } else if me.e.Broadcast? {
      ret, lists' := PerformBroadcast(k, mbs, lists, own, me.e.b, me.e.msg, m);
    } else {
      ok, lists', own' := PerformRecv(k, mbs, lists, own, me.e.b, me.e.dest, m);
    }
  }

  /** Every event of the run is permitted when its turn comes. */
  ghost predicate PermittedRun(l: Layout, m: Mach, es: seq<MEvent>)
    requires MachInv(l, m)
  {
    forall i :: 0 <= i < |es| && MExec(l, m, es[..i]).Some? ==> Permitted(l, MExec(l, m, es[..i]).value, es[i])
  }

  lemma {:induction false} StaysStopped(l: Layout, m: Mach, es: seq<MEvent>, i: nat)
    requires MachInv(l, m) && i <= |es| && MExec(l, m, es[..i]).None?
    ensures MExec(l, m, es).None?
    decreases |es|
  {
    if i == |es| {
      assert es[..i] == es;
    } else {
      assert es[..|es| - 1][..i] == es[..i];
      StaysStopped(l, m, es[..|es| - 1], i);
    }
  }

  lemma NextOfRun(l: Layout, m: Mach, es: seq<MEvent>, i: nat)
    requires MachInv(l, m) && i < |es| && MExec(l, m, es[..i]).Some? && Permitted(l, MExec(l, m, es[..i]).value, es[i])
    ensures MExec(l, m, es[..i + 1]) == MStep(l, MExec(l, m, es[..i]).value, es[i])
  {
    assert es[..i + 1][..i] == es[..i];
  }

  /** Whole runs: the objects end as the machine does, or stop when it stops. */
  method Run(k: Kernel, mbs: seq<Mailbox>, ghost lists: seq<seq<Node>>, ghost own: set<Node>,
             es: seq<MEvent>, ghost m: Mach) returns (ok: bool, ghost lists': seq<seq<Node>>, ghost own': set<Node>)
    requires StandsFor(k, m) && Hold(mbs, lists, own, m.sys.mb) && MachInv(k.layout, m) && PermittedRun(k.layout, m, es)
    modifies k, k.xstate, k.mem, mbs, own
    ensures own <= own' && fresh(own' - own)
    ensures ok == MExec(k.layout, m, es).Some?
    ensures ok ==> var m' := MExec(k.layout, m, es).value; StandsFor(k, m') && Hold(mbs, lists', own', m'.sys.mb)
  {
    ok, lists', own' := true, lists, own;
    assert es[..0] == [];
    for i := 0 to |es|
      invariant own <= own' && fresh(own' - own) && MExec(k.layout, m, es[..i]).Some?
      invariant var p := MExec(k.layout, m, es[..i]).value; StandsFor(k, p) && Hold(mbs, lists', own', p.sys.mb)
    {
      ghost var p := MExec(k.layout, m, es[..i]).value;
      ok, lists', own' := Perform(k, mbs, lists', own', es[i], p);
      NextOfRun(k.layout, m, es, i);
      if !ok {
        StaysStopped(k.layout, m, es, i + 1);
        return;
      }
    }
    assert es[..|es|] == es;
  }
}
