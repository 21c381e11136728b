/** The thread library as it is written: a table updated in place, a linked
    list of blocked receivers with head and tail pointers, and registers and
    stacks in a word-addressed memory. Every method is tied to the functions
    of modules Threads, Machine and MachineRuns. */
module ThreadLib {
  import opened Threads
  import opened Wrappers
  import opened Machine
  import opened MachineRuns

  class Node {
    var xid: nat
    var dest: int
    var next: Node?

    constructor (xid: nat, dest: int)
      ensures this.xid == xid && this.dest == dest && next == null
    {
      this.xid, this.dest, this.next := xid, dest, null;
    }
  }

  /** The list from head to tail is the ghost sequence `nodes`. */
  class Mailbox {
    var message: int
    var head: Node?
    var tail: Node?
    ghost var nodes: seq<Node>

    ghost predicate Valid()
      reads this, nodes
    {
      && head == (if nodes == [] then null else nodes[0])
      && tail == (if nodes == [] then null else nodes[|nodes| - 1])
      && (forall i {:trigger nodes[i].next} :: 0 <= i < |nodes| - 1 ==> nodes[i].next == nodes[i + 1])
      && (nodes != [] ==> nodes[|nodes| - 1].next == null)
      && (forall i, j :: 0 <= i < j < |nodes| ==> nodes[i] != nodes[j])
    }

    ghost function Queue(): (q: seq<Waiter>)
      reads this, nodes
      ensures |q| == |nodes|
      ensures forall i :: 0 <= i < |q| ==> q[i] == Waiter(nodes[i].xid, nodes[i].dest)
    {
      seq(|nodes|, i requires 0 <= i < |nodes| reads this, nodes => Waiter(nodes[i].xid, nodes[i].dest))
    }

    ghost function Box(): Mbox
      reads this, nodes
    {
      Mbox(message, Queue())
    }

    /** xthread_init_mbox */
    method Init()
      modifies this
      ensures Valid() && Box() == FRESH_MBOX && nodes == []
    {
      head, tail, message := null, null, -1;
      nodes := [];
    }

    method Append(w: Waiter)
      requires Valid()
      modifies this, nodes
      ensures Valid() && Box() == QueueSelf(old(Box()), w)
      ensures |nodes| == |old(nodes)| + 1 && nodes[..|old(nodes)|] == old(nodes) && fresh(nodes[|old(nodes)|])
    {
      var n := new Node(w.xid, w.dest);
      if head == null {
        head, tail := n, n;
      } else {
        tail.next := n;
        tail := n;
      }
      nodes := nodes + [n];
    }

    method RemoveHead()
      requires Valid() && head != null
      modifies this
      ensures Valid() && nodes == old(nodes)[1..] && message == old(message)
      ensures Queue() == old(Queue())[1..]
    {
      head := head.next;
      if head == null { tail := null; }
      nodes := nodes[1..];
    }
  }

  lemma AmongSnoc(x: nat, ws: seq<Waiter>, w: Waiter)
    ensures Among(x, ws + [w]) <==> Among(x, ws) || x == w.xid
  {
    assert (ws + [w])[|ws|] == w;
    if Among(x, ws) {
      var i :| 0 <= i < |ws| && ws[i].xid == x;
      assert (ws + [w])[i].xid == x;
    }
  }

  /** One more waiter made READY, one more word stored. */
  lemma WakeSnoc(st: seq<XState>, ws: seq<Waiter>, w: Waiter)
    requires forall i :: 0 <= i < |ws| ==> ws[i].xid < |st|
    requires w.xid < |st|
    ensures forall i :: 0 <= i < |ws + [w]| ==> (ws + [w])[i].xid < |st|
    ensures Wake(st, ws + [w]) == Wake(st, ws)[w.xid := XREADY]
  {
    forall x: nat | x < |st| ensures Wake(st, ws + [w])[x] == Wake(st, ws)[w.xid := XREADY][x] {
      AmongSnoc(x, ws, w);
    }
  }

  lemma StoreSnoc(mem: Memory, out: seq<Delivery>, d: Delivery)
    requires forall i :: 0 <= i < |out| ==> 0 <= out[i].to.dest < |mem|
    requires 0 <= d.to.dest < |mem|
    ensures forall i :: 0 <= i < |out + [d]| ==> 0 <= (out + [d])[i].to.dest < |mem|
    ensures StoreAll(mem, out + [d]) == StoreAll(mem, out)[d.to.dest := d.msg]
    decreases |out|
  {
    var all := out + [d];
    if out == [] {
      assert all == [d] && all[1..] == [];
    } else {
      var next, tail := mem[out[0].to.dest := out[0].msg], out[1..];
      assert all[0] == out[0] && all[1..] == tail + [d];
      assert forall i :: 0 <= i < |tail| ==> tail[i] == out[i + 1];
      StoreSnoc(next, tail, d);
    }
  }

  lemma DeliverSnoc(q: seq<Waiter>, w: Waiter, msg: int)
    ensures DeliverAll(q + [w], msg) == DeliverAll(q, msg) + [Delivery(w, msg)]
  {
  }

  /** The k-th round of a broadcast. */
  lemma RoundSnoc(st: seq<XState>, mem: Memory, q: seq<Waiter>, k: nat, msg: int)
    requires k < |q| && forall i :: 0 <= i < |q| ==> q[i].xid < |st| && 0 <= q[i].dest < |mem|
    ensures Wake(st, q[..k + 1]) == Wake(st, q[..k])[q[k].xid := XREADY]
    ensures StoreAll(mem, DeliverAll(q[..k + 1], msg)) == StoreAll(mem, DeliverAll(q[..k], msg))[q[k].dest := msg]
  {
    assert q[..k + 1] == q[..k] + [q[k]];
    WakeSnoc(st, q[..k], q[k]);
    DeliverSnoc(q[..k], q[k], msg);
    StoreSnoc(mem, DeliverAll(q[..k], msg), Delivery(q[k], msg));
  }

  /** The one round of a send. */
  lemma FirstServed(st: seq<XState>, mem: Memory, w: Waiter, msg: int)
    requires w.xid < |st| && 0 <= w.dest < |mem|
    ensures Wake(st, [w]) == st[w.xid := XREADY]
    ensures StoreAll(mem, [Delivery(w, msg)]) == mem[w.dest := msg]
  {
    WakeSnoc(st, [], w);
    StoreSnoc(mem, [], Delivery(w, msg));
    assert [] + [w] == [w] && [] + [Delivery(w, msg)] == [Delivery(w, msg)];
    assert Wake(st, []) == st;
  }

  lemma {:induction false} StoreAllWords(mem: Memory, out: seq<Delivery>, msg: int, a: int)
    requires (forall i :: 0 <= i < |out| ==> 0 <= out[i].to.dest < |mem| && out[i].msg == msg) && 0 <= a < |mem|
    ensures StoreAll(mem, out)[a] ==
            if exists i :: 0 <= i < |out| && out[i].to.dest == a then msg else mem[a]
    decreases |out|
  {
    if out == [] {
    } else {
      var tail := out[1..];
      StoreAllWords(mem[out[0].to.dest := out[0].msg], tail, msg, a);
      assert forall i :: 0 <= i < |tail| ==> tail[i] == out[i + 1];
      if i :| 0 <= i < |out| && out[i].to.dest == a {
        if i > 0 { assert tail[i - 1].to.dest == a; }
      }
    }
  }

  /** What a send leaves, in terms of the box it found and nothing else. */
  ghost predicate Sent(m: Mbox, st: seq<XState>, mem: Memory, msg: int, ret: int,
                       m': Mbox, st': seq<XState>, mem': Memory)
  {
    if m.message > 0 then
      ret == -1 && m' == m && st' == st && mem' == mem
    else if |m.queue| == 0 then
      ret == 0 && m'.message == msg && |m'.queue| == 0 && st' == st && mem' == mem
    else
      && ret == 0 && m'.message == m.message && m'.queue == m.queue[1..]
      && |mem'| == |mem| && (forall a :: 0 <= a < |mem| ==> mem'[a] == if a == m.queue[0].dest then msg else mem[a])
      && |st'| == |st| && (forall x :: 0 <= x < |st| ==> st'[x] == if x == m.queue[0].xid then XREADY else st[x])
  }

  /** Every waiter's word holds the message and no other word has changed; every
      waiter is READY and no other slot has changed. */
  ghost predicate AllServed(q: seq<Waiter>, st: seq<XState>, mem: Memory, msg: int, st': seq<XState>, mem': Memory) {
    && |mem'| == |mem| && |st'| == |st|
    && (forall i :: 0 <= i < |q| && 0 <= q[i].dest < |mem| ==> mem'[q[i].dest] == msg)
    && (forall i :: 0 <= i < |q| && q[i].xid < |st| ==> st'[q[i].xid] == XREADY)
    && (forall a :: 0 <= a < |mem| && mem'[a] != mem[a] ==> exists i :: 0 <= i < |q| && q[i].dest == a)
    && (forall x :: 0 <= x < |st| && st'[x] != st[x] ==> exists i :: 0 <= i < |q| && q[i].xid == x)
  }

  /** And what a broadcast leaves: each waiter has the message and is READY. */
  ghost predicate BroadcastDone(m: Mbox, st: seq<XState>, mem: Memory, msg: int, ret: int,
                                m': Mbox, st': seq<XState>, mem': Memory)
  {
    if m.message > 0 then
      ret == -1 && m' == m && st' == st && mem' == mem
    else if |m.queue| == 0 then
      ret == -2 && m' == m && st' == st && mem' == mem
    else
      ret == 0 && m'.message == m.message && |m'.queue| == 0 && AllServed(m.queue, st, mem, msg, st', mem')
  }

  lemma SendIs(m: Mbox, st: seq<XState>, mem: Memory, msg: int)
    requires forall i :: 0 <= i < |m.queue| ==> m.queue[i].xid < |st| && 0 <= m.queue[i].dest < |mem|
    ensures var c := SendTo(m, msg); Sent(m, st, mem, msg, c.ret, c.box, Wake(st, c.woken), StoreAll(mem, c.out))
  {
    assert Wake(st, []) == st;
    if m.message <= 0 && m.queue != [] { FirstServed(st, mem, m.queue[0], msg); }
  }

  lemma AllServedBy(q: seq<Waiter>, st: seq<XState>, mem: Memory, msg: int)
    requires forall i :: 0 <= i < |q| ==> q[i].xid < |st| && 0 <= q[i].dest < |mem|
    ensures AllServed(q, st, mem, msg, Wake(st, q), StoreAll(mem, DeliverAll(q, msg)))
  {
    var out := DeliverAll(q, msg);
    forall a | 0 <= a < |mem|
      ensures StoreAll(mem, out)[a] == if exists i :: 0 <= i < |q| && q[i].dest == a then msg else mem[a]
    {
      StoreAllWords(mem, out, msg, a);
      assert forall i :: 0 <= i < |q| ==> out[i].to == q[i];
    }
    forall i | 0 <= i < |q| ensures Wake(st, q)[q[i].xid] == XREADY { assert Among(q[i].xid, q); }
  }

  lemma BroadcastIs(m: Mbox, st: seq<XState>, mem: Memory, msg: int)
    requires forall i :: 0 <= i < |m.queue| ==> m.queue[i].xid < |st| && 0 <= m.queue[i].dest < |mem|
    ensures var c := BroadcastTo(m, msg);
            BroadcastDone(m, st, mem, msg, c.ret, c.box, Wake(st, c.woken), StoreAll(mem, c.out))
  {
    assert Wake(st, []) == st;
    AllServedBy(m.queue, st, mem, msg);
  }

  /** STKSIZE, in words of four bytes. */
  const STKWORDS: int := 8192 / 4

  /** The globals of the library and the machine they live on. Each field of
      struct xentry is an array of its own; xregs[SP] of slot x is the memory
      word layout.reg[x]. */
  class Kernel {
    const xid: array<int>
    const xlimit: array<int>
    const xbase: array<int>
    const xstate: array<XState>
    var currxid: nat
    var nextproc: nat
    const mem: array<int>
    var esp: int
    var ebp: int
    var esi: int
    var edi: int
    var ebx: int
    var eip: int
    const layout: Layout

    ghost predicate Valid()
      reads this, xid, xlimit, xbase
    {
      var n := xstate.Length;
      && xid.Length == n && xlimit.Length == n && xbase.Length == n
      && xid != xlimit && xid != xbase && xlimit != xbase
      && mem != xid && mem != xlimit && mem != xbase
      && currxid < n && nextproc < n
      && layout.Valid(n) && mem.Length == layout.size
      && forall i :: 0 <= i < n ==> xlimit[i] == layout.lo[i] && xbase[i] == layout.hi[i] - 1
    }

    ghost function Tab(): Table
      reads this, xstate
    {
      Table(xstate[..], currxid, nextproc)
    }

    ghost function Regs(): Cpu
      reads this
    {
      Cpu(esp, ebp, esi, edi, ebx, eip)
    }

    // ---------- ctxsw.s ----------

    method Push(v: int)
      requires 0 < esp <= mem.Length
      modifies this`esp, mem
      ensures esp == old(esp) - 1 && mem[..] == old(mem[..])[esp := v]
    {
      esp := esp - 1;
      mem[esp] := v;
    }

    method Pop() returns (v: int)
      requires 0 <= esp < mem.Length
      modifies this`esp
      ensures esp == old(esp) + 1 && v == mem[old(esp)]
    {
      v := mem[esp];
      esp := esp + 1;
    }

    /** The half of ctxsw that leaves the old thread. */
    method SaveCurrent()
      requires 3 <= esp && esp + 2 < mem.Length && 0 <= mem[esp + 1] < mem.Length
      modifies this`esp, this`ebp, this`ebx, mem
      ensures mem[..] == Saved(old(mem[..]), old(Regs()))
      ensures ebp == old(esp) - 1 && mem[ebp + 3] == Saved(old(mem[..]), old(Regs()))[old(esp) + 2]
    {
      Push(ebp);
      ebp := esp;
      Push(esi);
      Push(edi);
      assert mem[..] == old(mem[..])[old(esp) - 1 := old(ebp)][old(esp) - 2 := old(esi)][old(esp) - 3 := old(edi)];
      ebx := mem[ebp + 2];
      mem[ebx] := esp;
      assert mem[..] == Saved(old(mem[..]), old(Regs()));
      assert mem[ebp + 3] == mem[..][old(esp) + 2];
    }

    /** Entered with the return address at esp and the two arguments above it. */
    method Switch()
      requires 3 <= esp && esp + 2 < mem.Length && 0 <= mem[esp + 1] < mem.Length
      requires Loadable(mem[..], Regs())
      modifies this`esp, this`ebp, this`esi, this`edi, this`ebx, this`eip, mem
      ensures (mem[..], Regs()) == Ctxsw(old(mem[..]), old(Regs()))
    {
      SaveCurrent();
      ebx := mem[ebp + 3];
      esp := mem[ebx];
      edi := Pop();
      esi := Pop();
      ebp := Pop();
      eip := Pop();
    }

    // ---------- create.c ----------

    /** newxid: the cursor stops just past the slot it hands out. */
    method NewXid() returns (r: Option<nat>)
      requires Valid()
      modifies this`nextproc
      ensures Valid()
      ensures r == Search(xstate[..], old(nextproc), XFREE)
      ensures nextproc == if r.Some? then Succ(r.value, xstate.Length) else old(nextproc)
    {
      var n := xstate.Length;
      ghost var st, start := xstate[..], nextproc;
      for i := 0 to n
        invariant nextproc == At(start, i, n)
        invariant SearchFrom(st, start, i, XFREE) == Search(st, start, XFREE)
        invariant Valid()
      {
        var x := nextproc;
        nextproc := nextproc + 1;
        if nextproc >= n { nextproc := 0; }
        if xstate[x] == XFREE { return Some(x); }
      }
      return None;
    }

    /** The copy loop: the arguments go below the stack base, last one first. */
    method CopyArgs(base: int, args: seq<int>) returns (saddr: int)
      requires |args| <= base <= mem.Length
      modifies mem
      ensures saddr == base - |args| && mem[..] == old(mem[..])[..saddr] + args + old(mem[..])[base..]
    {
      var nargs := |args|;
      saddr := base;
      ghost var m0 := mem[..];
      while nargs > 0
        invariant 0 <= nargs <= |args| && saddr == base - (|args| - nargs)
        invariant mem[..] == m0[..saddr] + args[nargs..] + m0[base..]
      {
        nargs, saddr := nargs - 1, saddr - 1;
        mem[saddr] := args[nargs];
      }
    }

    /** The pushes of xthread_create, from the stack base down. */
    method PushFrame(base: int, proc: int, args: seq<int>) returns (saddr: int)
      requires |args| + 5 <= base <= mem.Length
      modifies mem
      ensures saddr == base - |args| - 5
      ensures mem[..] == NewFrame(layout, old(mem[..]), base, proc, args)
    {
      ghost var m0 := mem[..];
      saddr := CopyArgs(base, args);
      saddr := saddr - 1;
      mem[saddr] := layout.userret;
      assert mem[..] == m0[..saddr] + [layout.userret] + args + m0[base..];
      saddr := saddr - 1;
      mem[saddr] := proc;
      assert mem[..] == m0[..saddr] + [proc, layout.userret] + args + m0[base..];
      saddr := saddr - 1;
      saddr := saddr - 2;
    }

    /** xthread_create, given the nargs words at its last parameter. None is
        exit(1). */
    method XthreadCreate(proc: int, args: seq<int>) returns (r: Option<nat>)
      requires Valid()
      requires match CreateIn(Tab())
               case None => true
               case Some(p) => |args| + 5 <= layout.hi[p.0] - 1 - layout.lo[p.0]
      modifies this`nextproc, xstate, mem
      ensures Valid()
      ensures match CreateIn(old(Tab()))
              case None => r == None && Tab() == old(Tab()) && mem[..] == old(mem[..])
              case Some((x, t)) =>
                r == Some(x) && Tab() == t && mem[..] == Created(layout, old(mem[..]), x, proc, args).0
    {
      r := NewXid();
      if r.None? { return; }
      var x := r.value;
      xstate[x] := XREADY;
      assert xstate[..] == old(xstate[..])[x := XREADY];
      var saddr := PushFrame(xbase[x], proc, args);
      ghost var framed := mem[..];
      mem[layout.reg[x]] := saddr;
      assert mem[..] == framed[layout.reg[x] := saddr];
    }

    // ---------- main.c ----------

    /** main's loop over the table. */
    method ClearTable()
      requires xid.Length == xlimit.Length == xbase.Length == xstate.Length == |layout.lo| == |layout.hi|
      requires xid != xlimit && xid != xbase && xlimit != xbase
      requires forall i :: 0 <= i < |layout.lo| ==> layout.hi[i] == layout.lo[i] + 2048
      modifies xid, xlimit, xbase, xstate
      ensures forall i :: 0 <= i < xid.Length ==>
                xid[i] == i && xlimit[i] == layout.lo[i] && xbase[i] == layout.hi[i] - 1 && xstate[i] == XFREE
    {
      for i := 0 to xstate.Length
        invariant forall j :: 0 <= j < i ==>
                    xid[j] == j && xlimit[j] == layout.lo[j] && xbase[j] == layout.hi[j] - 1 && xstate[j] == XFREE
      {
        xid[i] := i;
        xlimit[i] := layout.lo[i];
        xbase[i] := xlimit[i] + STKWORDS - 1;
        xstate[i] := XFREE;
      }
    }

    /** main, up to its switch into xmain: every slot is FREE with its own
        stack, then slot 0 is created for xmain and made the running one. The
        registers are main's own. */
    constructor (l: Layout, memory: array<int>, n: nat, xmain: int, args: seq<int>, cpu: Cpu)
      requires n > 0 && l.Valid(n) && memory.Length == l.size
      requires forall i :: 0 <= i < n ==> l.hi[i] == l.lo[i] + 2048
      requires |args| + 6 <= 2048
      modifies memory
      ensures Valid() && mem == memory && layout == l && fresh(xstate) && xstate.Length == n
      ensures Tab() == Boot(n, 0).tab && Regs() == cpu
      ensures mem[..] == Created(l, old(memory[..]), 0, xmain, args).0
    {
      xid, xlimit, xbase, xstate := new int[n], new int[n], new int[n], new XState[n](_ => XFREE);
      mem, layout := memory, l;
      currxid, nextproc := 0, 0;
      esp, ebp, esi, edi, ebx, eip := cpu.esp, cpu.ebp, cpu.esi, cpu.edi, cpu.ebx, cpu.eip;
      new;
      ClearTable();
      assert SearchFrom(xstate[..], 0, 0, XFREE) == Some(0);
      var r := XthreadCreate(xmain, args);
      xstate[0] := XRUN;
      assert xstate[..] == Boot(n, 0).tab.st;
    }

    // ---------- resched.c ----------

    /** What a call of resched needs: room for the call, and a saved stack in
        the slot that will be chosen. */
    ghost predicate CanResched(t: Table)
      requires Valid() && t.Valid() && |t.st| == xstate.Length
      reads this, xid, xlimit, xbase, mem
    {
      && 6 <= esp <= mem.Length
      && match Resched(t)
         case None => true
         case Some(t') => CanSwitch(layout, mem[..], Regs(), t.curr, t'.curr)
    }

    /** The pushes of a call of ctxsw and the switch it enters. */
    method CallSwitchAt(fromReg: int, toReg: int, back: int)
      requires 6 <= esp <= mem.Length && 0 <= fromReg < mem.Length && 0 <= toReg < mem.Length
      requires Loadable(CalledAt(mem[..], Regs(), fromReg, toReg, back), Regs().(esp := esp - 3))
      modifies this`esp, this`ebp, this`esi, this`edi, this`ebx, this`eip, mem
      ensures (mem[..], Regs()) == CallAt(old(mem[..]), old(Regs()), fromReg, toReg, back)
    {
      Push(toReg);
      Push(fromReg);
      Push(back);
      assert mem[..] == CalledAt(old(mem[..]), old(Regs()), fromReg, toReg, back);
      assert mem[esp + 1] == mem[..][esp + 1];
      Switch();
    }

    method CallSwitch(cptr: nat, xptr: nat)
      requires Valid() && cptr < xstate.Length && xptr < xstate.Length
      requires CanSwitch(layout, mem[..], Regs(), cptr, xptr)
      modifies this`esp, this`ebp, this`esi, this`edi, this`ebx, this`eip, mem
      ensures (mem[..], Regs()) == CallCtxsw(layout, old(mem[..]), old(Regs()), cptr, xptr)
    {
      CallSwitchAt(layout.reg[cptr], layout.reg[xptr], layout.resume);
    }

    /** The slot found becomes the running one. */
    method SwitchTo(next: nat)
      requires Valid() && next < xstate.Length && CanResched(Tab())
      requires Resched(Tab()) == Some(Tab().(st := Tab().st[next := XRUN], curr := next))
      modifies this`currxid, xstate, this`esp, this`ebp, this`esi, this`edi, this`ebx, this`eip, mem
      ensures Valid() && Resched(old(Tab())) == Some(Tab()) && currxid == next
      ensures (mem[..], Regs()) == CallCtxsw(layout, old(mem[..]), old(Regs()), old(currxid), next)
    {
      xstate[next] := XRUN;
      assert xstate[..] == old(xstate[..])[next := XRUN];
      var cptr := currxid;
      currxid := next;
      CallSwitch(cptr, next);
    }

    /** False is exit(0). */
    method Reschedule() returns (ok: bool)
      requires Valid() && CanResched(Tab())
      modifies this`currxid, xstate, this`esp, this`ebp, this`esi, this`edi, this`ebx, this`eip, mem
      ensures Valid()
      ensures match Resched(old(Tab()))
              case None => !ok && Tab() == old(Tab()) && mem[..] == old(mem[..]) && Regs() == old(Regs())
              case Some(t) =>
                && ok && Tab() == t
                && (mem[..], Regs()) == CallCtxsw(layout, old(mem[..]), old(Regs()), old(currxid), t.curr)
    {
      var n, next := xstate.Length, currxid;
      ghost var st, start := xstate[..], Succ(currxid, n);
      for i := 0 to n
        invariant next == At(currxid, i, n)
        invariant SearchFrom(st, start, i, XREADY) == Search(st, start, XREADY)
      {
        next := next + 1;
        if next >= n { next := 0; }
        assert next == At(start, i, n);
        if xstate[next] == XREADY {
          SwitchTo(next);
          return true;
        }
      }
      return false;
    }

    /** The alarm handler, in main.c. */
    method Handler() returns (ok: bool)
      requires Valid() && CanResched(Tab().(st := Tab().st[currxid := XREADY]))
      modifies this`currxid, xstate, this`esp, this`ebp, this`esi, this`edi, this`ebx, this`eip, mem
      ensures Valid() && ok
      ensures var t0 := old(Tab()); var t := t0.(st := t0.st[t0.curr := XREADY]);
              Resched(t) == Some(Tab()) &&
              (mem[..], Regs()) == CallCtxsw(layout, old(mem[..]), old(Regs()), t0.curr, currxid)
    {
      xstate[currxid] := XREADY;
      assert xstate[..] == old(xstate[..])[currxid := XREADY];
      assert Tab().st[currxid] == XREADY;
      ok := Reschedule();
    }

    /** Entered when a thread's procedure returns. */
    method UserRet() returns (ok: bool)
      requires Valid() && CanResched(Tab().(st := Tab().st[currxid := XFREE]))
      modifies this`currxid, xstate, this`esp, this`ebp, this`esi, this`edi, this`ebx, this`eip, mem
      ensures Valid()
      ensures var t0 := old(Tab()); var t := t0.(st := t0.st[t0.curr := XFREE]);
              match Resched(t)
              case None => !ok && Tab() == t
              case Some(t') =>
                ok && Tab() == t' && (mem[..], Regs()) == CallCtxsw(layout, old(mem[..]), old(Regs()), t0.curr, currxid)
    {
      xstate[currxid] := XFREE;
      assert xstate[..] == old(xstate[..])[currxid := XFREE];
      ok := Reschedule();
    }

    // ---------- message.c ----------

    ghost predicate CanServe(mb: Mailbox)
      reads this, mb, mb.nodes, xstate, mem
    {
      forall i :: 0 <= i < |mb.Queue()| ==> mb.Queue()[i].xid < xstate.Length && 0 <= mb.Queue()[i].dest < mem.Length
    }

    /** The first waiter gets the message, leaves the list and becomes READY. */
    method HandOver(mb: Mailbox, msg: int)
      requires mb.Valid() && mb.head != null
      requires mb.head.xid < xstate.Length && 0 <= mb.head.dest < mem.Length
      modifies xstate, mem, mb
      ensures mb.Valid() && mb.message == old(mb.message) && mb.nodes == old(mb.nodes)[1..]
      ensures old(mb.Queue()) != [] && mb.Queue() == old(mb.Queue())[1..]
      ensures xstate[..] == old(xstate[..])[old(mb.Queue())[0].xid := XREADY]
      ensures mem[..] == old(mem[..])[old(mb.Queue())[0].dest := msg]
    {
      ghost var q := mb.Queue();
      assert q[0] == Waiter(mb.head.xid, mb.head.dest);
      var waiting := mb.head.xid;
      mem[mb.head.dest] := msg;
      mb.RemoveHead();
      xstate[waiting] := XREADY;
      assert mb.Queue() == q[1..];
    }

    method XthreadSend(mb: Mailbox, msg: int) returns (r: int)
      requires Valid() && mb.Valid() && CanServe(mb)
      modifies xstate, mem, mb
      ensures Valid() && mb.Valid() && forall n :: n in mb.nodes ==> n in old(mb.nodes)
      ensures var c := SendTo(old(mb.Box()), msg);
              && mb.Box() == c.box && r == c.ret
              && (forall i :: 0 <= i < |c.woken| ==> c.woken[i].xid < xstate.Length)
              && (forall i :: 0 <= i < |c.out| ==> 0 <= c.out[i].to.dest < mem.Length)
              && Tab() == old(Tab()).(st := Wake(old(xstate[..]), c.woken))
              && mem[..] == StoreAll(old(mem[..]), c.out)
      ensures Sent(old(mb.Box()), old(xstate[..]), old(mem[..]), msg, r, mb.Box(), xstate[..], mem[..])
    {
      SendIs(mb.Box(), xstate[..], mem[..], msg);
      if mb.message > 0 {
        return -1;
      } else if mb.head == null {
        mb.message := msg;
        return 0;
      } else {
        ghost var q := mb.Queue();
        HandOver(mb, msg);
        FirstServed(old(xstate[..]), old(mem[..]), q[0], msg);
        return 0;
      }
    }

    /** The first k of the waiters q have been served. */
    ghost predicate Drained(mb: Mailbox, q: seq<Waiter>, st: seq<XState>, m: Memory, k: nat, msg: int)
      reads this, mb, mb.nodes, xstate, mem
    {
      && k <= |q| && mb.Queue() == q[k..]
      && (forall i :: 0 <= i < |q| ==> q[i].xid < |st| && 0 <= q[i].dest < |m|)
      && xstate[..] == Wake(st, q[..k]) && mem[..] == StoreAll(m, DeliverAll(q[..k], msg))
    }

    /** One round of the draining loop. */
    method ServeNext(mb: Mailbox, ghost q: seq<Waiter>, ghost st: seq<XState>, ghost m: Memory, ghost k: nat, msg: int)
      requires mb.Valid() && mb.head != null && Drained(mb, q, st, m, k, msg)
      modifies xstate, mem, mb
      ensures mb.Valid() && mb.message == old(mb.message) && mb.nodes == old(mb.nodes)[1..]
      ensures Drained(mb, q, st, m, k + 1, msg)
    {
      assert mb.Queue()[0] == q[k] == Waiter(mb.head.xid, mb.head.dest);
      HandOver(mb, msg);
      RoundSnoc(st, m, q, k, msg);
    }

    /** The draining loop. */
    method Drain(mb: Mailbox, msg: int)
      requires mb.Valid() && CanServe(mb)
      modifies xstate, mem, mb
      ensures mb.Valid() && mb.nodes == [] && mb.message == old(mb.message)
      ensures forall i :: 0 <= i < |old(mb.Queue())| ==>
                old(mb.Queue())[i].xid < xstate.Length && 0 <= old(mb.Queue())[i].dest < mem.Length
      ensures xstate[..] == Wake(old(xstate[..]), old(mb.Queue()))
      ensures mem[..] == StoreAll(old(mem[..]), DeliverAll(old(mb.Queue()), msg))
    {
      ghost var q, st0, mem0 := mb.Queue(), xstate[..], mem[..];
      ghost var k := 0;
      while mb.head != null
        invariant k <= |q| && mb.Valid() && mb.message == old(mb.message) && mb.nodes == old(mb.nodes)[k..]
        invariant Drained(mb, q, st0, mem0, k, msg)
        decreases |q| - k
      {
        ServeNext(mb, q, st0, mem0, k, msg);
        k := k + 1;
      }
      assert q[..k] == q;
    }

    method XthreadBroadcast(mb: Mailbox, msg: int) returns (r: int)
      requires Valid() && mb.Valid() && CanServe(mb)
      modifies xstate, mem, mb
      ensures Valid() && mb.Valid() && forall n :: n in mb.nodes ==> n in old(mb.nodes)
      ensures var c := BroadcastTo(old(mb.Box()), msg);
              && mb.Box() == c.box && r == c.ret
              && (forall i :: 0 <= i < |c.woken| ==> c.woken[i].xid < xstate.Length)
              && (forall i :: 0 <= i < |c.out| ==> 0 <= c.out[i].to.dest < mem.Length)
              && Tab() == old(Tab()).(st := Wake(old(xstate[..]), c.woken))
              && mem[..] == StoreAll(old(mem[..]), c.out)
      ensures BroadcastDone(old(mb.Box()), old(xstate[..]), old(mem[..]), msg, r, mb.Box(), xstate[..], mem[..])
    {
      BroadcastIs(mb.Box(), xstate[..], mem[..], msg);
      if mb.message > 0 {
        return -1;
      } else if mb.head == null {
        return -2;
      }
      Drain(mb, msg);
      return 0;
    }

    /** What the call c of a receive has done to table, memory and registers. */
    twostate predicate Received(c: Call, ok: bool)
      requires old(Valid())
      requires c.blocks ==> old(CanResched(Tab()))
      requires forall i :: 0 <= i < |c.out| ==> 0 <= c.out[i].to.dest < mem.Length
      reads this, xid, xlimit, xbase, xstate, mem
    {
      if c.blocks then
        match Resched(old(Tab()))
        case None => !ok && Tab() == old(Tab())
        case Some(t) =>
          && ok && Tab() == t
          && (mem[..], Regs()) == CallCtxsw(layout, old(mem[..]), old(Regs()), old(currxid), t.curr)
      else
        ok && Tab() == old(Tab()) && Regs() == old(Regs()) && mem[..] == StoreAll(old(mem[..]), c.out)
    }

    /** When the box is empty the caller queues itself and gives up the
        processor with its state still XRUN; `ok` is false if resched exits. */
    method XthreadRecv(mb: Mailbox, dest: int) returns (ok: bool)
      requires Valid() && mb.Valid() && 0 <= dest < mem.Length
      requires mb.message == EMPTY ==> CanResched(Tab())
      modifies this`currxid, xstate, this`esp, this`ebp, this`esi, this`edi, this`ebx, this`eip, mem, mb, mb.nodes
      ensures Valid() && mb.Valid() && forall n :: n in mb.nodes ==> n in old(mb.nodes) || fresh(n)
      ensures var me := Waiter(old(currxid), dest);
              var c := RecvFrom(old(mb.Box()), me);
              mb.Box() == c.box && Received(c, ok)
      ensures old(mb.message) == -1 ==>
                mb.message == -1 && mb.Queue() == old(mb.Queue()) + [Waiter(old(currxid), dest)]
      ensures old(mb.message) != -1 ==>
                && ok && mb.message == -1 && mb.Queue() == old(mb.Queue())
                && mem[..] == old(mem[..])[dest := old(mb.message)]
    {
      if mb.message == -1 {
        mb.Append(Waiter(currxid, dest));
        ok := Reschedule();
      } else {
        var curMsg := mb.message;
        mb.message := -1;
        mem[dest] := curMsg;
        StoreSnoc(old(mem[..]), [], Delivery(Waiter(currxid, dest), curMsg));
        assert [] + [Delivery(Waiter(currxid, dest), curMsg)] == [Delivery(Waiter(currxid, dest), curMsg)];
        ok := true;
      }
    }
  }
}
