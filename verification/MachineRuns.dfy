/** Whole runs of the machine: arbitrary code between library calls, the
    library's steps, and the switches they cause. A thread that is switched
    back in finds its registers and its stack as it left them, up to the
    messages stored through pointers it handed out itself. */
module MachineRuns {
  import opened Threads
  import opened Wrappers
  import opened ThreadRuns
  import opened Machine

  /** `frames` records, for every live thread that is not running, the stack it
      left; it is written when a thread leaves, is created, or is sent a
      message, and never read back from memory. */
  datatype Mach = Mach(sys: Sys, mem: Memory, cpu: Cpu, frames: Frames)

  datatype MEvent =
    | Compute(cpu: Cpu, stores: seq<(int, int)>)
    | Spawn(proc: int, args: seq<int>)
    | Library(e: Event)

  ghost predicate PointersOk(l: Layout, n: nat, mb: seq<Mbox>, fs: Frames)
    requires l.Valid(n)
  {
    forall b, i :: 0 <= b < |mb| && 0 <= i < |mb[b].queue| ==>
      var w := mb[b].queue[i];
      w.xid in fs && MayPoint(l, n, w.xid, fs[w.xid].sp + 4, w.dest)
  }

  ghost predicate KeysOk(t: Table, fs: Frames)
    requires t.Valid()
  {
    forall x: nat :: x in fs <==> x < |t.st| && x != t.curr && t.st[x] != XFREE
  }

  ghost predicate MachInv(l: Layout, m: Mach) {
    && Inv(m.sys)
    && var n := |m.sys.tab.st|;
       && l.Valid(n)
       && HoldsAll(l, n, m.mem, m.frames)
       && KeysOk(m.sys.tab, m.frames)
       && PointersOk(l, n, m.sys.mb, m.frames)
       && l.lo[m.sys.tab.curr] <= m.cpu.esp <= l.hi[m.sys.tab.curr]
  }

  /** What running code is assumed to respect: it stores only into its own
      stack or into words that belong to no stack and no xregs, its stacks do
      not overflow, and the pointer it gives to a receive is one of its own. */
  ghost predicate Permitted(l: Layout, m: Mach, me: MEvent)
    requires MachInv(l, m)
  {
    var n, c := |m.sys.tab.st|, m.sys.tab.curr;
    match me
    case Compute(cpu, stores) =>
      && l.lo[c] <= cpu.esp <= l.hi[c]
      && forall i :: 0 <= i < |stores| ==> MayPoint(l, n, c, stores[i].0, stores[i].0)
    case Spawn(_, args) =>
      (match CreateIn(m.sys.tab)
       case None => true
       case Some(p) => |args| + 5 <= l.hi[p.0] - 1 - l.lo[p.0])
    case Library(e) =>
      && !e.Create? && Allowed(m.sys, e)
      && (Reschedules(m.sys, e) ==> l.lo[c] + 6 <= m.cpu.esp)
      && (e.Recv? ==> MayPoint(l, n, c, m.cpu.esp, e.dest))
  }

  function StorePairs(mem: Memory, stores: seq<(int, int)>): (r: Memory)
    requires forall i :: 0 <= i < |stores| ==> 0 <= stores[i].0 < |mem|
    ensures |r| == |mem|
    decreases |stores|
  {
    if stores == [] then mem else StorePairs(mem[stores[0].0 := stores[0].1], stores[1..])
  }

  function Created(l: Layout, mem: Memory, x: nat, proc: int, args: seq<int>): (r: (Memory, Frame))
    requires x < |l.hi| && x < |l.reg| && 0 <= l.reg[x] < |mem| && |args| + 6 <= l.hi[x] <= |mem|
    ensures |r.0| == |mem|
  {
    var sp := l.hi[x] - 1 - |args| - 5;
    (NewFrame(l, mem, l.hi[x] - 1, proc, args)[l.reg[x] := sp],
     Frame(sp, mem[sp..sp + 3] + [proc, l.userret] + args + [mem[l.hi[x] - 1]]))
  }

  lemma OutInMemory(l: Layout, m: Mach, e: Event)
    requires MachInv(l, m) && Permitted(l, m, Library(e)) && !Reschedules(m.sys, e)
    ensures m.sys.Valid() && Step(m.sys, e).Next?
    ensures var out := Step(m.sys, e).out;
            && (forall i :: 0 <= i < |out| ==> 0 <= out[i].to.dest < |m.mem|)
            && (!e.Recv? ==> forall i :: 0 <= i < |out| ==> Safe(l, |m.sys.tab.st|, m.frames, out[i]))
            && (e.Recv? ==> out == [Delivery(Waiter(m.sys.tab.curr, e.dest), m.sys.mb[e.b].message)])
  {
    InvIsValid(m.sys);
  }

  ghost function MStep(l: Layout, m: Mach, me: MEvent): Option<Mach>
    requires MachInv(l, m) && Permitted(l, m, me)
  {
    InvIsValid(m.sys);
    var c := m.sys.tab.curr;
    match me
    case Compute(cpu, stores) => Some(m.(cpu := cpu, mem := StorePairs(m.mem, stores)))
    case Spawn(proc, args) =>
      (match CreateIn(m.sys.tab)
       case None => None
       case Some((x, t)) =>
         var (mem, f) := Created(l, m.mem, x, proc, args);
         Some(Mach(m.sys.(tab := t), mem, m.cpu, m.frames[x := f])))
    case Library(e) =>
      match Step(m.sys, e)
      case Stop(_) => None
      case Next(s, out, _) =>
        if Reschedules(m.sys, e) then
          StepInv(m.sys, e);
          var (mem, cpu) := CallCtxsw(l, m.mem, m.cpu, c, s.tab.curr);
          var fs := m.frames[c := LeftBehind(l, m.mem, m.cpu, c, s.tab.curr)];
          Some(Mach(s, mem, cpu, fs - {s.tab.curr} - if e.Exit? then {c} else {}))
        else
          OutInMemory(l, m, e);
          Some(Mach(s, StoreAll(m.mem, out), m.cpu, NoteAll(l, m.frames, out)))
  }

  // ---------- mailbox calls that do not block ----------

  lemma CallHolds(l: Layout, m: Mach, e: Event)
    requires MachInv(l, m) && Permitted(l, m, Library(e)) && !Reschedules(m.sys, e)
    ensures MStep(l, m, Library(e)).Some?
    ensures var m' := MStep(l, m, Library(e)).value;
            && HoldsAll(l, |m.sys.tab.st|, m'.mem, m'.frames)
            && forall x :: x in m.frames ==> m'.frames[x].sp == m.frames[x].sp
  {
    OutInMemory(l, m, e);
    var n, out := |m.sys.tab.st|, Step(m.sys, e).out;
    if e.Recv? {
      var d := out[0];
      PrivateStore(l, n, m.mem, m.frames, m.sys.tab.curr, e.dest, d.msg);
      assert StoreAll(m.mem, out) == m.mem[e.dest := d.msg];
      assert NoteAll(l, m.frames, out) == m.frames;
    } else {
      NoteAllHolds(l, n, m.mem, m.frames, out);
    }
  }

  predicate Suffix(q: seq<Waiter>, k: int, r: seq<Waiter>) {
    0 <= k <= |q| && r == q[k..]
  }

  predicate Shrunk(mb: seq<Mbox>, mb': seq<Mbox>) {
    |mb'| == |mb| && forall b :: 0 <= b < |mb| ==>
      Suffix(mb[b].queue, |mb[b].queue| - |mb'[b].queue|, mb'[b].queue)
  }

  /** A call that does not block adds nothing to any queue. */
  lemma QueuesShrink(s: Sys, e: Event)
    requires s.Valid() && Allowed(s, e) && !Reschedules(s, e) && !e.Create?
    ensures Step(s, e).Next? && Shrunk(s.mb, Step(s, e).sys.mb)
  {
    assert Step(s, e).sys.mb == s.mb[e.b := MboxCall(s, e).box];
  }

  lemma PointersShrunk(l: Layout, n: nat, mb: seq<Mbox>, mb': seq<Mbox>, fs: Frames, fs': Frames)
    requires l.Valid(n) && PointersOk(l, n, mb, fs) && Shrunk(mb, mb')
    requires fs'.Keys == fs.Keys && forall x :: x in fs ==> fs'[x].sp == fs[x].sp
    ensures PointersOk(l, n, mb', fs')
  {
    forall b, i | 0 <= b < |mb'| && 0 <= i < |mb'[b].queue|
      ensures var w := mb'[b].queue[i];
              w.xid in fs' && MayPoint(l, n, w.xid, fs'[w.xid].sp + 4, w.dest)
    {
      var k := |mb[b].queue| - |mb'[b].queue|;
      assert Suffix(mb[b].queue, k, mb'[b].queue);
      assert mb'[b].queue[i] == mb[b].queue[i + k];
    }
  }

  lemma NotFreed(s: Sys, e: Event, x: nat)
    requires Inv(s) && Allowed(s, e) && !Reschedules(s, e) && !e.Create? && x < |s.tab.st|
    ensures s.Valid() && Step(s, e).Next?
    ensures Step(s, e).sys.tab.st[x] == XFREE <==> s.tab.st[x] == XFREE
  {
    InvIsValid(s);
    var c := MboxCall(s, e);
    forall i | 0 <= i < |c.woken| ensures s.tab.st[c.woken[i].xid] != XFREE {
      assert Listed(s.mb, e.b, i, c.woken[i].xid);
    }
  }

  lemma CallKeys(s: Sys, e: Event, fs: Frames)
    requires Inv(s) && Allowed(s, e) && !Reschedules(s, e) && !e.Create? && KeysOk(s.tab, fs)
    ensures s.Valid() && Step(s, e).Next? && Step(s, e).sys.tab.Valid()
    ensures Step(s, e).sys.tab.curr == s.tab.curr && |Step(s, e).sys.tab.st| == |s.tab.st|
    ensures KeysOk(Step(s, e).sys.tab, fs)
  {
    StepInv(s, e);
    forall x: nat | x < |s.tab.st|
      ensures Step(s, e).sys.tab.st[x] == XFREE <==> s.tab.st[x] == XFREE
    {
      NotFreed(s, e, x);
    }
  }

  lemma CallInv(l: Layout, m: Mach, e: Event)
    requires MachInv(l, m) && Permitted(l, m, Library(e)) && !Reschedules(m.sys, e)
    ensures MStep(l, m, Library(e)).Some? && MachInv(l, MStep(l, m, Library(e)).value)
  {
    CallHolds(l, m, e);
    StepInv(m.sys, e);
    var m' := MStep(l, m, Library(e)).value;
    QueuesShrink(m.sys, e);
    PointersShrunk(l, |m.sys.tab.st|, m.sys.mb, m'.sys.mb, m.frames, m'.frames);
    CallKeys(m.sys, e, m.frames);
  }

  // ---------- creating a thread ----------

  lemma CreatedHolds(l: Layout, n: nat, mem: Memory, fs: Frames, x: nat, proc: int, args: seq<int>)
    requires l.Valid(n) && HoldsAll(l, n, mem, fs) && x < n && x !in fs
    requires |args| + 5 <= l.hi[x] - 1 - l.lo[x]
    ensures var (mem', f) := Created(l, mem, x, proc, args); HoldsAll(l, n, mem', fs[x := f])
  {
    var (mem', f) := Created(l, mem, x, proc, args);
    var sp, top := f.sp, l.hi[x] - 1;
    var nf := NewFrame(l, mem, top, proc, args);
    assert !l.InStack(x, l.reg[x]);
    forall a | 0 <= a < |mem| && a != l.reg[x] && !l.InStack(x, a) ensures mem'[a] == mem[a] {
      assert a < l.lo[x] || a >= l.hi[x];
    }
    assert f.words == nf[sp..l.hi[x]];
    forall a | sp <= a < l.hi[x] ensures mem'[a] == nf[a] { assert l.InStack(x, a); }
    assert f.words == mem'[sp..l.hi[x]];
    forall y | y in fs ensures y < n && Holds(l, mem', y, fs[y]) {
      forall a | 0 <= a < |mem| && l.InStack(y, a) ensures mem'[a] == mem[a] {
        assert !l.InStack(x, a) && a != l.reg[x];
      }
      assert !l.InStack(x, l.reg[y]) && l.reg[y] != l.reg[x];
      HoldsSame(l, mem, mem', y, fs[y]);
    }
  }

  lemma SpawnInv(l: Layout, m: Mach, proc: int, args: seq<int>)
    requires MachInv(l, m) && Permitted(l, m, Spawn(proc, args))
    ensures MStep(l, m, Spawn(proc, args)).Some? ==> MachInv(l, MStep(l, m, Spawn(proc, args)).value)
  {
    StepInv(m.sys, Create);
    match CreateIn(m.sys.tab)
    case None =>
    case Some((x, t)) =>
      CreatedHolds(l, |m.sys.tab.st|, m.mem, m.frames, x, proc, args);
  }

  // ---------- code between calls ----------

  lemma StoresHold(l: Layout, n: nat, mem: Memory, fs: Frames, x: nat, stores: seq<(int, int)>)
    requires l.Valid(n) && HoldsAll(l, n, mem, fs) && x !in fs
    requires forall i :: 0 <= i < |stores| ==> MayPoint(l, n, x, stores[i].0, stores[i].0)
    ensures forall i :: 0 <= i < |stores| ==> 0 <= stores[i].0 < |mem|
    ensures HoldsAll(l, n, StorePairs(mem, stores), fs)
    decreases |stores|
  {
    if stores == [] {
    } else {
      PrivateStore(l, n, mem, fs, x, stores[0].0, stores[0].1);
      StoresHold(l, n, mem[stores[0].0 := stores[0].1], fs, x, stores[1..]);
    }
  }

  // ---------- steps that give up the processor ----------

  /** The frame the next thread goes on from. */
  ghost function Waking(l: Layout, m: Mach, to: nat): Frame
    requires MachInv(l, m) && 6 <= m.cpu.esp && (to in m.frames || to == m.sys.tab.curr)
  {
    if to == m.sys.tab.curr then LeftBehind(l, m.mem, m.cpu, to, to) else m.frames[to]
  }

  lemma NextThread(s: Sys, e: Event)
    requires Inv(s) && Allowed(s, e) && Reschedules(s, e)
    ensures s.Valid()
    ensures Step(s, e).Next? ==>
              var t := Step(s, e).sys.tab;
              && t.Valid() && |t.st| == |s.tab.st|
              && (t.curr == s.tab.curr || s.tab.st[t.curr] == XREADY)
              && (e.Exit? ==> t.curr != s.tab.curr && t.st[s.tab.curr] == XFREE)
              && (!e.Exit? ==> t.st[s.tab.curr] != XFREE)
              && t.st[t.curr] == XRUN
              && (forall x :: 0 <= x < |t.st| && x != t.curr && x != s.tab.curr ==> t.st[x] == s.tab.st[x])
  {
    StepInv(s, e);
  }

  lemma YieldHolds(l: Layout, m: Mach, e: Event)
    requires MachInv(l, m) && Permitted(l, m, Library(e)) && Reschedules(m.sys, e)
    requires MStep(l, m, Library(e)).Some?
    ensures var m' := MStep(l, m, Library(e)).value;
            var k := m'.sys.tab.curr;
            && k < |m.sys.tab.st|
            && (k in m.frames || k == m.sys.tab.curr)
            && HoldsAll(l, |m.sys.tab.st|, m'.mem, m'.frames)
            && |Waking(l, m, k).words| >= 4
            && m'.cpu == Resumed(l, k, Waking(l, m, k))
            && Holds(l, m'.mem, k, Waking(l, m, k))
  {
    NextThread(m.sys, e);
    var c, k := m.sys.tab.curr, Step(m.sys, e).sys.tab.curr;
    SwitchHolds(l, |m.sys.tab.st|, m.mem, m.frames, m.cpu, c, k);
    var all := m.frames[c := LeftBehind(l, m.mem, m.cpu, c, k)];
    assert all[k] == Waking(l, m, k);
  }

  lemma PointersAdded(l: Layout, n: nat, mb: seq<Mbox>, b: nat, w: Waiter, fs: Frames, fs': Frames)
    requires l.Valid(n) && PointersOk(l, n, mb, fs) && b < |mb|
    requires forall c, i :: 0 <= c < |mb| && 0 <= i < |mb[c].queue| ==>
               var x := mb[c].queue[i].xid; x in fs' && x in fs && fs'[x] == fs[x]
    requires w.xid in fs' && MayPoint(l, n, w.xid, fs'[w.xid].sp + 4, w.dest)
    ensures PointersOk(l, n, mb[b := QueueSelf(mb[b], w)], fs')
  {
  }

  lemma PointersSame(l: Layout, n: nat, mb: seq<Mbox>, fs: Frames, fs': Frames)
    requires l.Valid(n) && PointersOk(l, n, mb, fs)
    requires forall c, i :: 0 <= c < |mb| && 0 <= i < |mb[c].queue| ==>
               var x := mb[c].queue[i].xid; x in fs' && x in fs && fs'[x] == fs[x]
    ensures PointersOk(l, n, mb, fs')
  {
  }

  /** No blocked thread is the one that leaves or the one chosen to run. */
  lemma WaitersStay(s: Sys, e: Event, c: int, i: int)
    requires Inv(s) && Allowed(s, e) && Reschedules(s, e) && s.Valid() && Step(s, e).Next?
    requires 0 <= c < |s.mb| && 0 <= i < |s.mb[c].queue|
    ensures s.mb[c].queue[i].xid != s.tab.curr
    ensures s.mb[c].queue[i].xid != Step(s, e).sys.tab.curr
  {
    NextThread(s, e);
    assert Listed(s.mb, c, i, s.mb[c].queue[i].xid);
  }

  lemma WaitersFrames(l: Layout, m: Mach, e: Event, c: int, i: int)
    requires MachInv(l, m) && Permitted(l, m, Library(e)) && Reschedules(m.sys, e)
    requires MStep(l, m, Library(e)).Some? && 0 <= c < |m.sys.mb| && 0 <= i < |m.sys.mb[c].queue|
    ensures var m', x := MStep(l, m, Library(e)).value, m.sys.mb[c].queue[i].xid;
            x in m'.frames && x in m.frames && m'.frames[x] == m.frames[x]
  {
    NextThread(m.sys, e);
    WaitersStay(m.sys, e, c, i);
  }

  lemma YieldPointers(l: Layout, m: Mach, e: Event)
    requires MachInv(l, m) && Permitted(l, m, Library(e)) && Reschedules(m.sys, e)
    requires MStep(l, m, Library(e)).Some?
    ensures var m' := MStep(l, m, Library(e)).value;
            PointersOk(l, |m.sys.tab.st|, m'.sys.mb, m'.frames)
  {
    NextThread(m.sys, e);
    var m' := MStep(l, m, Library(e)).value;
    forall c, i | 0 <= c < |m.sys.mb| && 0 <= i < |m.sys.mb[c].queue|
      ensures var x := m.sys.mb[c].queue[i].xid;
              x in m'.frames && x in m.frames && m'.frames[x] == m.frames[x]
    {
      WaitersFrames(l, m, e, c, i);
    }
    if e.Recv? {
      PointersAdded(l, |m.sys.tab.st|, m.sys.mb, e.b, Waiter(m.sys.tab.curr, e.dest), m.frames, m'.frames);
    } else {
      PointersSame(l, |m.sys.tab.st|, m.sys.mb, m.frames, m'.frames);
    }
  }

  /** The frames after a switch belong to the live threads off the processor. */
  lemma KeysMoved(t: Table, t': Table, fs: Frames, f: Frame, exits: bool)
    requires t.Valid() && t'.Valid() && |t'.st| == |t.st| && KeysOk(t, fs)
    requires t'.curr == t.curr || t.st[t'.curr] == XREADY
    requires exits ==> t'.curr != t.curr && t'.st[t.curr] == XFREE
    requires !exits ==> t'.st[t.curr] != XFREE
    requires forall x :: 0 <= x < |t.st| && x != t'.curr && x != t.curr ==> t'.st[x] == t.st[x]
    ensures KeysOk(t', fs[t.curr := f] - {t'.curr} - if exits then {t.curr} else {})
  {
  }

  lemma YieldKeys(l: Layout, m: Mach, e: Event)
    requires MachInv(l, m) && Permitted(l, m, Library(e)) && Reschedules(m.sys, e)
    requires MStep(l, m, Library(e)).Some?
    ensures var m' := MStep(l, m, Library(e)).value; m'.sys.tab.Valid() && KeysOk(m'.sys.tab, m'.frames)
  {
    NextThread(m.sys, e);
    var t' := Step(m.sys, e).sys.tab;
    KeysMoved(m.sys.tab, t', m.frames, LeftBehind(l, m.mem, m.cpu, m.sys.tab.curr, t'.curr), e.Exit?);
  }

  lemma YieldInv(l: Layout, m: Mach, e: Event)
    requires MachInv(l, m) && Permitted(l, m, Library(e)) && Reschedules(m.sys, e)
    requires MStep(l, m, Library(e)).Some?
    ensures MachInv(l, MStep(l, m, Library(e)).value)
  {
    var m' := MStep(l, m, Library(e)).value;
    StepInv(m.sys, e);
    YieldHolds(l, m, e);
    YieldPointers(l, m, e);
    YieldKeys(l, m, e);
    assert |m'.sys.tab.st| == |m.sys.tab.st| by { NextThread(m.sys, e); }
  }

  lemma MStepInv(l: Layout, m: Mach, me: MEvent)
    requires MachInv(l, m) && Permitted(l, m, me)
    ensures MStep(l, m, me).Some? ==> MachInv(l, MStep(l, m, me).value)
  {
    match me
    case Compute(cpu, stores) =>
      StoresHold(l, |m.sys.tab.st|, m.mem, m.frames, m.sys.tab.curr, stores);
    case Spawn(proc, args) => SpawnInv(l, m, proc, args);
    case Library(e) =>
      if Reschedules(m.sys, e) {
        if MStep(l, m, me).Some? { YieldInv(l, m, e); }
      } else {
        CallInv(l, m, e);
      }
  }
}
