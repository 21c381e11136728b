/** What a thread finds when it gets the processor: for the first time, and
    again after any run in which others had it. */
module SwitchedBack {
  import opened Threads
  import opened Wrappers
  import opened ThreadRuns
  import opened Machine
  import opened MachineRuns

  // ---------- the first entry ----------

  /** The machine at a thread's entry point: the return address userret is on
      top of its stack and its arguments follow in the caller's order. */
  ghost predicate EntryFrame(l: Layout, mem: Memory, cpu: Cpu, proc: int, args: seq<int>) {
    && 0 <= cpu.esp && cpu.esp + |args| < |mem|
    && cpu.eip == proc
    && mem[cpu.esp] == l.userret
    && forall j :: 0 <= j < |args| ==> mem[cpu.esp + 1 + j] == args[j]
  }

  lemma CreatedWords(l: Layout, mem: Memory, x: nat, proc: int, args: seq<int>)
    requires x < |l.hi| && x < |l.reg| && 0 <= l.reg[x] < |mem| && |args| + 6 <= l.hi[x] <= |mem|
    ensures var ws := Created(l, mem, x, proc, args).1.words;
            && |ws| == |args| + 6 && ws[3] == proc && ws[4] == l.userret
            && forall j :: 0 <= j < |args| ==> ws[5 + j] == args[j]
  {
  }

  lemma CreatedEntry(l: Layout, mem: Memory, x: nat, proc: int, args: seq<int>, mem': Memory)
    requires x < |l.lo| && x < |l.hi| && x < |l.reg| && 0 <= l.reg[x] < |mem|
    requires |args| + 6 <= l.hi[x] <= |mem|
    requires var f := Created(l, mem, x, proc, args).1; Holds(l, mem', x, f)
    ensures var f := Created(l, mem, x, proc, args).1;
            && |f.words| == |args| + 6
            && EntryFrame(l, mem', Resumed(l, x, f), proc, args)
  {
    var f := Created(l, mem, x, proc, args).1;
    FrameWords(l, mem', x, f);
    CreatedWords(l, mem, x, proc, args);
    forall j | 0 <= j < |args| ensures mem'[f.sp + 4 + 1 + j] == args[j] {
      assert mem'[f.sp + (5 + j)] == f.words[5 + j];
    }
  }

  /** A word that belongs to no thread's stack and is no saved stack pointer. */
  ghost predicate Outside(l: Layout, n: nat, a: int)
    requires l.Valid(n)
  {
    && 0 <= a < l.size
    && (forall y :: 0 <= y < n ==> a != l.reg[y])
    && forall y: nat :: !l.InStack(y, a)
  }

  /** main runs on a stack of its own, and its register area m.xregs lies
      outside the table and outside the words it is about to push. */
  ghost predicate MainOutside(l: Layout, n: nat, cpu: Cpu, mregs: int)
    requires l.Valid(n)
  {
    && 6 <= cpu.esp && (forall a :: cpu.esp - 6 <= a < cpu.esp ==> Outside(l, n, a))
    && Outside(l, n, mregs) && !(cpu.esp - 6 <= mregs < cpu.esp)
  }

  /** main: slot 0 is created for xmain, and main's call of ctxsw leaves main
      for it. */
  ghost function BootMach(l: Layout, n: nat, boxes: nat, mem: Memory, xmain: int, args: seq<int>,
                          cpu: Cpu, mregs: int, back: int): Mach
    requires n > 0 && l.Valid(n) && |mem| == l.size && |args| + 5 <= l.hi[0] - 1 - l.lo[0]
    requires MainOutside(l, n, cpu, mregs)
  {
    assert Outside(l, n, cpu.esp - 1);
    var (mem', cpu') := CallAt(Created(l, mem, 0, xmain, args).0, cpu, mregs, l.reg[0], back);
    Mach(Boot(n, boxes), mem', cpu', map[])
  }

  /** main's pushes disturb no thread's frame. */
  lemma MainPushes(l: Layout, n: nat, mem: Memory, cpu: Cpu, mregs: int, back: int, x: nat, f: Frame)
    requires l.Valid(n) && MainOutside(l, n, cpu, mregs) && |mem| == l.size && x < n && Holds(l, mem, x, f)
    ensures cpu.esp <= |mem| && Holds(l, PushedAt(mem, cpu, mregs, l.reg[x], back), x, f)
  {
    assert Outside(l, n, cpu.esp - 1);
    var mem' := PushedAt(mem, cpu, mregs, l.reg[x], back);
    forall a | 0 <= a < |mem| && !Outside(l, n, a) ensures mem'[a] == mem[a] {}
    assert !Outside(l, n, l.reg[x]);
    forall a | 0 <= a < |mem| && l.InStack(x, a) ensures mem'[a] == mem[a] { assert !Outside(l, n, a); }
    HoldsSame(l, mem, mem', x, f);
  }

  /** main's switch enters the frame of the slot it names. */
  lemma MainEnters(l: Layout, n: nat, mem: Memory, cpu: Cpu, mregs: int, back: int, x: nat, f: Frame)
    requires l.Valid(n) && MainOutside(l, n, cpu, mregs) && |mem| == l.size && x < n && Holds(l, mem, x, f)
    ensures cpu.esp <= |mem| && Loadable(CalledAt(mem, cpu, mregs, l.reg[x], back), cpu.(esp := cpu.esp - 3))
    ensures var (mem', cpu') := CallAt(mem, cpu, mregs, l.reg[x], back);
            Holds(l, mem', x, f) && |f.words| >= 4 && cpu' == Resumed(l, x, f)
  {
    MainPushes(l, n, mem, cpu, mregs, back, x, f);
    FrameWords(l, PushedAt(mem, cpu, mregs, l.reg[x], back), x, f);
    CallAtIsPushed(mem, cpu, mregs, l.reg[x], back);
  }

  /** The first switch can be made, and it enters xmain with its arguments. */
  lemma BootEnters(l: Layout, n: nat, mem: Memory, xmain: int, args: seq<int>, cpu: Cpu, mregs: int, back: int)
    requires n > 0 && l.Valid(n) && |mem| == l.size && |args| + 5 <= l.hi[0] - 1 - l.lo[0]
    requires MainOutside(l, n, cpu, mregs)
    ensures cpu.esp <= |mem|
    ensures var (mem1, f) := Created(l, mem, 0, xmain, args);
            var (mem2, cpu2) := CallAt(mem1, cpu, mregs, l.reg[0], back);
            && Loadable(CalledAt(mem1, cpu, mregs, l.reg[0], back), cpu.(esp := cpu.esp - 3))
            && Holds(l, mem2, 0, f) && |f.words| >= 4 && cpu2 == Resumed(l, 0, f)
  {
    CreatedHolds(l, n, mem, map[], 0, xmain, args);
    var (mem1, f) := Created(l, mem, 0, xmain, args);
    assert Holds(l, mem1, 0, map[0 := f][0]);
    MainEnters(l, n, mem1, cpu, mregs, back, 0, f);
  }

  lemma BootMachInv(l: Layout, n: nat, boxes: nat, mem: Memory, xmain: int, args: seq<int>,
                    cpu: Cpu, mregs: int, back: int)
    requires n > 0 && l.Valid(n) && |mem| == l.size && |args| + 5 <= l.hi[0] - 1 - l.lo[0]
    requires MainOutside(l, n, cpu, mregs)
    ensures var m := BootMach(l, n, boxes, mem, xmain, args, cpu, mregs, back);
            MachInv(l, m) && EntryFrame(l, m.mem, m.cpu, xmain, args)
  {
    BootInv(n, boxes);
    BootEnters(l, n, mem, xmain, args, cpu, mregs, back);
    CreatedEntry(l, mem, 0, xmain, args, BootMach(l, n, boxes, mem, xmain, args, cpu, mregs, back).mem);
  }

  // ---------- runs of the machine ----------

  ghost function MExec(l: Layout, m: Mach, es: seq<MEvent>): (r: Option<Mach>)
    requires MachInv(l, m)
    ensures r.Some? ==> MachInv(l, r.value)
    decreases |es|
  {
    if es == [] then Some(m) else
      match MExec(l, m, es[..|es| - 1])
      case None => None
      case Some(p) =>
        var e := es[|es| - 1];
        if Permitted(l, p, e) then MStepInv(l, p, e); MStep(l, p, e) else None
  }

  /** x is live but off the processor all the way through the run. */
  ghost predicate AlwaysParked(l: Layout, m: Mach, es: seq<MEvent>, x: nat)
    requires MachInv(l, m)
  {
    forall i :: 0 <= i <= |es| ==>
      MExec(l, m, es[..i]).Some? && x in MExec(l, m, es[..i]).value.frames
  }

  /** x is blocked in a receive into word a. */
  ghost predicate Pointed(mb: seq<Mbox>, x: nat, a: int) {
    exists b, i :: Listed(mb, b, i, x) && mb[b].queue[i].dest == a
  }

  /** f' is f except in words the thread is receiving into. */
  ghost predicate SameFrame(mb: seq<Mbox>, x: nat, f: Frame, f': Frame) {
    && f'.sp == f.sp && |f'.words| == |f.words|
    && forall k :: 0 <= k < |f.words| ==> f'.words[k] == f.words[k] || Pointed(mb, x, f.sp + k)
  }

  lemma NoteAllFrame(l: Layout, mb: seq<Mbox>, fs: Frames, out: seq<Delivery>, x: nat)
    requires x in fs
    requires forall i :: 0 <= i < |out| && out[i].to.xid == x ==> Pointed(mb, x, out[i].to.dest)
    ensures SameFrame(mb, x, fs[x], NoteAll(l, fs, out)[x])
    decreases |out|
  {
    if out == [] {
    } else {
      var fs1 := Note(l, fs, out[0]);
      assert SameFrame(mb, x, fs[x], fs1[x]);
      NoteAllFrame(l, mb, fs1, out[1..], x);
    }
  }

  lemma CallFrames(l: Layout, m: Mach, e: Event)
    requires MachInv(l, m) && Permitted(l, m, Library(e)) && !Reschedules(m.sys, e)
    ensures MStep(l, m, Library(e)).Some?
    ensures MStep(l, m, Library(e)).value.frames == NoteAll(l, m.frames, MboxCall(m.sys, e).out)
  {
    OutInMemory(l, m, e);
    assert Step(m.sys, e).out == MboxCall(m.sys, e).out;
  }

  lemma CallKeepsFrame(l: Layout, m: Mach, e: Event, x: nat)
    requires MachInv(l, m) && Permitted(l, m, Library(e)) && !Reschedules(m.sys, e) && x in m.frames
    ensures MStep(l, m, Library(e)).Some? && x in MStep(l, m, Library(e)).value.frames
    ensures SameFrame(m.sys.mb, x, m.frames[x], MStep(l, m, Library(e)).value.frames[x])
  {
    CallFrames(l, m, e);
    var out := MboxCall(m.sys, e).out;
    forall i | 0 <= i < |out| && out[i].to.xid == x ensures Pointed(m.sys.mb, x, out[i].to.dest) {
      assert Listed(m.sys.mb, e.b, i, x);
    }
    NoteAllFrame(l, m.sys.mb, m.frames, out, x);
  }

  lemma StepKeepsFrame(l: Layout, m: Mach, me: MEvent, x: nat)
    requires MachInv(l, m) && Permitted(l, m, me) && MStep(l, m, me).Some?
    requires x in m.frames && x in MStep(l, m, me).value.frames
    ensures SameFrame(m.sys.mb, x, m.frames[x], MStep(l, m, me).value.frames[x])
  {
    match me
    case Compute(_, _) =>
    case Spawn(_, _) =>
    case Library(e) =>
      if !Reschedules(m.sys, e) { CallKeepsFrame(l, m, e, x); } else { NextThread(m.sys, e); }
  }

  lemma ShrunkListed(mb: seq<Mbox>, mb': seq<Mbox>, b: int, i: int, x: nat)
    requires Shrunk(mb, mb') && Listed(mb', b, i, x)
    ensures var k := i + |mb[b].queue| - |mb'[b].queue|;
            Listed(mb, b, k, x) && mb[b].queue[k] == mb'[b].queue[i]
  {
    assert Suffix(mb[b].queue, |mb[b].queue| - |mb'[b].queue|, mb'[b].queue);
  }

  lemma CallPointed(s: Sys, e: Event, x: nat, a: int)
    requires s.Valid() && Allowed(s, e) && !Reschedules(s, e) && !e.Create?
    ensures Step(s, e).Next?
    ensures Pointed(Step(s, e).sys.mb, x, a) ==> Pointed(s.mb, x, a)
  {
    QueuesShrink(s, e);
    var mb' := Step(s, e).sys.mb;
    if Pointed(mb', x, a) {
      var b, i :| Listed(mb', b, i, x) && mb'[b].queue[i].dest == a;
      ShrunkListed(s.mb, mb', b, i, x);
    }
  }

  lemma YieldPointed(s: Sys, e: Event, x: nat, a: int)
    requires Inv(s) && Allowed(s, e) && Reschedules(s, e) && x != s.tab.curr
    ensures s.Valid()
    ensures Step(s, e).Next? && Pointed(Step(s, e).sys.mb, x, a) ==> Pointed(s.mb, x, a)
  {
    InvIsValid(s);
    if Step(s, e).Next? && Pointed(Step(s, e).sys.mb, x, a) {
      var mb' := Step(s, e).sys.mb;
      var b, i :| Listed(mb', b, i, x) && mb'[b].queue[i].dest == a;
      assert Listed(s.mb, b, i, x);
    }
  }

  /** A parked thread starts no new receive. */
  lemma StepPointed(l: Layout, m: Mach, me: MEvent, x: nat, a: int)
    requires MachInv(l, m) && Permitted(l, m, me) && MStep(l, m, me).Some? && x in m.frames
    requires Pointed(MStep(l, m, me).value.sys.mb, x, a)
    ensures Pointed(m.sys.mb, x, a)
  {
    match me
    case Compute(_, _) =>
    case Spawn(_, _) =>
    case Library(e) =>
      InvIsValid(m.sys);
      if Reschedules(m.sys, e) { YieldPointed(m.sys, e, x, a); } else { CallPointed(m.sys, e, x, a); }
  }

  lemma PrefixParked(l: Layout, m: Mach, es: seq<MEvent>, x: nat)
    requires MachInv(l, m) && AlwaysParked(l, m, es, x) && es != []
    ensures AlwaysParked(l, m, es[..|es| - 1], x)
  {
    var pre := es[..|es| - 1];
    forall i | 0 <= i <= |pre| ensures MExec(l, m, pre[..i]).Some? && x in MExec(l, m, pre[..i]).value.frames {
      assert pre[..i] == es[..i];
    }
  }

  lemma EndsParked(l: Layout, m: Mach, es: seq<MEvent>, x: nat)
    requires MachInv(l, m) && AlwaysParked(l, m, es, x)
    ensures MExec(l, m, es).Some? && x in m.frames && x in MExec(l, m, es).value.frames
  {
    assert es[..0] == [] && es[..|es|] == es;
    assert x in MExec(l, m, es[..0]).value.frames;
    assert x in MExec(l, m, es[..|es|]).value.frames;
  }

  /** One event less of a run in which x is parked. */
  lemma ParkedPrefix(l: Layout, m: Mach, es: seq<MEvent>, x: nat)
    requires MachInv(l, m) && AlwaysParked(l, m, es, x)
    ensures MExec(l, m, es).Some? && x in m.frames && x in MExec(l, m, es).value.frames
    ensures es != [] ==>
              var pre, e := es[..|es| - 1], es[|es| - 1];
              && AlwaysParked(l, m, pre, x)
              && MExec(l, m, pre).Some? && x in MExec(l, m, pre).value.frames
              && Permitted(l, MExec(l, m, pre).value, e)
              && MStep(l, MExec(l, m, pre).value, e) == MExec(l, m, es)
  {
    EndsParked(l, m, es, x);
    if es != [] {
      PrefixParked(l, m, es, x);
      EndsParked(l, m, es[..|es| - 1], x);
    }
  }

  lemma SameFrameTrans(mb: seq<Mbox>, mb1: seq<Mbox>, x: nat, f: Frame, g: Frame, h: Frame)
    requires SameFrame(mb, x, f, g) && SameFrame(mb1, x, g, h)
    requires forall a :: Pointed(mb1, x, a) ==> Pointed(mb, x, a)
    ensures SameFrame(mb, x, f, h)
  {
  }

  lemma {:induction false} RunKeepsFrame(l: Layout, m: Mach, es: seq<MEvent>, x: nat)
    requires MachInv(l, m) && AlwaysParked(l, m, es, x)
    ensures MExec(l, m, es).Some? && x in m.frames && x in MExec(l, m, es).value.frames
    ensures SameFrame(m.sys.mb, x, m.frames[x], MExec(l, m, es).value.frames[x])
    ensures forall a :: Pointed(MExec(l, m, es).value.sys.mb, x, a) ==> Pointed(m.sys.mb, x, a)
    decreases |es|
  {
    ParkedPrefix(l, m, es, x);
    if es == [] {
    } else {
      var pre, e := es[..|es| - 1], es[|es| - 1];
      RunKeepsFrame(l, m, pre, x);
      var p, q := MExec(l, m, pre).value, MExec(l, m, es).value;
      StepKeepsFrame(l, p, e, x);
      SameFrameTrans(m.sys.mb, p.sys.mb, x, m.frames[x], p.frames[x], q.frames[x]);
      forall a | Pointed(q.sys.mb, x, a) ensures Pointed(m.sys.mb, x, a) {
        StepPointed(l, p, e, x, a);
      }
    }
  }

  /** The library call e gives the processor to x. */
  ghost predicate SwitchesTo(l: Layout, m: Mach, e: Event, x: nat)
    requires MachInv(l, m)
  {
    && Permitted(l, m, Library(e)) && Reschedules(m.sys, e)
    && MStep(l, m, Library(e)).Some?
    && MStep(l, m, Library(e)).value.sys.tab.curr == x
  }

  /** x goes on from frame f: its registers are those in f and its stack is
      the one in f, except for words it was receiving into. */
  ghost predicate GoesOn(l: Layout, mb: seq<Mbox>, m: Mach, x: nat, f: Frame)
    requires x < |l.reg|
  {
    && 4 <= |f.words| && 0 <= f.sp && f.sp + |f.words| <= |m.mem|
    && m.cpu == Resumed(l, x, f)
    && forall k :: 0 <= k < |f.words| ==> m.mem[f.sp + k] == f.words[k] || Pointed(mb, x, f.sp + k)
  }

  /** A blocked thread's pointer is above its saved words. */
  lemma PointerAbove(l: Layout, m: Mach, x: nat, b: int, i: int)
    requires MachInv(l, m) && x in m.frames && Listed(m.sys.mb, b, i, x)
    ensures !(m.frames[x].sp <= m.sys.mb[b].queue[i].dest < m.frames[x].sp + 4)
  {
    var f := m.frames[x];
    assert Holds(l, m.mem, x, f);
    var a := m.sys.mb[b].queue[i].dest;
    assert MayPoint(l, |m.sys.tab.st|, x, f.sp + 4, a);
    assert l.InStack(x, a) ==> f.sp + 4 <= a;
  }

  lemma PointersClear(l: Layout, m: Mach, x: nat, k: int)
    requires MachInv(l, m) && x in m.frames && 0 <= k < 4
    ensures !Pointed(m.sys.mb, x, m.frames[x].sp + k)
  {
    forall b, i | Listed(m.sys.mb, b, i, x) ensures m.sys.mb[b].queue[i].dest != m.frames[x].sp + k {
      PointerAbove(l, m, x, b, i);
    }
  }

  /** x stays off the processor through the run es, and the library call back
      then gives it the processor in machine r. */
  ghost predicate Returns(l: Layout, m: Mach, es: seq<MEvent>, back: Event, x: nat, r: Mach)
    requires MachInv(l, m)
  {
    && AlwaysParked(l, m, es, x) && MExec(l, m, es).Some?
    && SwitchesTo(l, MExec(l, m, es).value, back, x)
    && r == MStep(l, MExec(l, m, es).value, Library(back)).value
  }

  lemma EntersFrame(l: Layout, p: Mach, e: Event, x: nat, f: Frame)
    requires MachInv(l, p) && SwitchesTo(l, p, e, x) && x in p.frames && f.sp == p.frames[x].sp
    requires |f.words| == |p.frames[x].words| && 4 <= |f.words|
    requires forall k :: 0 <= k < 4 ==> f.words[k] == p.frames[x].words[k]
    ensures var r := MStep(l, p, Library(e)).value;
            && x < |l.reg| && x < |l.lo| && x < |l.hi| && Holds(l, r.mem, x, p.frames[x])
            && r.cpu == Resumed(l, x, f)
  {
    YieldHolds(l, p, e);
  }

  /** A thread that stays parked through a run and is then given the processor
      goes on from the frame it had at the start of the run. */
  lemma GoesOnAfterRun(l: Layout, m: Mach, es: seq<MEvent>, back: Event, x: nat, r: Mach)
    requires MachInv(l, m) && Returns(l, m, es, back, x, r)
    ensures x in m.frames && x < |l.reg| && GoesOn(l, m.sys.mb, r, x, m.frames[x])
  {
    RunKeepsFrame(l, m, es, x);
    var p := MExec(l, m, es).value;
    var f, g := m.frames[x], p.frames[x];
    assert Holds(l, m.mem, x, f);
    FrameWords(l, m.mem, x, f);
    forall k | 0 <= k < 4 ensures g.words[k] == f.words[k] { PointersClear(l, m, x, k); }
    EntersFrame(l, p, back, x, f);
    FrameWords(l, r.mem, x, g);
  }

  /** The call e gives up the processor. */
  ghost predicate Leaves(l: Layout, m: Mach, e: Event)
    requires MachInv(l, m)
  {
    Permitted(l, m, Library(e)) && Reschedules(m.sys, e) && MStep(l, m, Library(e)).Some?
  }

  lemma BackOnStack(l: Layout, m: Mach, x: nat, to: nat, mb: seq<Mbox>, r: Mach)
    requires x < |l.reg| && to < |l.reg| && x < |l.hi|
    requires 6 <= m.cpu.esp <= l.hi[x] <= |m.mem|
    requires GoesOn(l, mb, r, x, LeftBehind(l, m.mem, m.cpu, x, to))
    ensures l.hi[x] <= |r.mem|
    ensures r.cpu == Cpu(m.cpu.esp - 2, m.cpu.ebp, m.cpu.esi, m.cpu.edi, l.reg[x], l.resume)
    ensures forall a :: m.cpu.esp <= a < l.hi[x] && r.mem[a] != m.mem[a] ==> Pointed(mb, x, a)
  {
    var f := LeftBehind(l, m.mem, m.cpu, x, to);
    forall a | m.cpu.esp <= a < l.hi[x] && r.mem[a] != m.mem[a] ensures Pointed(mb, x, a) {
      var k := a - f.sp;
      assert f.words[k] == m.mem[m.cpu.esp..l.hi[x]][k - 6];
      assert r.mem[f.sp + k] == f.words[k] || Pointed(mb, x, f.sp + k);
    }
  }

  lemma LeavesFrame(l: Layout, m: Mach, e: Event)
    requires MachInv(l, m) && Permitted(l, m, Library(e)) && Reschedules(m.sys, e) && MStep(l, m, Library(e)).Some?
    ensures var c, q := m.sys.tab.curr, MStep(l, m, Library(e)).value;
            && l.hi[c] <= |m.mem| && 6 <= m.cpu.esp
            && (c in q.frames ==>
                  && q.frames[c] == LeftBehind(l, m.mem, m.cpu, c, q.sys.tab.curr))
  {
    NextThread(m.sys, e);
  }

  lemma OnlyOwnReceive(s: Sys, e: Event, a: int)
    requires Inv(s) && Allowed(s, e) && Reschedules(s, e) && s.Valid() && Step(s, e).Next?
    requires Pointed(Step(s, e).sys.mb, s.tab.curr, a)
    ensures e.Recv? && a == e.dest
  {
    var mb' := Step(s, e).sys.mb;
    var b, i :| Listed(mb', b, i, s.tab.curr) && mb'[b].queue[i].dest == a;
    assert !Listed(s.mb, b, i, s.tab.curr);
  }

  lemma OnlyOwnReceives(l: Layout, m: Mach, leave: Event)
    requires MachInv(l, m) && Leaves(l, m, leave)
    ensures forall a :: Pointed(MStep(l, m, Library(leave)).value.sys.mb, m.sys.tab.curr, a) ==>
              leave.Recv? && a == leave.dest
  {
    var mb := MStep(l, m, Library(leave)).value.sys.mb;
    forall a | Pointed(mb, m.sys.tab.curr, a) ensures leave.Recv? && a == leave.dest {
      OnlyOwnReceive(m.sys, leave, a);
    }
  }

  lemma BackToLeft(l: Layout, m: Mach, leave: Event, r: Mach)
    requires MachInv(l, m) && Leaves(l, m, leave)
    requires var q, x := MStep(l, m, Library(leave)).value, m.sys.tab.curr;
             x in q.frames && x < |l.reg| && GoesOn(l, q.sys.mb, r, x, q.frames[x])
    ensures var x := m.sys.tab.curr;
            && x < |l.hi| && l.hi[x] <= |r.mem| && l.hi[x] <= |m.mem| && 6 <= m.cpu.esp
            && r.cpu == Cpu(m.cpu.esp - 2, m.cpu.ebp, m.cpu.esi, m.cpu.edi, l.reg[x], l.resume)
            && forall a :: m.cpu.esp <= a < l.hi[x] && r.mem[a] != m.mem[a] ==> leave.Recv? && a == leave.dest
  {
    var q, x := MStep(l, m, Library(leave)).value, m.sys.tab.curr;
    LeavesFrame(l, m, leave);
    BackOnStack(l, m, x, q.sys.tab.curr, q.sys.mb, r);
    OnlyOwnReceives(l, m, leave);
  }

  /** Leaving and coming back: edi, esi and ebp are those at the moment the
      thread left, esp is back at the arguments of its call to ctxsw, it
      returns into resched, and every word of its stack is as it left it,
      except the target of the receive it left in. ebx is not kept. */
  lemma LeaveAndReturn(l: Layout, m: Mach, leave: Event, es: seq<MEvent>, back: Event, r: Mach)
    requires MachInv(l, m) && Leaves(l, m, leave)
    ensures MachInv(l, MStep(l, m, Library(leave)).value)
    ensures var x := m.sys.tab.curr;
            Returns(l, MStep(l, m, Library(leave)).value, es, back, x, r) ==>
              && x < |l.reg| && x < |l.hi| && l.hi[x] <= |r.mem| && l.hi[x] <= |m.mem| && 6 <= m.cpu.esp
              && r.cpu == Cpu(m.cpu.esp - 2, m.cpu.ebp, m.cpu.esi, m.cpu.edi, l.reg[x], l.resume)
              && forall a :: m.cpu.esp <= a < l.hi[x] && r.mem[a] != m.mem[a] ==> leave.Recv? && a == leave.dest
  {
    var q, x := MStep(l, m, Library(leave)).value, m.sys.tab.curr;
    MStepInv(l, m, Library(leave));
    if Returns(l, q, es, back, x, r) {
      GoesOnAfterRun(l, q, es, back, x, r);
      BackToLeft(l, m, leave, r);
    }
  }

  lemma OwnFrame(l: Layout, r: Mach, x: nat, f: Frame)
    requires x < |l.lo| && x < |l.hi| && x < |l.reg|
    requires Holds(l, r.mem, x, f) && 4 <= |f.words| && r.cpu == Resumed(l, x, f)
    ensures GoesOn(l, [], r, x, f)
  {
    FrameWords(l, r.mem, x, f);
  }

  lemma OwnSwitch(l: Layout, m: Mach, leave: Event)
    requires MachInv(l, m) && SwitchesTo(l, m, leave, m.sys.tab.curr)
    ensures var x := m.sys.tab.curr;
            && x < |l.reg| && x < |l.hi| && 6 <= m.cpu.esp <= l.hi[x] <= |m.mem|
            && GoesOn(l, [], MStep(l, m, Library(leave)).value, x, LeftBehind(l, m.mem, m.cpu, x, x))
  {
    var r, x := MStep(l, m, Library(leave)).value, m.sys.tab.curr;
    YieldHolds(l, m, leave);
    OwnFrame(l, r, x, LeftBehind(l, m.mem, m.cpu, x, x));
  }

  /** The same when the only READY thread is the one that leaves. */
  lemma SwitchToItself(l: Layout, m: Mach, leave: Event)
    requires MachInv(l, m) && SwitchesTo(l, m, leave, m.sys.tab.curr)
    ensures var r, x := MStep(l, m, Library(leave)).value, m.sys.tab.curr;
            && x < |l.reg| && x < |l.hi| && l.hi[x] <= |r.mem| && l.hi[x] <= |m.mem| && 6 <= m.cpu.esp
            && r.cpu == Cpu(m.cpu.esp - 2, m.cpu.ebp, m.cpu.esi, m.cpu.edi, l.reg[x], l.resume)
            && forall a :: m.cpu.esp <= a < l.hi[x] ==> r.mem[a] == m.mem[a]
  {
    OwnSwitch(l, m, leave);
    BackOnStack(l, m, m.sys.tab.curr, m.sys.tab.curr, [], MStep(l, m, Library(leave)).value);
  }

  /** On return ebx holds the address of the thread's own xregs, so a thread
      finds its old ebx exactly if that is what it held. */
  lemma EbxKeptExactly(l: Layout, m: Mach, leave: Event, es: seq<MEvent>, back: Event, r: Mach)
    requires MachInv(l, m) && Leaves(l, m, leave)
    ensures MachInv(l, MStep(l, m, Library(leave)).value) && m.sys.tab.curr < |l.reg|
    ensures Returns(l, MStep(l, m, Library(leave)).value, es, back, m.sys.tab.curr, r) ==>
              (r.cpu.ebx == m.cpu.ebx <==> m.cpu.ebx == l.reg[m.sys.tab.curr])
  {
    LeaveAndReturn(l, m, leave, es, back, r);
  }

  // ---------- the first time, and messages ----------

  lemma EntryOnStack(l: Layout, mem: Memory, x: nat, proc: int, args: seq<int>, mb: seq<Mbox>, r: Mach)
    requires x < |l.hi| && x < |l.reg| && 0 <= l.reg[x] < |mem| && |args| + 6 <= l.hi[x] <= |mem|
    requires GoesOn(l, mb, r, x, Created(l, mem, x, proc, args).1)
    requires forall a :: !Pointed(mb, x, a)
    ensures EntryFrame(l, r.mem, r.cpu, proc, args)
  {
    var f := Created(l, mem, x, proc, args).1;
    assert f.words[3] == proc && f.words[4] == l.userret;
    assert r.mem[f.sp + 4] == f.words[4];
    forall j | 0 <= j < |args| ensures r.mem[r.cpu.esp + 1 + j] == args[j] {
      assert f.words[5 + j] == args[j];
      assert r.mem[f.sp + (5 + j)] == f.words[5 + j];
    }
  }

  lemma NotYetWaiting(s: Sys, x: nat)
    requires Inv(s) && x < |s.tab.st| && s.tab.st[x] == XFREE
    ensures forall a :: !Pointed(s.mb, x, a)
  {
    forall b, i ensures !Listed(s.mb, b, i, x) {
      assert s.tab.st[s.tab.curr := XREADY][x] == XFREE;
    }
  }

  /** A created thread, left alone by senders because it is not waiting, is
      entered at its procedure with userret and its arguments on the stack. */
  lemma FirstEntry(l: Layout, m: Mach, proc: int, args: seq<int>, es: seq<MEvent>, back: Event, r: Mach)
    requires MachInv(l, m) && Permitted(l, m, Spawn(proc, args)) && CreateIn(m.sys.tab).Some?
    ensures MStep(l, m, Spawn(proc, args)).Some? && MachInv(l, MStep(l, m, Spawn(proc, args)).value)
    ensures Returns(l, MStep(l, m, Spawn(proc, args)).value, es, back, CreateIn(m.sys.tab).value.0, r) ==>
              EntryFrame(l, r.mem, r.cpu, proc, args)
  {
    var q, x := MStep(l, m, Spawn(proc, args)).value, CreateIn(m.sys.tab).value.0;
    SpawnInv(l, m, proc, args);
    if Returns(l, q, es, back, x, r) {
      GoesOnAfterRun(l, q, es, back, x, r);
      NotYetWaiting(m.sys, x);
      EntryOnStack(l, m.mem, x, proc, args, q.sys.mb, r);
    }
  }

  lemma NoteAllOthers(l: Layout, fs: Frames, out: seq<Delivery>, x: nat)
    requires x in fs && forall i :: 0 <= i < |out| ==> out[i].to.xid != x
    ensures NoteAll(l, fs, out)[x] == fs[x]
    decreases |out|
  {
    if out == [] {
    } else {
      NoteAllOthers(l, Note(l, fs, out[0]), out[1..], x);
    }
  }

  /** A delivery changes the frame of its receiver and no other. */
  lemma NoteAllAt(l: Layout, fs: Frames, out: seq<Delivery>, j: nat)
    requires j < |out| && out[j].to.xid in fs
    requires forall i :: 0 <= i < |out| && i != j ==> out[i].to.xid != out[j].to.xid
    ensures NoteAll(l, fs, out)[out[j].to.xid] == Note(l, fs, out[j])[out[j].to.xid]
    decreases |out|
  {
    var x := out[j].to.xid;
    if j == 0 {
      NoteAllOthers(l, Note(l, fs, out[0]), out[1..], x);
    } else {
      assert Note(l, fs, out[0])[x] == fs[x];
      NoteAllAt(l, Note(l, fs, out[0]), out[1..], j - 1);
    }
  }

  /** Entry i of box b is among those the accepted send or broadcast e serves. */
  ghost predicate Serves(s: Sys, e: Event, i: nat)
    requires Allowed(s, e)
  {
    && (e.Send? || e.Broadcast?)
    && MboxCall(s, e).ret == 0 && i < |MboxCall(s, e).out|
  }

  lemma ReadBack(l: Layout, mb: seq<Mbox>, r: Mach, x: nat, f: Frame, a: int)
    requires x < |l.reg| && GoesOn(l, mb, r, x, f) && 0 <= a - f.sp < |f.words|
    requires !Pointed(mb, x, a)
    ensures 0 <= a < |r.mem| && r.mem[a] == f.words[a - f.sp]
  {
    assert r.mem[f.sp + (a - f.sp)] == f.words[a - f.sp];
  }

  /** Each waiter served by a call is served once. */
  lemma ServedOnce(s: Sys, e: Event, i: nat)
    requires Inv(s) && Allowed(s, e) && Serves(s, e, i)
    ensures var out := MboxCall(s, e).out; forall j :: 0 <= j < |out| && j != i ==> out[j].to.xid != out[i].to.xid
  {
    var out := MboxCall(s, e).out;
    assert Listed(s.mb, e.b, i, out[i].to.xid);
    forall j | 0 <= j < |out| && j != i ensures out[j].to.xid != out[i].to.xid {
      assert Listed(s.mb, e.b, j, out[j].to.xid);
    }
  }

  lemma NoteInFrame(l: Layout, n: nat, mem: Memory, fs: Frames, d: Delivery)
    requires l.Valid(n) && HoldsAll(l, n, mem, fs) && Safe(l, n, fs, d) && l.InStack(d.to.xid, d.to.dest)
    ensures var f := Note(l, fs, d)[d.to.xid];
            0 <= d.to.dest - f.sp < |f.words| && f.words[d.to.dest - f.sp] == d.msg
  {
    assert Holds(l, mem, d.to.xid, fs[d.to.xid]);
  }

  lemma ServedSafe(l: Layout, m: Mach, e: Event, i: nat)
    requires MachInv(l, m) && Permitted(l, m, Library(e)) && Serves(m.sys, e, i)
    ensures Safe(l, |m.sys.tab.st|, m.frames, MboxCall(m.sys, e).out[i])
  {
    OutInMemory(l, m, e);
    assert Step(m.sys, e).out == MboxCall(m.sys, e).out;
  }

  /** The receiver's word in its saved stack holds the message. */
  ghost predicate Received(fs: Frames, w: Waiter, msg: int) {
    && w.xid in fs && 0 <= w.dest - fs[w.xid].sp < |fs[w.xid].words|
    && fs[w.xid].words[w.dest - fs[w.xid].sp] == msg
  }

  /** Among notes for different threads, each is in its thread's frame. */
  lemma NoteWritten(l: Layout, n: nat, mem: Memory, fs: Frames, out: seq<Delivery>, i: nat)
    requires l.Valid(n) && HoldsAll(l, n, mem, fs) && i < |out| && Safe(l, n, fs, out[i])
    requires l.InStack(out[i].to.xid, out[i].to.dest)
    requires forall j :: 0 <= j < |out| && j != i ==> out[j].to.xid != out[i].to.xid
    ensures Received(NoteAll(l, fs, out), out[i].to, out[i].msg)
  {
    NoteInFrame(l, n, mem, fs, out[i]);
    NoteAllAt(l, fs, out, i);
  }

  lemma ServedNotes(l: Layout, m: Mach, e: Event, i: nat, out: seq<Delivery>)
    requires MachInv(l, m) && Permitted(l, m, Library(e)) && Serves(m.sys, e, i) && out == MboxCall(m.sys, e).out
    requires l.InStack(out[i].to.xid, out[i].to.dest)
    ensures Received(NoteAll(l, m.frames, out), out[i].to, e.msg)
  {
    ServedOnce(m.sys, e, i);
    ServedSafe(l, m, e, i);
    NoteWritten(l, |m.sys.tab.st|, m.mem, m.frames, out, i);
  }

  lemma WakeWrites(l: Layout, m: Mach, e: Event, i: nat)
    requires MachInv(l, m) && Permitted(l, m, Library(e)) && Serves(m.sys, e, i)
    requires var w := MboxCall(m.sys, e).out[i].to; l.InStack(w.xid, w.dest)
    ensures MStep(l, m, Library(e)).Some?
    ensures Received(MStep(l, m, Library(e)).value.frames, MboxCall(m.sys, e).out[i].to, e.msg)
  {
    CallFrames(l, m, e);
    ServedNotes(l, m, e, i, MboxCall(m.sys, e).out);
  }

  lemma WokenNotPointed(s: Sys, e: Event, i: nat)
    requires Inv(s) && Allowed(s, e) && Serves(s, e, i)
    ensures s.Valid() && Step(s, e).Next?
    ensures forall a :: !Pointed(Step(s, e).sys.mb, MboxCall(s, e).out[i].to.xid, a)
  {
    InvIsValid(s);
    var x := MboxCall(s, e).out[i].to.xid;
    assert Listed(s.mb, e.b, i, x);
    var mb' := Step(s, e).sys.mb;
    forall b, j ensures !Listed(mb', b, j, x) {
      assert Listed(s.mb, b, j, x) ==> b == e.b && j == i;
      assert Listed(s.mb, b, j + 1, x) ==> b == e.b && j + 1 == i;
    }
  }

  /** The receiver's word holds the message when the receiver next runs, for
      a receive into the receiver's own stack. */
  lemma MessageArrives(l: Layout, m: Mach, e: Event, i: nat, es: seq<MEvent>, back: Event, r: Mach)
    requires MachInv(l, m) && Permitted(l, m, Library(e)) && Serves(m.sys, e, i)
    requires var w := MboxCall(m.sys, e).out[i].to; l.InStack(w.xid, w.dest)
    ensures MStep(l, m, Library(e)).Some? && MachInv(l, MStep(l, m, Library(e)).value)
    ensures var w := MboxCall(m.sys, e).out[i].to;
            Returns(l, MStep(l, m, Library(e)).value, es, back, w.xid, r) ==>
              0 <= w.dest < |r.mem| && r.mem[w.dest] == e.msg
  {
    var w, q := MboxCall(m.sys, e).out[i].to, MStep(l, m, Library(e)).value;
    MStepInv(l, m, Library(e));
    WakeWrites(l, m, e, i);
    if Returns(l, q, es, back, w.xid, r) {
      WokenNotPointed(m.sys, e, i);
      GoesOnAfterRun(l, q, es, back, w.xid, r);
      ReadBack(l, q.sys.mb, r, w.xid, q.frames[w.xid], w.dest);
    }
  }
}
