/** The alarm inside xthread_create: the new slot is READY before its frame and
    its saved stack pointer exist. */
module CreateWindow {
  import opened Threads
  import opened Wrappers
  import opened ThreadRuns
  import opened Machine
  import opened MachineRuns
  import opened SwitchedBack

  /** Slot x is the first READY one after c. */
  ghost predicate FirstReady(st: seq<XState>, c: nat, x: nat) {
    && c < |st| && x < |st| && st[x] == XREADY
    && forall j :: 0 <= j < |st| && st[j] == XREADY ==> Gap(Succ(c, |st|), x, |st|) <= Gap(Succ(c, |st|), j, |st|)
  }

  /** The table once the handler has interrupted a create that was given x. */
  function Interrupted(t: Table): Table
    requires t.Valid()
  {
    t.(st := t.st[t.curr := XREADY])
  }

  lemma SameGap(start: nat, k: nat, x: nat, n: nat)
    requires start < n && k < n && x < n
    ensures Gap(start, k, n) == Gap(start, x, n) <==> k == x
  {
  }

  lemma PicksFirstReady(t: Table, x: nat)
    requires t.Valid() && x < |t.st| && t.st[x] == XREADY
    ensures Resched(t).Some? && (Resched(t).value.curr == x <==> FirstReady(t.st, t.curr, x))
  {
    var k := Resched(t).value.curr;
    if FirstReady(t.st, t.curr, x) { SameGap(Succ(t.curr, |t.st|), k, x, |t.st|); }
  }

  /** A slot that create picks has no frame, and every other READY slot has. */
  lemma FramesInWindow(l: Layout, m: Mach, x: nat, t: Table)
    requires MachInv(l, m) && CreateIn(m.sys.tab) == Some((x, t))
    ensures t.Valid() && t.curr == m.sys.tab.curr && |t.st| == |m.sys.tab.st| && x < |t.st| && x != t.curr
    ensures x !in m.frames && t.curr !in m.frames
    ensures forall j :: 0 <= j < |t.st| && j != x && j != t.curr && t.st[j] == XREADY ==> j in m.frames
  {
    CreatePicksFirstFree(m.sys);
  }

  /** A switch that can be made loads what is in the slot's register. */
  lemma StaleEntry(l: Layout, n: nat, mem: Memory, cpu: Cpu, c: nat, x: nat)
    requires l.Valid(n) && |mem| == l.size && c < n && x < n && x != c
    requires l.lo[c] + 6 <= cpu.esp <= l.hi[c]
    ensures CanSwitch(l, mem, cpu, c, x) ==>
              CallCtxsw(l, mem, cpu, c, x).1.esp == mem[l.reg[x]] + 4
  {
    forall a | cpu.esp - 6 <= a < cpu.esp ensures l.InStack(c, a) {}
    assert !l.InStack(c, l.reg[x]) && !l.InStack(c, l.reg[c]) && l.reg[x] != l.reg[c];
    var m := Saved(Called(l, mem, cpu, c, x), cpu.(esp := cpu.esp - 3));
    assert m[l.reg[x]] == mem[l.reg[x]];
  }

  /** The alarm fires in xthread_create after slot x became READY and before its
      saved stack pointer is written; some of its frame may be there. The switch
      that follows enters the frame of a thread that left one, unless x is the
      first READY slot after the creator: exactly then it loads the stack pointer
      that happens to be in x's registers, which belongs to no frame. */
  lemma EarlySwitch(l: Layout, m: Mach, x: nat, t: Table, mem: Memory)
    requires MachInv(l, m) && CreateIn(m.sys.tab) == Some((x, t))
    requires l.lo[m.sys.tab.curr] + 6 <= m.cpu.esp
    requires HoldsAll(l, |m.sys.tab.st|, mem, m.frames) && mem[l.reg[x]] == m.mem[l.reg[x]]
    ensures t.Valid() && Resched(Interrupted(t)).Some? && 6 <= m.cpu.esp <= |mem|
    ensures var c, k := t.curr, Resched(Interrupted(t)).value.curr;
            var (mem', cpu') := CallCtxsw(l, mem, m.cpu, c, k);
            && (k == x <==> FirstReady(Interrupted(t).st, c, x))
            && (k != x ==>
                  var all := m.frames[c := LeftBehind(l, mem, m.cpu, c, k)];
                  k in all && |all[k].words| >= 4 && cpu' == Resumed(l, k, all[k]))
            && (k == x ==>
                  && x !in m.frames
                  && (CanSwitch(l, mem, m.cpu, c, x) ==>
                        cpu'.esp == m.mem[l.reg[x]] + 4))
  {
    FramesInWindow(l, m, x, t);
    var t1, n := Interrupted(t), |m.sys.tab.st|;
    PicksFirstReady(t1, x);
    var c, k := t.curr, Resched(t1).value.curr;
    assert t1.st[k] == XREADY;
    if k != x {
      SwitchHolds(l, n, mem, m.frames, m.cpu, c, k);
    } else {
      StaleEntry(l, n, mem, m.cpu, c, x);
    }
  }

  // ---------- every run of the window ----------

  /** Slot x is READY and comes before c, which is READY too, going forward from
      the running thread. */
  ghost predicate Ahead(t: Table, x: nat, c: nat) {
    && t.Valid() && x < |t.st| && c < |t.st|
    && t.st[x] == XREADY && t.st[c] == XREADY && Turns(t, x) < Turns(t, c)
  }

  lemma OrderInRing(n: nat, from: nat, k: nat, x: nat, c: nat)
    requires from < n && k < n && x < n && c < n && k != x
    requires Gap(from, k, n) <= Gap(from, x, n) < Gap(from, c, n)
    ensures Gap(Succ(k, n), x, n) < Gap(Succ(k, n), c, n)
  {
  }

  lemma ReschedAhead(t: Table, x: nat, c: nat)
    requires Ahead(t, x, c)
    ensures Resched(t).Some? && (Resched(t).value.curr == x || Ahead(Resched(t).value, x, c))
  {
    var n, from, k := |t.st|, Succ(t.curr, |t.st|), Resched(t).value.curr;
    if k != x {
      OrderInRing(n, from, k, x, c);
      SameGap(from, k, c, n);
    }
  }

  lemma StepAhead(s: Sys, e: Event, x: nat, c: nat)
    requires Inv(s) && Allowed(s, e) && Ahead(s.tab, x, c)
    ensures s.Valid()
    ensures Step(s, e).Next? ==> Step(s, e).sys.tab.curr == x || Ahead(Step(s, e).sys.tab, x, c)
  {
    InvIsValid(s);
    if Reschedules(s, e) {
      YieldIs(s, e);
      ReschedAhead(YieldTable(s, e), x, c);
    }
  }

  /** As long as x has not run, it stays ahead of c. */
  lemma {:induction false} AheadAlways(s: Sys, es: seq<Event>, x: nat, c: nat)
    requires Inv(s) && Exec(s, es).Some? && Ahead(s.tab, x, c)
    requires forall i: nat :: !Runs(s, es, i, x)
    ensures Ahead(Exec(s, es).value.tab, x, c)
    decreases |es|
  {
    if es == [] {
    } else {
      var pre := es[..|es| - 1];
      forall i: nat ensures !Runs(s, pre, i, x) {
        assert i <= |pre| ==> pre[..i] == es[..i];
        assert !Runs(s, es, i, x);
      }
      AheadAlways(s, pre, x, c);
      StepAhead(Exec(s, pre).value, es[|es| - 1], x, c);
      assert es[..|es|] == es;
      assert !Runs(s, es, |es|, x);
    }
  }

  /** The alarm takes the processor from the creator c of x. Whatever the others
      do, c has it again only after x has had it: no run leaves the window by
      finishing the frame. */
  lemma WindowFatal(s: Sys, x: nat, t: Table, es: seq<Event>)
    requires Inv(s) && CreateIn(s.tab) == Some((x, t))
    ensures var c, s1 := s.tab.curr, s.(tab := t);
            && Inv(s1) && s.Valid() && s1.Valid() && Step(s, Create) == Next(s1, [], x) && Step(s1, Timer).Next?
            && var s2 := Step(s1, Timer).sys;
               && Inv(s2)
               && (Exec(s2, es).Some? && Exec(s2, es).value.tab.curr == c ==>
                     exists i: nat :: i < |es| && Runs(s2, es, i, x))
  {
    var c, s1 := s.tab.curr, s.(tab := t);
    StepInv(s, Create);
    InvIsValid(s1);
    CreatePicksFirstFree(s);
    ReschedFails(YieldTable(s1, Timer));
    StepInv(s1, Timer);
    var s2 := Step(s1, Timer).sys;
    assert YieldTable(s1, Timer).st[x] == XREADY;
    SameGap(Succ(c, |t.st|), x, c, |t.st|);
    ReschedAhead(YieldTable(s1, Timer), x, c);
    if Exec(s2, es).Some? && Exec(s2, es).value.tab.curr == c {
      assert es[..0] == [] && es[..|es|] == es;
      if forall i: nat :: !Runs(s2, es, i, x) {
        assert !Runs(s2, es, 0, x);
        AheadAlways(s2, es, x, c);
      }
      var i: nat :| Runs(s2, es, i, x);
      assert i != |es|;
    }
  }

  // ---------- what the new thread is entered with ----------

  /** What event me does to the registers and to a memory that need not be p's. */
  ghost function Effect(l: Layout, p: Mach, me: MEvent, mem: Memory): (r: (Memory, Cpu))
    requires MachInv(l, p) && Permitted(l, p, me) && MStep(l, p, me).Some? && |mem| == l.size
    ensures |r.0| == l.size
  {
    match me
    case Compute(cpu, stores) => (StorePairs(mem, stores), cpu)
    case Spawn(proc, args) => (Created(l, mem, CreateIn(p.sys.tab).value.0, proc, args).0, p.cpu)
    case Library(e) =>
      if Reschedules(p.sys, e) then
        NextThread(p.sys, e);
        CallCtxsw(l, mem, p.cpu, p.sys.tab.curr, MStep(l, p, me).value.sys.tab.curr)
      else
        OutInMemory(l, p, e);
        (StoreAll(mem, Step(p.sys, e).out), p.cpu)
  }

  lemma EffectIs(l: Layout, p: Mach, me: MEvent)
    requires MachInv(l, p) && Permitted(l, p, me) && MStep(l, p, me).Some?
    ensures var q := MStep(l, p, me).value; Effect(l, p, me, p.mem) == (q.mem, q.cpu)
  {
  }

  lemma {:induction false} StorePairsBeside(mem: Memory, stores: seq<(int, int)>, a: int, v: int)
    requires 0 <= a < |mem|
    requires forall i :: 0 <= i < |stores| ==> 0 <= stores[i].0 < |mem| && stores[i].0 != a
    ensures StorePairs(mem[a := v], stores) == StorePairs(mem, stores)[a := v]
    decreases |stores|
  {
    if stores == [] {
    } else {
      var (b, w) := stores[0];
      assert mem[a := v][b := w] == mem[b := w][a := v];
      StorePairsBeside(mem[b := w], stores[1..], a, v);
    }
  }

  lemma {:induction false} StoreAllBeside(mem: Memory, out: seq<Delivery>, a: int, v: int)
    requires 0 <= a < |mem|
    requires forall i :: 0 <= i < |out| ==> 0 <= out[i].to.dest < |mem| && out[i].to.dest != a
    ensures StoreAll(mem[a := v], out) == StoreAll(mem, out)[a := v]
    decreases |out|
  {
    if out == [] {
    } else {
      var b, w := out[0].to.dest, out[0].msg;
      assert mem[a := v][b := w] == mem[b := w][a := v];
      StoreAllBeside(mem[b := w], out[1..], a, v);
    }
  }

  lemma CreatedBeside(l: Layout, n: nat, mem: Memory, y: nat, proc: int, args: seq<int>, x: nat, v: int)
    requires l.Valid(n) && |mem| == l.size && x < n && y < n && x != y && |args| + 5 <= l.hi[y] - 1 - l.lo[y]
    ensures Created(l, mem[l.reg[x] := v], y, proc, args).0 == Created(l, mem, y, proc, args).0[l.reg[x] := v]
  {
    assert l.reg[x] != l.reg[y] && !l.InStack(y, l.reg[x]);
  }

  lemma PushedBeside(l: Layout, n: nat, mem: Memory, cpu: Cpu, c: nat, k: nat, x: nat, v: int)
    requires l.Valid(n) && |mem| == l.size && c < n && k < n && x < n && x != c
    requires l.lo[c] + 6 <= cpu.esp <= l.hi[c]
    ensures Pushed(l, mem[l.reg[x] := v], cpu, c, k) == Pushed(l, mem, cpu, c, k)[l.reg[x] := v]
  {
    assert l.reg[x] != l.reg[c] && !l.InStack(c, l.reg[x]);
  }

  /** The saved stack pointer and the frame of k are not at x's register. */
  lemma FrameBeside(l: Layout, n: nat, mem: Memory, k: nat, f: Frame, x: nat, v: int)
    requires l.Valid(n) && |mem| == l.size && k < n && x < n && x != k && Holds(l, mem, k, f)
    ensures var m := mem[l.reg[x] := v];
            && 0 <= f.sp && f.sp + 3 < |mem| && mem[l.reg[k]] == f.sp && m[l.reg[k]] == f.sp
            && m[f.sp..f.sp + 4] == mem[f.sp..f.sp + 4]
  {
    assert !l.InStack(k, l.reg[x]) && l.reg[k] != l.reg[x];
  }

  /** One call on two memories whose pushed words and loaded frames agree. */
  lemma CallTwice(mem: Memory, other: Memory, cpu: Cpu, fromReg: int, toReg: int, back: int, sp: int)
    requires |other| == |mem| && 6 <= cpu.esp <= |mem| && 0 <= fromReg < |mem| && 0 <= toReg < |mem|
    requires fromReg != cpu.esp - 1 && 0 <= sp && sp + 3 < |mem|
    requires var m, m' := PushedAt(mem, cpu, fromReg, toReg, back), PushedAt(other, cpu, fromReg, toReg, back);
             m[toReg] == m'[toReg] == sp && m'[sp..sp + 4] == m[sp..sp + 4]
    ensures CallAt(mem, cpu, fromReg, toReg, back).0 == PushedAt(mem, cpu, fromReg, toReg, back)
    ensures CallAt(other, cpu, fromReg, toReg, back) ==
            (PushedAt(other, cpu, fromReg, toReg, back), CallAt(mem, cpu, fromReg, toReg, back).1)
  {
    var m, m' := PushedAt(mem, cpu, fromReg, toReg, back), PushedAt(other, cpu, fromReg, toReg, back);
    CallAtIsPushed(mem, cpu, fromReg, toReg, back);
    CallAtIsPushed(other, cpu, fromReg, toReg, back);
    forall a | sp <= a < sp + 4 ensures m'[a] == m[a] {
      assert m'[sp..sp + 4][a - sp] == m[sp..sp + 4][a - sp];
    }
  }

  /** A switch that does not enter x does not look at x's saved stack pointer. */
  lemma SwitchBeside(l: Layout, n: nat, mem: Memory, fs: Frames, cpu: Cpu, c: nat, k: nat, x: nat, v: int)
    requires l.Valid(n) && HoldsAll(l, n, mem, fs) && c < n && k < n && x < n && x != c && x != k
    requires c !in fs && l.lo[c] + 6 <= cpu.esp <= l.hi[c] && (k in fs || k == c)
    ensures var (mem', cpu') := CallCtxsw(l, mem, cpu, c, k);
            CallCtxsw(l, mem[l.reg[x] := v], cpu, c, k) == (mem'[l.reg[x] := v], cpu')
  {
    PushedHolds(l, n, mem, fs, cpu, c, k);
    PushedBeside(l, n, mem, cpu, c, k, x, v);
    var f := fs[c := LeftBehind(l, mem, cpu, c, k)][k];
    FrameBeside(l, n, Pushed(l, mem, cpu, c, k), k, f, x, v);
    assert l.reg[c] != cpu.esp - 1 by { assert l.InStack(c, cpu.esp - 1) && !l.InStack(c, l.reg[c]); }
    CallTwice(mem, mem[l.reg[x] := v], cpu, l.reg[c], l.reg[k], l.resume, f.sp);
  }

  lemma CallBeside(l: Layout, p: Mach, e: Event, x: nat, v: int)
    requires MachInv(l, p) && Permitted(l, p, Library(e)) && !Reschedules(p.sys, e) && x in p.frames
    ensures MStep(l, p, Library(e)).Some?
    ensures Effect(l, p, Library(e), p.mem[l.reg[x] := v]).0 == MStep(l, p, Library(e)).value.mem[l.reg[x] := v]
  {
    OutInMemory(l, p, e);
    StoreAllBeside(p.mem, Step(p.sys, e).out, l.reg[x], v);
  }

  /** As long as x is off the processor, an event does to a memory with another
      stack pointer for x what it does to p's. */
  lemma EffectBeside(l: Layout, p: Mach, me: MEvent, x: nat, v: int)
    requires MachInv(l, p) && Permitted(l, p, me) && MStep(l, p, me).Some?
    requires x in p.frames && MStep(l, p, me).value.sys.tab.curr != x
    ensures var q := MStep(l, p, me).value;
            Effect(l, p, me, p.mem[l.reg[x] := v]) == (q.mem[l.reg[x] := v], q.cpu)
  {
    var n := |p.sys.tab.st|;
    match me
    case Compute(_, stores) => StorePairsBeside(p.mem, stores, l.reg[x], v);
    case Spawn(proc, args) =>
      CreatePicksFirstFree(p.sys);
      CreatedBeside(l, n, p.mem, CreateIn(p.sys.tab).value.0, proc, args, x, v);
    case Library(e) =>
      if Reschedules(p.sys, e) {
        NextThread(p.sys, e);
        SwitchBeside(l, n, p.mem, p.frames, p.cpu, p.sys.tab.curr, MStep(l, p, me).value.sys.tab.curr, x, v);
      } else {
        CallBeside(l, p, e, x, v);
      }
  }

  /** The memory and the registers after a run whose first memory need not be w's. */
  ghost function RunOn(l: Layout, w: Mach, es: seq<MEvent>, mem: Memory): (r: (Memory, Cpu))
    requires MachInv(l, w) && MExec(l, w, es).Some? && |mem| == l.size
    ensures |r.0| == l.size
    decreases |es|
  {
    if es == [] then (mem, w.cpu) else
      var pre := es[..|es| - 1];
      Effect(l, MExec(l, w, pre).value, es[|es| - 1], RunOn(l, w, pre, mem).0)
  }

  lemma {:induction false} StaleMemory(l: Layout, w: Mach, es: seq<MEvent>, x: nat, v: int)
    requires MachInv(l, w) && AlwaysParked(l, w, es, x)
    ensures MExec(l, w, es).Some? && x < |l.reg| && 0 <= l.reg[x] < l.size
    ensures var p := MExec(l, w, es).value; RunOn(l, w, es, w.mem[l.reg[x] := v]) == (p.mem[l.reg[x] := v], p.cpu)
    decreases |es|
  {
    ParkedPrefix(l, w, es, x);
    if es == [] {
    } else {
      StaleMemory(l, w, es[..|es| - 1], x, v);
      EffectBeside(l, MExec(l, w, es[..|es| - 1]).value, es[|es| - 1], x, v);
    }
  }

  /** Event i of the run is the first to give x the processor. */
  ghost predicate Enters(l: Layout, w: Mach, es: seq<MEvent>, i: nat, x: nat)
    requires MachInv(l, w)
  {
    && i < |es| && AlwaysParked(l, w, es[..i], x) && MExec(l, w, es[..i]).Some?
    && es[i].Library? && SwitchesTo(l, MExec(l, w, es[..i]).value, es[i].e, x)
  }

  /** The alarm takes the processor from c while x is READY. */
  ghost predicate LosesTo(p: Mach, me: MEvent, x: nat, c: nat) {
    && me == Library(Timer) && p.sys.tab.Valid() && c == p.sys.tab.curr
    && x < |p.sys.tab.st| && x != c && p.sys.tab.st[x] == XREADY
  }

  lemma MStepAhead(l: Layout, p: Mach, me: MEvent, x: nat, c: nat)
    requires MachInv(l, p) && Permitted(l, p, me) && MStep(l, p, me).Some?
    requires Ahead(p.sys.tab, x, c) || LosesTo(p, me, x, c)
    ensures var t := MStep(l, p, me).value.sys.tab;
            if t.curr == x then me.Library? && SwitchesTo(l, p, me.e, x) else Ahead(t, x, c)
  {
    var s := p.sys;
    if Ahead(s.tab, x, c) {
      StepAhead(s, if me.Library? then me.e else Create, x, c);
    } else {
      SameGap(Succ(c, |s.tab.st|), x, c, |s.tab.st|);
      YieldIs(s, Timer);
      ReschedAhead(YieldTable(s, Timer), x, c);
    }
  }

  ghost predicate ParkedAt(l: Layout, w: Mach, es: seq<MEvent>, x: nat)
    requires MachInv(l, w)
  {
    MExec(l, w, es).Some? && x in MExec(l, w, es).value.frames
  }

  lemma ParkedBefore(l: Layout, w: Mach, es: seq<MEvent>, x: nat, i: nat)
    requires MachInv(l, w) && i < |es| && AlwaysParked(l, w, es[..|es| - 1], x)
    ensures ParkedAt(l, w, es[..i], x)
  {
    assert es[..|es| - 1][..i] == es[..i];
  }

  /** x is off the processor for one event more. */
  lemma ParkedOnce(l: Layout, w: Mach, es: seq<MEvent>, x: nat)
    requires MachInv(l, w) && es != [] && AlwaysParked(l, w, es[..|es| - 1], x) && ParkedAt(l, w, es, x)
    ensures AlwaysParked(l, w, es, x)
  {
    assert es[..|es|] == es;
    forall i | 0 <= i < |es| ensures ParkedAt(l, w, es[..i], x) { ParkedBefore(l, w, es, x, i); }
  }

  ghost predicate Entered(l: Layout, w: Mach, es: seq<MEvent>, x: nat)
    requires MachInv(l, w)
  {
    exists i: nat :: Enters(l, w, es, i, x)
  }

  lemma EnteredLater(l: Layout, w: Mach, es: seq<MEvent>, x: nat)
    requires MachInv(l, w) && es != [] && Entered(l, w, es[..|es| - 1], x)
    ensures Entered(l, w, es, x)
  {
    var i: nat :| Enters(l, w, es[..|es| - 1], i, x);
    assert es[..|es| - 1][..i] == es[..i];
    assert Enters(l, w, es, i, x);
  }

  /** One event more of a run in which x has not run yet. */
  lemma AheadOnce(l: Layout, w: Mach, es: seq<MEvent>, x: nat, c: nat)
    requires MachInv(l, w) && es != [] && MExec(l, w, es).Some? && AlwaysParked(l, w, es[..|es| - 1], x)
    requires var p := MExec(l, w, es[..|es| - 1]).value;
             Ahead(p.sys.tab, x, c) || LosesTo(p, es[|es| - 1], x, c)
    ensures Entered(l, w, es, x) || (AlwaysParked(l, w, es, x) && Ahead(MExec(l, w, es).value.sys.tab, x, c))
  {
    var k := |es| - 1;
    EndsParked(l, w, es[..k], x);
    MStepAhead(l, MExec(l, w, es[..k]).value, es[k], x, c);
    if MExec(l, w, es).value.sys.tab.curr == x {
      assert Enters(l, w, es, k, x);
    } else {
      ParkedOnce(l, w, es, x);
    }
  }

  /** A run that starts with the alarm in c either enters x or keeps it ahead. */
  lemma {:induction false} EntersOrAhead(l: Layout, w: Mach, es: seq<MEvent>, x: nat)
    requires MachInv(l, w) && MExec(l, w, es).Some? && es != [] && es[0] == Library(Timer)
    requires x in w.frames && w.sys.tab.st[x] == XREADY
    ensures || Entered(l, w, es, x)
            || (AlwaysParked(l, w, es, x) && Ahead(MExec(l, w, es).value.sys.tab, x, w.sys.tab.curr))
    decreases |es|
  {
    if |es| == 1 {
      assert es[..0] == [];
      AheadOnce(l, w, es, x, w.sys.tab.curr);
    } else {
      EntersOrAhead(l, w, es[..|es| - 1], x);
      if Entered(l, w, es[..|es| - 1], x) {
        EnteredLater(l, w, es, x);
      } else {
        AheadOnce(l, w, es, x, w.sys.tab.curr);
      }
    }
  }

  /** The switch into x, when its saved stack pointer has been v all along. */
  lemma EntersWith(l: Layout, w: Mach, es: seq<MEvent>, i: nat, x: nat, v: int)
    requires MachInv(l, w) && Enters(l, w, es, i, x)
    ensures x < |l.reg| && 0 <= l.reg[x] < l.size
    ensures var p, now := MExec(l, w, es[..i]).value, RunOn(l, w, es[..i], w.mem[l.reg[x] := v]);
            && now == (p.mem[l.reg[x] := v], p.cpu)
            && (CanSwitch(l, now.0, now.1, p.sys.tab.curr, x) ==> Effect(l, p, es[i], now.0).1.esp == v + 4)
  {
    StaleMemory(l, w, es[..i], x, v);
    EndsParked(l, w, es[..i], x);
    var p := MExec(l, w, es[..i]).value;
    StaleEntry(l, |p.sys.tab.st|, p.mem[l.reg[x] := v], p.cpu, p.sys.tab.curr, x);
  }

  /** The machine in which the create that was interrupted has set a stack
      pointer: the words below x's base are taken for its frame. */
  ghost function Finished(l: Layout, m: Mach, x: nat, t: Table, mem: Memory): Mach
    requires x < |l.reg| && x < |l.hi| && 0 <= l.reg[x] < |mem| && 6 <= l.hi[x] <= |mem|
  {
    var sp := l.hi[x] - 6;
    Mach(m.sys.(tab := t), mem[l.reg[x] := sp], m.cpu, m.frames[x := Frame(sp, mem[sp..l.hi[x]])])
  }

  /** The words below the base of a slot without a frame can be taken for one. */
  lemma FinishedHolds(l: Layout, n: nat, mem: Memory, fs: Frames, x: nat)
    requires l.Valid(n) && HoldsAll(l, n, mem, fs) && x < n && x !in fs && l.lo[x] + 6 <= l.hi[x]
    ensures var sp := l.hi[x] - 6; HoldsAll(l, n, mem[l.reg[x] := sp], fs[x := Frame(sp, mem[sp..l.hi[x]])])
  {
    var m := mem[l.reg[x] := l.hi[x] - 6];
    assert !l.InStack(x, l.reg[x]);
    forall a | l.hi[x] - 6 <= a < l.hi[x] ensures m[a] == mem[a] { assert l.InStack(x, a); }
    forall y | y in fs ensures y < n && Holds(l, m, y, fs[y]) {
      assert l.reg[y] != l.reg[x] && !l.InStack(y, l.reg[x]);
      HoldsSame(l, mem, m, y, fs[y]);
    }
  }

  lemma FinishedInv(l: Layout, m: Mach, x: nat, t: Table, mem: Memory)
    requires MachInv(l, m) && CreateIn(m.sys.tab) == Some((x, t)) && l.lo[x] + 6 <= l.hi[x]
    requires HoldsAll(l, |m.sys.tab.st|, mem, m.frames)
    ensures MachInv(l, Finished(l, m, x, t, mem))
  {
    var n, w := |m.sys.tab.st|, Finished(l, m, x, t, mem);
    StepInv(m.sys, Create);
    FramesInWindow(l, m, x, t);
    FinishedHolds(l, n, mem, m.frames, x);
    PointersSame(l, n, m.sys.mb, m.frames, w.frames);
  }

  /** The run starts with the alarm in a thread and ends with that thread running. */
  ghost predicate HasItAgain(l: Layout, w: Mach, es: seq<MEvent>)
    requires MachInv(l, w)
  {
    && es != [] && es[0] == Library(Timer)
    && MExec(l, w, es).Some? && MExec(l, w, es).value.sys.tab.curr == w.sys.tab.curr
  }

  /** The alarm fires in xthread_create with x READY and its stack pointer not
      yet written. If the creator ever has the processor again, x has had it. */
  lemma CreatorTooLate(l: Layout, m: Mach, x: nat, t: Table, mem: Memory, es: seq<MEvent>)
    requires MachInv(l, m) && CreateIn(m.sys.tab) == Some((x, t)) && l.lo[x] + 6 <= l.hi[x]
    requires HoldsAll(l, |m.sys.tab.st|, mem, m.frames)
    ensures var w := Finished(l, m, x, t, mem);
            MachInv(l, w) && (HasItAgain(l, w, es) ==> Entered(l, w, es, x))
  {
    var w := Finished(l, m, x, t, mem);
    FinishedInv(l, m, x, t, mem);
    FramesInWindow(l, m, x, t);
    if HasItAgain(l, w, es) { EntersOrAhead(l, w, es, x); }
  }

  /** Whenever that is, and whatever ran in between: up to the switch into x, the
      memory differs from that of a finished create in x's saved stack pointer
      only, which is still the one of before the create and belongs to no frame;
      the switch loads it. */
  lemma EnteredStale(l: Layout, m: Mach, x: nat, t: Table, mem: Memory, es: seq<MEvent>, i: nat)
    requires MachInv(l, m) && CreateIn(m.sys.tab) == Some((x, t)) && l.lo[x] + 6 <= l.hi[x]
    requires HoldsAll(l, |m.sys.tab.st|, mem, m.frames) && mem[l.reg[x]] == m.mem[l.reg[x]]
    ensures x !in m.frames && MachInv(l, Finished(l, m, x, t, mem))
    ensures var w := Finished(l, m, x, t, mem);
            Enters(l, w, es, i, x) ==>
              var p, now := MExec(l, w, es[..i]).value, RunOn(l, w, es[..i], mem);
              && now == (p.mem[l.reg[x] := m.mem[l.reg[x]]], p.cpu)
              && (CanSwitch(l, now.0, now.1, p.sys.tab.curr, x) ==>
                    Effect(l, p, es[i], now.0).1.esp == m.mem[l.reg[x]] + 4)
  {
    var w := Finished(l, m, x, t, mem);
    FinishedInv(l, m, x, t, mem);
    FramesInWindow(l, m, x, t);
    if Enters(l, w, es, i, x) {
      assert w.mem[l.reg[x] := m.mem[l.reg[x]]] == mem;
      EntersWith(l, w, es, i, x, m.mem[l.reg[x]]);
    }
  }
}
