/** The alarm between re-arming and the switch itself, in resched and in main:
    the table already names the new thread as the running one, while the old one
    still has the processor and its stack. */
module SwitchWindow {
  import opened Threads
  import opened Wrappers
  import opened ThreadRuns
  import opened Machine
  import opened MachineRuns
  import opened SwitchedBack
  import opened CreateWindow

  /** What a call of ctxsw would push lies neither in x's stack nor on any saved
      stack pointer. */
  ghost predicate OffStack(l: Layout, n: nat, cpu: Cpu, x: nat)
    requires l.Valid(n)
  {
    && (forall a :: cpu.esp - 6 <= a < cpu.esp ==> !l.InStack(x, a))
    && forall y :: 0 <= y < n ==> !(cpu.esp - 6 <= l.reg[y] < cpu.esp)
  }

  /** The memory after a switch is that of the pushes, and the stack pointer the
      one found there. */
  lemma SwitchPushes(mem: Memory, cpu: Cpu, fromReg: int, toReg: int, back: int)
    requires 6 <= cpu.esp <= |mem| && 0 <= fromReg < |mem| && 0 <= toReg < |mem|
    requires Loadable(CalledAt(mem, cpu, fromReg, toReg, back), cpu.(esp := cpu.esp - 3))
    ensures var m := PushedAt(mem, cpu, fromReg, toReg, back);
            CallAt(mem, cpu, fromReg, toReg, back).0 == m
            && (fromReg != cpu.esp - 1 ==> CallAt(mem, cpu, fromReg, toReg, back).1.esp == m[toReg] + 4)
  {
  }

  /** A switch that calls itself k without being on k's stack: k's saved stack
      pointer now points where k has no frame. */
  lemma FrameLost(l: Layout, n: nat, mem: Memory, cpu: Cpu, k: nat, j: nat)
    requires l.Valid(n) && |mem| == l.size && k < n && j < n && 6 <= cpu.esp <= |mem|
    requires OffStack(l, n, cpu, k) && CanSwitch(l, mem, cpu, k, j)
    ensures var mem' := CallCtxsw(l, mem, cpu, k, j).0;
            mem'[l.reg[k]] == cpu.esp - 6 && forall f :: !Holds(l, mem', k, f)
  {
    SwitchPushes(mem, cpu, l.reg[k], l.reg[j], l.resume);
    assert !l.InStack(k, cpu.esp - 6);
  }

  /** The frames of the others are as they were. */
  lemma OthersKept(l: Layout, n: nat, mem: Memory, cpu: Cpu, k: nat, j: nat, y: nat, f: Frame)
    requires l.Valid(n) && |mem| == l.size && k < n && j < n && y < n && y != k && 6 <= cpu.esp <= |mem|
    requires OffStack(l, n, cpu, y) && Holds(l, mem, y, f)
    ensures Holds(l, Pushed(l, mem, cpu, k, j), y, f)
  {
    assert l.reg[y] != l.reg[k] && !l.InStack(y, l.reg[k]);
    HoldsSame(l, mem, Pushed(l, mem, cpu, k, j), y, f);
  }

  /** The processor it goes to resumes its own frame. */
  lemma OtherResumed(l: Layout, n: nat, mem: Memory, cpu: Cpu, k: nat, j: nat, f: Frame)
    requires l.Valid(n) && |mem| == l.size && k < n && j < n && j != k && 6 <= cpu.esp <= |mem|
    requires OffStack(l, n, cpu, j) && Holds(l, mem, j, f)
    ensures CanSwitch(l, mem, cpu, k, j)
    ensures |f.words| >= 4 && CallCtxsw(l, mem, cpu, k, j).1 == Resumed(l, j, f)
  {
    OthersKept(l, n, mem, cpu, k, j, j, f);
    FrameWords(l, Pushed(l, mem, cpu, k, j), j, f);
    CallAtIsPushed(mem, cpu, l.reg[k], l.reg[j], l.resume);
  }

  /** The code that was interrupted goes on, under the name k. */
  lemma SelfResumed(l: Layout, n: nat, mem: Memory, cpu: Cpu, k: nat)
    requires l.Valid(n) && |mem| == l.size && k < n && 6 <= cpu.esp <= |mem| && OffStack(l, n, cpu, k)
    ensures CanSwitch(l, mem, cpu, k, k)
    ensures CallCtxsw(l, mem, cpu, k, k).1 == Cpu(cpu.esp - 2, cpu.ebp, cpu.esi, cpu.edi, l.reg[k], l.resume)
  {
    CallAtIsPushed(mem, cpu, l.reg[k], l.reg[k], l.resume);
  }

  lemma OwnStackElsewhere(l: Layout, n: nat, cpu: Cpu, c: nat, x: nat)
    requires l.Valid(n) && c < n && x != c && l.lo[c] + 6 <= cpu.esp <= l.hi[c]
    ensures OffStack(l, n, cpu, x)
  {
    forall a | cpu.esp - 6 <= a < cpu.esp ensures !l.InStack(x, a) { assert l.InStack(c, a); }
    forall y | 0 <= y < n ensures !(cpu.esp - 6 <= l.reg[y] < cpu.esp) { assert !l.InStack(c, l.reg[y]); }
  }

  /** The saved stack pointer of another slot than k stays, and is what a switch
      to that slot loads. */
  lemma RegisterKept(l: Layout, n: nat, mem: Memory, cpu: Cpu, k: nat, j: nat, c: nat)
    requires l.Valid(n) && |mem| == l.size && k < n && j < n && c < n && c != k && 6 <= cpu.esp <= |mem|
    requires OffStack(l, n, cpu, k) && CanSwitch(l, mem, cpu, k, j)
    ensures var (mem', cpu') := CallCtxsw(l, mem, cpu, k, j);
            mem'[l.reg[c]] == mem[l.reg[c]] && (j == c ==> cpu'.esp == mem[l.reg[c]] + 4)
  {
    SwitchPushes(mem, cpu, l.reg[k], l.reg[j], l.resume);
    assert l.reg[c] != l.reg[k];
    assert Pushed(l, mem, cpu, k, j)[l.reg[c]] == mem[l.reg[c]];
  }

  lemma AnotherNamed(l: Layout, n: nat, mem: Memory, fs: Frames, cpu: Cpu, c: nat, k: nat, j: nat)
    requires l.Valid(n) && HoldsAll(l, n, mem, fs) && c < n && k < n && j < n && k != c && c !in fs
    requires l.lo[c] + 6 <= cpu.esp <= l.hi[c] && (j == c || j == k || j in fs)
    ensures j != c ==> CanSwitch(l, mem, cpu, k, j)
    ensures var (mem', cpu') := CallCtxsw(l, mem, cpu, k, j);
            CanSwitch(l, mem, cpu, k, j) ==>
              && (forall f :: !Holds(l, mem', k, f))
              && mem'[l.reg[k]] == cpu.esp - 6 && mem'[l.reg[c]] == mem[l.reg[c]]
              && (forall y :: y in fs && y != k ==> Holds(l, mem', y, fs[y]))
              && (j == c ==> cpu'.esp == mem[l.reg[c]] + 4)
              && (j == k ==> cpu'.esp == cpu.esp - 2)
              && (j in fs && j != k ==> |fs[j].words| >= 4 && cpu' == Resumed(l, j, fs[j]))
  {
    OwnStackElsewhere(l, n, cpu, c, k);
    if j == k {
      SelfResumed(l, n, mem, cpu, k);
    } else if j != c {
      OwnStackElsewhere(l, n, cpu, c, j);
      OtherResumed(l, n, mem, cpu, k, j, fs[j]);
    }
    if CanSwitch(l, mem, cpu, k, j) {
      FrameLost(l, n, mem, cpu, k, j);
      SwitchPushes(mem, cpu, l.reg[k], l.reg[j], l.resume);
      forall y | y in fs && y != k ensures Holds(l, CallCtxsw(l, mem, cpu, k, j).0, y, fs[y]) {
        OwnStackElsewhere(l, n, cpu, c, y);
        OthersKept(l, n, mem, cpu, k, j, y, fs[y]);
      }
      RegisterKept(l, n, mem, cpu, k, j, c);
    }
  }

  /** The slots that come into play: c gives up the processor to k, and the
      handler, taking k for the running thread, to j. */
  ghost predicate Chosen(m: Mach, e: Event, k: nat, j: nat) {
    && Inv(m.sys) && Allowed(m.sys, e) && Reschedules(m.sys, e) && YieldTable(m.sys, e).Valid()
    && Resched(YieldTable(m.sys, e)).Some? && Resched(YieldTable(m.sys, e)).value.curr == k
    && Resched(Interrupted(Resched(YieldTable(m.sys, e)).value)).Some?
    && Resched(Interrupted(Resched(YieldTable(m.sys, e)).value)).value.curr == j
  }

  lemma ChosenFrames(l: Layout, m: Mach, e: Event, k: nat, j: nat)
    requires MachInv(l, m) && Chosen(m, e, k, j)
    ensures k < |m.sys.tab.st| && j < |m.sys.tab.st|
    ensures k == m.sys.tab.curr || k in m.frames
    ensures j == m.sys.tab.curr || j == k || j in m.frames
  {
    var t := YieldTable(m.sys, e);
    assert Interrupted(Resched(t).value).st[j] == XREADY;
  }

  /** The handler always finds a thread. */
  lemma HandlerChooses(l: Layout, m: Mach, e: Event)
    requires MachInv(l, m) && Allowed(m.sys, e) && Reschedules(m.sys, e) && YieldTable(m.sys, e).Valid()
    requires Resched(YieldTable(m.sys, e)).Some?
    ensures exists k: nat, j: nat :: Chosen(m, e, k, j)
  {
    var t1 := Resched(YieldTable(m.sys, e)).value;
    ReschedFails(Interrupted(t1));
    assert Interrupted(t1).st[t1.curr] == XREADY;
    assert Chosen(m, e, t1.curr, Resched(Interrupted(t1)).value.curr);
  }

  /** The alarm fires when resched has named k the running thread and not yet
      left c. The handler's own switch saves c's stack pointer as k's. So k's
      frame is lost, exactly if k is another thread than c, and c's stack pointer
      is not saved at all. The others keep their frames, and the one chosen goes
      on from its own, unless it is c, entered with an old stack pointer, or k,
      in whose name c goes on. */
  lemma SwitchInterrupted(l: Layout, m: Mach, e: Event, mem: Memory, cpu: Cpu, k: nat, j: nat)
    requires MachInv(l, m) && Chosen(m, e, k, j)
    requires HoldsAll(l, |m.sys.tab.st|, mem, m.frames) && mem[l.reg[m.sys.tab.curr]] == m.mem[l.reg[m.sys.tab.curr]]
    requires l.lo[m.sys.tab.curr] + 6 <= cpu.esp <= l.hi[m.sys.tab.curr]
    ensures k < |m.sys.tab.st| && j < |m.sys.tab.st| && 6 <= cpu.esp <= |mem|
    ensures j != m.sys.tab.curr || k == m.sys.tab.curr ==> CanSwitch(l, mem, cpu, k, j)
    ensures var c, (mem', cpu') := m.sys.tab.curr, CallCtxsw(l, mem, cpu, k, j);
            CanSwitch(l, mem, cpu, k, j) ==>
              && ((exists f :: Holds(l, mem', k, f)) <==> k == c)
              && (k != c ==> mem'[l.reg[k]] == cpu.esp - 6 && mem'[l.reg[c]] == m.mem[l.reg[c]])
              && (forall y :: y in m.frames && y != k ==> Holds(l, mem', y, m.frames[y]))
              && (j != c && j != k ==> |m.frames[j].words| >= 4 && cpu' == Resumed(l, j, m.frames[j]))
              && (j == c && j != k ==> cpu'.esp == m.mem[l.reg[c]] + 4)
              && (j == k && j != c ==> cpu'.esp == cpu.esp - 2)
  {
    var n, c := |m.sys.tab.st|, m.sys.tab.curr;
    ChosenFrames(l, m, e, k, j);
    if k == c {
      SwitchHolds(l, n, mem, m.frames, cpu, c, j);
      var all := m.frames[c := LeftBehind(l, mem, cpu, c, j)];
      assert Holds(l, CallCtxsw(l, mem, cpu, c, j).0, c, all[c]);
      forall y | y in m.frames && y != c ensures Holds(l, CallCtxsw(l, mem, cpu, c, j).0, y, m.frames[y]) {
        assert all[y] == m.frames[y];
      }
    } else {
      AnotherNamed(l, n, mem, m.frames, cpu, c, k, j);
    }
  }

  // ---------- the same in main ----------

  /** main's stack is nobody's, so the one thread there is loses its frame
      whenever the alarm fires before main's call of ctxsw; main itself goes on. */
  lemma MainInterrupted(l: Layout, n: nat, boxes: nat, mem: Memory, cpu: Cpu, mregs: int)
    requires n > 0 && l.Valid(n) && |mem| == l.size && MainOutside(l, n, cpu, mregs)
    ensures var t := Interrupted(Boot(n, boxes).tab); Resched(t).Some? && Resched(t).value.curr == 0
    ensures cpu.esp <= |mem| && CanSwitch(l, mem, cpu, 0, 0)
    ensures var (mem', cpu') := CallCtxsw(l, mem, cpu, 0, 0);
            && (forall f :: !Holds(l, mem', 0, f))
            && cpu' == Cpu(cpu.esp - 2, cpu.ebp, cpu.esi, cpu.edi, l.reg[0], l.resume)
  {
    var t := Interrupted(Boot(n, boxes).tab);
    assert t.st[0] == XREADY;
    ReschedFails(t);
    assert Outside(l, n, cpu.esp - 1);
    forall a | cpu.esp - 6 <= a < cpu.esp ensures !l.InStack(0, a) { assert Outside(l, n, a); }
    forall y | 0 <= y < n ensures !(cpu.esp - 6 <= l.reg[y] < cpu.esp) { assert !Outside(l, n, l.reg[y]); }
    SelfResumed(l, n, mem, cpu, 0);
    FrameLost(l, n, mem, cpu, 0, 0);
  }

  /** Whatever else main does, the call it then makes does not enter xmain: it
      loads the stack pointer main had in the handler. */
  lemma MainNeverLeaves(l: Layout, n: nat, mem: Memory, cpu: Cpu, mregs: int, back: int)
    requires n > 0 && l.Valid(n) && |mem| == l.size && MainOutside(l, n, cpu, mregs) && cpu.esp <= |mem|
    requires Loadable(CalledAt(mem, cpu, mregs, l.reg[0], back), cpu.(esp := cpu.esp - 3))
    ensures CallAt(mem, cpu, mregs, l.reg[0], back).1.esp == mem[l.reg[0]] + 4
  {
    SwitchPushes(mem, cpu, mregs, l.reg[0], back);
    assert Outside(l, n, mregs);
    assert !Outside(l, n, l.reg[0]);
    assert PushedAt(mem, cpu, mregs, l.reg[0], back)[l.reg[0]] == mem[l.reg[0]];
  }
}
