/** The thread library on a word-addressed machine: private stacks, the saved
    stack pointer of each slot, ctxsw, the first frame of a new thread, and
    messages stored through pointers into the stacks of blocked threads. */
module Machine {
  import opened Threads
  import opened ThreadRuns

  /** The registers ctxsw touches. */
  datatype Cpu = Cpu(esp: int, ebp: int, esi: int, edi: int, ebx: int, eip: int)

  /** Where things are, in words: slot x owns stack words lo[x]..hi[x], and
      its xregs[SP] is word reg[x]. `resume` is the return address of the call
      to ctxsw in resched. */
  datatype Layout = Layout(lo: seq<int>, hi: seq<int>, reg: seq<int>, size: int, userret: int, resume: int)
  {
    predicate InStack(x: nat, a: int) {
      x < |lo| && x < |hi| && lo[x] <= a < hi[x]
    }

    ghost predicate Valid(n: nat) {
      && |lo| == n && |hi| == n && |reg| == n
      && (forall x :: 0 <= x < n ==> 0 <= lo[x] < hi[x] <= size)
      && (forall x :: 0 <= x < n ==> 0 <= reg[x] < size)
      && (forall x: nat, y: nat, a :: InStack(x, a) && InStack(y, a) ==> x == y)
      && (forall x: nat, y: nat :: x < n && y < n ==> !InStack(x, reg[y]))
      && (forall x, y :: 0 <= x < y < n ==> reg[x] != reg[y])
    }
  }

  type Memory = seq<int>

  // ---------- ctxsw ----------

  /** Memory once ctxsw, entered with esp at its return address, has pushed
      three registers and saved the stack pointer at its first argument. */
  function Saved(mem: Memory, cpu: Cpu): (r: Memory)
    requires 3 <= cpu.esp && cpu.esp + 2 < |mem| && 0 <= mem[cpu.esp + 1] < |mem|
    ensures |r| == |mem|
  {
    mem[cpu.esp - 1 := cpu.ebp][cpu.esp - 2 := cpu.esi][cpu.esp - 3 := cpu.edi][mem[cpu.esp + 1] := cpu.esp - 3]
  }

  /** Its second argument points at a stack pointer with four words above. */
  predicate Loadable(mem: Memory, cpu: Cpu)
    requires 3 <= cpu.esp && cpu.esp + 2 < |mem| && 0 <= mem[cpu.esp + 1] < |mem|
  {
    var m := Saved(mem, cpu);
    0 <= m[cpu.esp + 2] < |m| && 0 <= m[m[cpu.esp + 2]] && m[m[cpu.esp + 2]] + 3 < |m|
  }

  function Ctxsw(mem: Memory, cpu: Cpu): (r: (Memory, Cpu))
    requires 3 <= cpu.esp && cpu.esp + 2 < |mem| && 0 <= mem[cpu.esp + 1] < |mem|
    requires Loadable(mem, cpu)
    ensures |r.0| == |mem|
  {
    var m := Saved(mem, cpu);
    var to := m[cpu.esp + 2];
    var sp := m[to];
    (m, Cpu(sp + 4, m[sp + 2], m[sp + 1], m[sp], to, m[sp + 3]))
  }

  /** Memory once a call of ctxsw has pushed the two register-area addresses and
      its return address. */
  function CalledAt(mem: Memory, cpu: Cpu, fromReg: int, toReg: int, back: int): (r: Memory)
    requires 6 <= cpu.esp <= |mem|
    ensures |r| == |mem|
  {
    mem[cpu.esp - 1 := toReg][cpu.esp - 2 := fromReg][cpu.esp - 3 := back]
  }

  /** The call and the switch. A switch into a slot without a saved stack does
      not happen in any run; the second branch only makes this total. */
  function CallAt(mem: Memory, cpu: Cpu, fromReg: int, toReg: int, back: int): (r: (Memory, Cpu))
    requires 6 <= cpu.esp <= |mem| && 0 <= fromReg < |mem| && 0 <= toReg < |mem|
    ensures |r.0| == |mem|
  {
    var m, c := CalledAt(mem, cpu, fromReg, toReg, back), cpu.(esp := cpu.esp - 3);
    if Loadable(m, c) then Ctxsw(m, c) else (m, c)
  }

  function Called(l: Layout, mem: Memory, cpu: Cpu, from: nat, to: nat): (r: Memory)
    requires from < |l.reg| && to < |l.reg| && 6 <= cpu.esp <= |mem|
    ensures |r| == |mem|
  {
    CalledAt(mem, cpu, l.reg[from], l.reg[to], l.resume)
  }

  /** resched's call. */
  function CallCtxsw(l: Layout, mem: Memory, cpu: Cpu, from: nat, to: nat): (r: (Memory, Cpu))
    requires from < |l.reg| && to < |l.reg| && 6 <= cpu.esp <= |mem|
    requires 0 <= l.reg[from] < |mem| && 0 <= l.reg[to] < |mem|
    ensures |r.0| == |mem|
  {
    CallAt(mem, cpu, l.reg[from], l.reg[to], l.resume)
  }

  /** resched's call has room, and slot `to` has a saved stack. */
  ghost predicate CanSwitch(l: Layout, mem: Memory, cpu: Cpu, from: nat, to: nat) {
    && from < |l.reg| && to < |l.reg| && 6 <= cpu.esp <= |mem|
    && 0 <= l.reg[from] < |mem| && Loadable(Called(l, mem, cpu, from, to), cpu.(esp := cpu.esp - 3))
  }

  // ---------- the first frame of a new thread ----------

  /** What xthread_create writes below `top`: three words it skips, the entry
      point, userret and the arguments in order. */
  function NewFrame(l: Layout, mem: Memory, top: int, proc: int, args: seq<int>): (r: Memory)
    requires |args| + 5 <= top <= |mem|
    ensures |r| == |mem|
  {
    var sp := top - |args| - 5;
    mem[..sp + 3] + [proc, l.userret] + args + mem[top..]
  }

  // ---------- frames of threads that are not running ----------

  /** The saved stack of a thread: edi, esi, ebp, the return address, and the
      rest of its stack up to the base. */
  datatype Frame = Frame(sp: int, words: seq<int>)

  type Frames = map<nat, Frame>

  ghost predicate Holds(l: Layout, mem: Memory, x: nat, f: Frame)
    requires x < |l.lo| && x < |l.hi| && x < |l.reg|
  {
    && 0 <= l.lo[x] <= f.sp && f.sp + 4 <= l.hi[x] <= |mem|
    && 0 <= l.reg[x] < |mem| && mem[l.reg[x]] == f.sp
    && f.words == mem[f.sp..l.hi[x]]
  }

  ghost predicate HoldsAll(l: Layout, n: nat, mem: Memory, fs: Frames)
    requires l.Valid(n)
  {
    |mem| == l.size && forall x :: x in fs ==> x < n && Holds(l, mem, x, fs[x])
  }

  /** A word that thread x may have handed out a pointer to when its stack
      pointer was `above`: not a saved stack pointer, not in another thread's
      stack, and in its own stack only from `above` on. */
  ghost predicate MayPoint(l: Layout, n: nat, x: nat, above: int, a: int)
    requires l.Valid(n)
  {
    && 0 <= a < l.size
    && (forall y :: 0 <= y < n ==> a != l.reg[y])
    && (forall y: nat :: l.InStack(y, a) ==> y == x && above <= a)
  }

  // ---------- deliveries ----------

  function StoreAll(mem: Memory, out: seq<Delivery>): (r: Memory)
    requires forall i :: 0 <= i < |out| ==> 0 <= out[i].to.dest < |mem|
    ensures |r| == |mem|
    decreases |out|
  {
    if out == [] then mem else StoreAll(mem[out[0].to.dest := out[0].msg], out[1..])
  }

  /** The only change a delivery makes to the receiver's saved stack. */
  function Note(l: Layout, fs: Frames, d: Delivery): (r: Frames)
    ensures r.Keys == fs.Keys
  {
    var x := d.to.xid;
    if x in fs && l.InStack(x, d.to.dest) && 0 <= d.to.dest - fs[x].sp < |fs[x].words|
    then fs[x := Frame(fs[x].sp, fs[x].words[d.to.dest - fs[x].sp := d.msg])]
    else fs
  }

  function NoteAll(l: Layout, fs: Frames, out: seq<Delivery>): (r: Frames)
    ensures r.Keys == fs.Keys
    decreases |out|
  {
    if out == [] then fs else NoteAll(l, Note(l, fs, out[0]), out[1..])
  }

  ghost predicate Safe(l: Layout, n: nat, fs: Frames, d: Delivery)
    requires l.Valid(n)
  {
    d.to.xid in fs && MayPoint(l, n, d.to.xid, fs[d.to.xid].sp + 4, d.to.dest)
  }

  lemma HoldsSame(l: Layout, mem: Memory, mem': Memory, x: nat, f: Frame)
    requires x < |l.lo| && x < |l.hi| && x < |l.reg| && Holds(l, mem, x, f) && |mem'| == |mem|
    requires mem'[l.reg[x]] == mem[l.reg[x]]
    requires forall a :: 0 <= a < |mem| && l.InStack(x, a) ==> mem'[a] == mem[a]
    ensures Holds(l, mem', x, f)
  {
    forall a | f.sp <= a < l.hi[x] ensures mem'[a] == mem[a] {
      assert l.InStack(x, a);
    }
    assert mem'[f.sp..l.hi[x]] == mem[f.sp..l.hi[x]];
  }

  lemma NoteHolds(l: Layout, n: nat, mem: Memory, fs: Frames, d: Delivery)
    requires l.Valid(n) && HoldsAll(l, n, mem, fs) && Safe(l, n, fs, d)
    ensures HoldsAll(l, n, mem[d.to.dest := d.msg], Note(l, fs, d))
    ensures forall x :: x in fs ==> Note(l, fs, d)[x].sp == fs[x].sp
  {
    var m, a, w := mem[d.to.dest := d.msg], d.to.dest, d.to.xid;
    forall x | x in fs ensures x < n && Holds(l, m, x, Note(l, fs, d)[x]) {
      assert Holds(l, mem, x, fs[x]);
      if x == w && l.InStack(x, a) {
        var sp := fs[x].sp;
        assert m[sp..l.hi[x]] == mem[sp..l.hi[x]][a - sp := d.msg];
      } else {
        assert Note(l, fs, d)[x] == fs[x];
        assert !l.InStack(x, a);
        HoldsSame(l, mem, m, x, fs[x]);
      }
    }
  }

  lemma NoteAllHolds(l: Layout, n: nat, mem: Memory, fs: Frames, out: seq<Delivery>)
    requires l.Valid(n) && HoldsAll(l, n, mem, fs)
    requires forall i :: 0 <= i < |out| ==> Safe(l, n, fs, out[i])
    ensures forall i :: 0 <= i < |out| ==> 0 <= out[i].to.dest < |mem|
    ensures HoldsAll(l, n, StoreAll(mem, out), NoteAll(l, fs, out))
    ensures forall x :: x in fs ==> NoteAll(l, fs, out)[x].sp == fs[x].sp
    decreases |out|
  {
    if out == [] {
    } else {
      NoteHolds(l, n, mem, fs, out[0]);
      NoteAllHolds(l, n, mem[out[0].to.dest := out[0].msg], Note(l, fs, out[0]), out[1..]);
    }
  }

  /** A store that touches no saved stack and no saved stack pointer. */
  lemma PrivateStore(l: Layout, n: nat, mem: Memory, fs: Frames, x: nat, a: int, v: int)
    requires l.Valid(n) && HoldsAll(l, n, mem, fs)
    requires x !in fs && MayPoint(l, n, x, a, a)
    ensures HoldsAll(l, n, mem[a := v], fs)
  {
    forall y | y in fs ensures y < n && Holds(l, mem[a := v], y, fs[y]) {
      assert !l.InStack(y, a);
      HoldsSame(l, mem, mem[a := v], y, fs[y]);
    }
  }

  // ---------- leaving and entering a thread ----------

  /** What a thread leaves on its stack when it gives up the processor. */
  function LeftBehind(l: Layout, mem: Memory, cpu: Cpu, from: nat, to: nat): Frame
    requires from < |l.reg| && to < |l.reg| && from < |l.hi|
    requires 6 <= cpu.esp <= l.hi[from] <= |mem|
  {
    Frame(cpu.esp - 6,
          [cpu.edi, cpu.esi, cpu.ebp, l.resume, l.reg[from], l.reg[to]] + mem[cpu.esp..l.hi[from]])
  }

  /** The processor of a thread that goes on from a saved frame. */
  function Resumed(l: Layout, x: nat, f: Frame): Cpu
    requires x < |l.reg| && 4 <= |f.words|
  {
    Cpu(f.sp + 4, f.words[2], f.words[1], f.words[0], l.reg[x], f.words[3])
  }

  function PushedAt(mem: Memory, cpu: Cpu, fromReg: int, toReg: int, back: int): (r: Memory)
    requires 6 <= cpu.esp <= |mem| && 0 <= fromReg < |mem|
    ensures |r| == |mem|
  {
    var e := cpu.esp;
    mem[e - 1 := toReg][e - 2 := fromReg][e - 3 := back]
       [e - 4 := cpu.ebp][e - 5 := cpu.esi][e - 6 := cpu.edi][fromReg := e - 6]
  }

  function Pushed(l: Layout, mem: Memory, cpu: Cpu, from: nat, to: nat): Memory
    requires from < |l.reg| && to < |l.reg| && 6 <= cpu.esp <= |mem| && 0 <= l.reg[from] < |mem|
  {
    PushedAt(mem, cpu, l.reg[from], l.reg[to], l.resume)
  }

  lemma PushedFrame(l: Layout, n: nat, mem: Memory, cpu: Cpu, from: nat, to: nat)
    requires l.Valid(n) && |mem| == l.size && from < n && to < n && l.lo[from] + 6 <= cpu.esp <= l.hi[from]
    ensures Holds(l, Pushed(l, mem, cpu, from, to), from, LeftBehind(l, mem, cpu, from, to))
  {
    var e, mem' := cpu.esp, Pushed(l, mem, cpu, from, to);
    forall a | e - 6 <= a < e ensures l.InStack(from, a) {}
    assert !l.InStack(from, l.reg[from]);
    forall a | e <= a < l.hi[from] ensures mem'[a] == mem[a] { assert l.InStack(from, a); }
    assert LeftBehind(l, mem, cpu, from, to).words == mem'[e - 6..l.hi[from]];
  }

  /** The frame of another thread than the one that pushes. */
  lemma PushedBy(l: Layout, n: nat, mem: Memory, cpu: Cpu, from: nat, to: nat, y: nat, f: Frame)
    requires l.Valid(n) && |mem| == l.size && from < n && to < n && l.lo[from] + 6 <= cpu.esp <= l.hi[from]
    requires y < n && y != from && Holds(l, mem, y, f)
    ensures Holds(l, Pushed(l, mem, cpu, from, to), y, f)
  {
    var e, mem' := cpu.esp, Pushed(l, mem, cpu, from, to);
    forall a | e - 6 <= a < e ensures l.InStack(from, a) {}
    forall a | 0 <= a < |mem| && l.InStack(y, a) ensures mem'[a] == mem[a] {
      assert !l.InStack(from, a) && a != l.reg[from];
    }
    assert !l.InStack(from, l.reg[y]) && l.reg[y] != l.reg[from];
    HoldsSame(l, mem, mem', y, f);
  }

  lemma PushedHolds(l: Layout, n: nat, mem: Memory, fs: Frames, cpu: Cpu, from: nat, to: nat)
    requires l.Valid(n) && HoldsAll(l, n, mem, fs) && from < n && to < n
    requires from !in fs && l.lo[from] + 6 <= cpu.esp <= l.hi[from]
    ensures HoldsAll(l, n, Pushed(l, mem, cpu, from, to), fs[from := LeftBehind(l, mem, cpu, from, to)])
  {
    PushedFrame(l, n, mem, cpu, from, to);
    forall y | y in fs ensures y < n && Holds(l, Pushed(l, mem, cpu, from, to), y, fs[y]) {
      PushedBy(l, n, mem, cpu, from, to, y, fs[y]);
    }
  }

  lemma CallAtIsPushed(mem: Memory, cpu: Cpu, fromReg: int, toReg: int, back: int)
    requires 6 <= cpu.esp <= |mem| && 0 <= fromReg < |mem| && 0 <= toReg < |mem| && fromReg != cpu.esp - 1
    ensures var m := PushedAt(mem, cpu, fromReg, toReg, back);
            var sp := m[toReg];
            0 <= sp && sp + 3 < |m| ==>
              Loadable(CalledAt(mem, cpu, fromReg, toReg, back), cpu.(esp := cpu.esp - 3)) &&
              CallAt(mem, cpu, fromReg, toReg, back) == (m, Cpu(sp + 4, m[sp + 2], m[sp + 1], m[sp], toReg, m[sp + 3]))
  {
  }

  lemma FrameWords(l: Layout, mem: Memory, x: nat, f: Frame)
    requires x < |l.lo| && x < |l.hi| && x < |l.reg| && Holds(l, mem, x, f)
    ensures 4 <= |f.words| && 0 <= f.sp && f.sp + 3 < |mem|
    ensures forall k :: 0 <= k < |f.words| ==> f.words[k] == mem[f.sp + k]
  {
  }

  /** ctxsw between two threads, or from a thread to itself: the old thread's
      frame is on its stack, no other saved stack changes, and the new
      thread's registers come from its own frame. */
  lemma SwitchHolds(l: Layout, n: nat, mem: Memory, fs: Frames, cpu: Cpu, from: nat, to: nat)
    requires l.Valid(n) && HoldsAll(l, n, mem, fs) && from < n && to < n
    requires from !in fs && l.lo[from] + 6 <= cpu.esp <= l.hi[from]
    requires to in fs || to == from
    ensures CanSwitch(l, mem, cpu, from, to)
    ensures var all := fs[from := LeftBehind(l, mem, cpu, from, to)];
            var (mem', cpu') := CallCtxsw(l, mem, cpu, from, to);
            && HoldsAll(l, n, mem', all)
            && 4 <= |all[to].words|
            && cpu' == Resumed(l, to, all[to])
  {
    var e := cpu.esp;
    var f := LeftBehind(l, mem, cpu, from, to);
    var all := fs[from := f];
    var mem' := Pushed(l, mem, cpu, from, to);
    PushedHolds(l, n, mem, fs, cpu, from, to);
    assert l.InStack(from, e - 1) && !l.InStack(from, l.reg[from]);
    CallAtIsPushed(mem, cpu, l.reg[from], l.reg[to], l.resume);
    FrameWords(l, mem', to, all[to]);
  }
}
