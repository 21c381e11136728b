/** The user-level thread library as pure functions: the thread table with its
    two cyclic searches, the one-slot mailbox with its queue of blocked
    receivers, and one step of the whole system. The number of slots (NPROC in
    the source) is the length of the state table. */
module Threads {

  import opened Wrappers

  datatype XState = XFREE | XREADY | XRUN | XBLOCK

  // ---------- cyclic searches ----------

  /** The slot `k` places after `start` in a ring of `n` slots. */
  function At(start: nat, k: nat, n: nat): nat
    requires start < n && k <= n
  {
    if start + k < n then start + k else start + k - n
  }

  /** How many places lie between `start` and `j`, going forward. */
  function Gap(start: nat, j: nat, n: nat): nat
    requires start < n && j < n
  {
    if start <= j then j - start else j + n - start
  }

  function Succ(i: nat, n: nat): nat
    requires i < n
  {
    if i + 1 >= n then 0 else i + 1
  }

  /** The nearest slot in state `want`, going forward from `start`, with the
      first `k` places already ruled out. */
  function SearchFrom(st: seq<XState>, start: nat, k: nat, want: XState): (r: Option<nat>)
    requires start < |st| && k <= |st|
    ensures r.Some? ==> r.value < |st| && st[r.value] == want && k <= Gap(start, r.value, |st|)
    ensures r.Some? ==>
              forall j :: 0 <= j < |st| && st[j] == want && k <= Gap(start, j, |st|) ==>
                Gap(start, r.value, |st|) <= Gap(start, j, |st|)
    ensures r.None? ==> forall j :: 0 <= j < |st| && k <= Gap(start, j, |st|) ==> st[j] != want
    decreases |st| - k
  {
    if k == |st| then None
    else if st[At(start, k, |st|)] == want then Some(At(start, k, |st|))
    else SearchFrom(st, start, k + 1, want)
  }

  function Search(st: seq<XState>, start: nat, want: XState): Option<nat>
    requires start < |st|
  {
    SearchFrom(st, start, 0, want)
  }

  /** In slot numbers: the least wanted slot from `start` up, or the least of
      all when there is none. */
  ghost predicate FirstFrom(st: seq<XState>, start: nat, want: XState, k: nat) {
    && k < |st| && st[k] == want
    && (k >= start ==> forall j :: start <= j < k ==> st[j] != want)
    && (k < start ==>
          (forall j :: start <= j < |st| ==> st[j] != want) && forall j :: 0 <= j < k ==> st[j] != want)
  }

  lemma SearchInOrder(st: seq<XState>, start: nat, want: XState)
    requires start < |st|
    ensures match Search(st, start, want)
            case Some(k) => FirstFrom(st, start, want, k)
            case None => forall j :: 0 <= j < |st| ==> st[j] != want
  {
  }

  // ---------- thread table ----------

  datatype Table = Table(st: seq<XState>, curr: nat, nextproc: nat)
  {
    ghost predicate Valid() {
      curr < |st| && nextproc < |st|
    }
  }

  /** resched: the first READY slot after the current one becomes the running
      thread. The slot that is left keeps whatever state it has. */
  function Resched(t: Table): (r: Option<Table>)
    requires t.Valid()
    ensures r.Some? ==> r.value.Valid() && |r.value.st| == |t.st|
  {
    match Search(t.st, Succ(t.curr, |t.st|), XREADY)
    case None => None
    case Some(k) => Some(t.(st := t.st[k := XRUN], curr := k))
  }

  /** newxid and the state change of xthread_create: None is "run out of
      process table". */
  function CreateIn(t: Table): (r: Option<(nat, Table)>)
    requires t.Valid()
    ensures r.Some? ==> r.value.0 < |t.st| && r.value.1.Valid() && |r.value.1.st| == |t.st|
  {
    match Search(t.st, t.nextproc, XFREE)
    case None => None
    case Some(x) => Some((x, t.(st := t.st[x := XREADY], nextproc := Succ(x, |t.st|))))
  }

  // ---------- mailbox ----------

  datatype Waiter = Waiter(xid: nat, dest: int)

  /** `message == -1` is an empty box. */
  datatype Mbox = Mbox(message: int, queue: seq<Waiter>)

  const EMPTY: int := -1

  const FRESH_MBOX := Mbox(EMPTY, [])

  /** A word stored through a receiver's pointer. */
  datatype Delivery = Delivery(to: Waiter, msg: int)

  /** The result of one mailbox call: the new box, the stores made through
      receivers' pointers in order, the slots made READY in order, the value
      returned, and whether the caller goes on to resched. */
  datatype Call = Call(box: Mbox, out: seq<Delivery>, woken: seq<Waiter>, ret: int, blocks: bool)

  function SendTo(m: Mbox, msg: int): Call {
    if m.message > 0 then Call(m, [], [], -1, false)
    else if m.queue == [] then Call(m.(message := msg), [], [], 0, false)
    else Call(m.(queue := m.queue[1..]), [Delivery(m.queue[0], msg)], [m.queue[0]], 0, false)
  }

  function DeliverAll(q: seq<Waiter>, msg: int): (r: seq<Delivery>)
    ensures |r| == |q| && forall i :: 0 <= i < |q| ==> r[i] == Delivery(q[i], msg)
  {
    seq(|q|, i requires 0 <= i < |q| => Delivery(q[i], msg))
  }

  function BroadcastTo(m: Mbox, msg: int): Call {
    if m.message > 0 then Call(m, [], [], -1, false)
    else if m.queue == [] then Call(m, [], [], -2, false)
    else Call(m.(queue := []), DeliverAll(m.queue, msg), m.queue, 0, false)
  }

  function QueueSelf(m: Mbox, me: Waiter): Mbox {
    m.(queue := m.queue + [me])
  }

  /** What a receiver does when it has seen a message: the test is not repeated. */
  function TakeFrom(m: Mbox, me: Waiter): Call {
    Call(m.(message := EMPTY), [Delivery(me, m.message)], [], 0, false)
  }

  /** A receiver that finds the box empty queues itself and yields; its state
      is not changed, because the source compares it with XBLOCK instead of
      assigning it. */
  function RecvFrom(m: Mbox, me: Waiter): Call {
    if m.message == EMPTY then Call(QueueSelf(m, me), [], [], 0, true)
    else TakeFrom(m, me)
  }

  predicate Among(x: nat, ws: seq<Waiter>) {
    exists i :: 0 <= i < |ws| && ws[i].xid == x
  }

  /** The state table after the listed waiters are made READY. */
  function Wake(st: seq<XState>, ws: seq<Waiter>): (r: seq<XState>)
    requires forall i :: 0 <= i < |ws| ==> ws[i].xid < |st|
    ensures |r| == |st|
    ensures forall x :: 0 <= x < |st| ==> r[x] == if Among(x, ws) then XREADY else st[x]
  {
    seq(|st|, x requires 0 <= x < |st| => if Among(x, ws) then XREADY else st[x])
  }

  // ---------- the whole system ----------

  datatype Sys = Sys(tab: Table, mb: seq<Mbox>)
  {
    ghost predicate Valid() {
      && tab.Valid()
      && forall b, i :: 0 <= b < |mb| && 0 <= i < |mb[b].queue| ==> mb[b].queue[i].xid < |tab.st|
    }
  }

  /** What the running thread may do next; Timer is the alarm handler and Exit
      is a return into userret. Each event is atomic up to its resched. */
  datatype Event =
    | Create
    | Send(b: nat, msg: int)
    | Broadcast(b: nat, msg: int)
    | Recv(b: nat, dest: int)
    | Timer
    | Exit

  datatype Halt = NoThreadToRun | OutOfTable

  datatype Outcome = Next(sys: Sys, out: seq<Delivery>, ret: int) | Stop(why: Halt)

  predicate Allowed(s: Sys, e: Event) {
    match e
    case Send(b, _) => b < |s.mb|
    case Broadcast(b, _) => b < |s.mb|
    case Recv(b, _) => b < |s.mb|
    case _ => true
  }

  function MboxCall(s: Sys, e: Event): Call
    requires Allowed(s, e) && (e.Send? || e.Broadcast? || e.Recv?)
  {
    match e
    case Send(b, msg) => SendTo(s.mb[b], msg)
    case Broadcast(b, msg) => BroadcastTo(s.mb[b], msg)
    case Recv(b, dest) => RecvFrom(s.mb[b], Waiter(s.tab.curr, dest))
  }

  function Yield(tab: Table, mb: seq<Mbox>, ret: int): Outcome
    requires tab.Valid()
  {
    match Resched(tab)
    case None => Stop(NoThreadToRun)
    case Some(t) => Next(Sys(t, mb), [], ret)
  }

  function Step(s: Sys, e: Event): Outcome
    requires s.Valid() && Allowed(s, e)
  {
    var t := s.tab;
    match e
    case Create =>
      (match CreateIn(t)
       case None => Stop(OutOfTable)
       case Some(p) => Next(s.(tab := p.1), [], p.0))
    case Timer => Yield(t.(st := t.st[t.curr := XREADY]), s.mb, 0)
    case Exit => Yield(t.(st := t.st[t.curr := XFREE]), s.mb, 0)
    case _ =>
      var c := MboxCall(s, e);
      var mb := s.mb[e.b := c.box];
      if c.blocks then Yield(t, mb, c.ret)
      else Next(Sys(t.(st := Wake(t.st, c.woken)), mb), c.out, c.ret)
  }

  /** The table an event leaves for resched to search. */
  function YieldTable(s: Sys, e: Event): Table
    requires s.tab.Valid()
  {
    match e
    case Timer => s.tab.(st := s.tab.st[s.tab.curr := XREADY])
    case Exit => s.tab.(st := s.tab.st[s.tab.curr := XFREE])
    case _ => s.tab
  }

  function YieldBoxes(s: Sys, e: Event): seq<Mbox>
    requires Allowed(s, e)
  {
    if e.Recv? then s.mb[e.b := MboxCall(s, e).box] else s.mb
  }

  /** main: slot 0 is created first and runs; every mailbox is initialised. */
  function Boot(n: nat, boxes: nat): (s: Sys)
    requires n > 0
    ensures s.Valid()
  {
    Sys(Table(seq(n, i => if i == 0 then XRUN else XFREE), 0, Succ(0, n)),
        seq(boxes, _ => FRESH_MBOX))
  }
}
