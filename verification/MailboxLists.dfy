/** The calls with all mailboxes in view: their lists share no node, so a call
    about one of them leaves the others as they are. */
module MailboxLists {
  import opened Threads
  import opened Wrappers
  import opened Machine
  import opened ThreadLib

  /** The mailboxes are apart, and so are their lists, whose nodes are in `own`. */
  ghost predicate AllApart(mbs: seq<Mailbox>, lists: seq<seq<Node>>, own: set<Node>) {
    && |lists| == |mbs|
    && (forall c, d :: 0 <= c < |mbs| && 0 <= d < |mbs| && c != d ==> mbs[c] != mbs[d])
    && (forall c, d, n :: 0 <= c < |mbs| && 0 <= d < |mbs| && c != d && n in lists[c] ==> n !in lists[d])
    && (forall c, n :: 0 <= c < |mbs| && n in lists[c] ==> n in own)
  }

  /** List b has changed, and its new nodes are in none of the others. */
  lemma StillApart(mbs: seq<Mailbox>, lists: seq<seq<Node>>, own: set<Node>, b: nat, now: seq<Node>)
    requires AllApart(mbs, lists, own) && b < |lists| && forall n :: n in now ==> n in lists[b] || n !in own
    ensures AllApart(mbs, lists[b := now], own + (set n | n in now))
    ensures (forall n :: n in now ==> n in lists[b]) ==> AllApart(mbs, lists[b := now], own)
  {
  }

  /** The mailbox has this list and holds this box. */
  ghost predicate Has(mb: Mailbox, list: seq<Node>, box: Mbox)
    reads mb, mb.nodes
  {
    mb.Valid() && mb.nodes == list && mb.Box() == box
  }

  /** The mailboxes hold `boxes`, with lists that share no node. */
  ghost predicate Hold(mbs: seq<Mailbox>, lists: seq<seq<Node>>, own: set<Node>, boxes: seq<Mbox>)
    reads mbs, own
  {
    && |boxes| == |mbs| && AllApart(mbs, lists, own)
    && (forall c :: 0 <= c < |mbs| ==> mbs[c].nodes == lists[c])
    && forall c :: 0 <= c < |mbs| ==> Has(mbs[c], lists[c], boxes[c])
  }

  /** xthread_init_mbox for every mailbox. */
  method InitAll(mbs: seq<Mailbox>)
    requires forall b, c :: 0 <= b < |mbs| && 0 <= c < |mbs| && b != c ==> mbs[b] != mbs[c]
    modifies mbs
    ensures Hold(mbs, seq(|mbs|, _ => []), {}, seq(|mbs|, _ => FRESH_MBOX))
  {
    for b := 0 to |mbs|
      invariant forall c :: 0 <= c < b ==> Has(mbs[c], [], FRESH_MBOX)
    {
      mbs[b].Init();
    }
  }

  method SendAmong(k: Kernel, mbs: seq<Mailbox>, ghost lists: seq<seq<Node>>, ghost own: set<Node>,
                   ghost boxes: seq<Mbox>, b: nat, msg: int) returns (r: int, ghost lists': seq<seq<Node>>)
    requires k.Valid() && Hold(mbs, lists, own, boxes) && b < |mbs| && k.CanServe(mbs[b])
    modifies k.xstate, k.mem, mbs[b]
    ensures k.Valid()
    ensures var c := SendTo(boxes[b], msg);
            && Hold(mbs, lists', own, boxes[b := c.box]) && r == c.ret
            && (forall i :: 0 <= i < |c.woken| ==> c.woken[i].xid < k.xstate.Length)
            && (forall i :: 0 <= i < |c.out| ==> 0 <= c.out[i].to.dest < k.mem.Length)
            && k.Tab() == old(k.Tab()).(st := Wake(old(k.xstate[..]), c.woken))
            && k.mem[..] == StoreAll(old(k.mem[..]), c.out)
  {
    assert Has(mbs[b], lists[b], boxes[b]);
    r := k.XthreadSend(mbs[b], msg);
    lists' := lists[b := mbs[b].nodes];
    StillApart(mbs, lists, own, b, mbs[b].nodes);
  }

  method BroadcastAmong(k: Kernel, mbs: seq<Mailbox>, ghost lists: seq<seq<Node>>, ghost own: set<Node>,
                   ghost boxes: seq<Mbox>, b: nat, msg: int) returns (r: int, ghost lists': seq<seq<Node>>)
    requires k.Valid() && Hold(mbs, lists, own, boxes) && b < |mbs| && k.CanServe(mbs[b])
    modifies k.xstate, k.mem, mbs[b]
    ensures k.Valid()
    ensures var c := BroadcastTo(boxes[b], msg);
            && Hold(mbs, lists', own, boxes[b := c.box]) && r == c.ret
            && (forall i :: 0 <= i < |c.woken| ==> c.woken[i].xid < k.xstate.Length)
            && (forall i :: 0 <= i < |c.out| ==> 0 <= c.out[i].to.dest < k.mem.Length)
            && k.Tab() == old(k.Tab()).(st := Wake(old(k.xstate[..]), c.woken))
            && k.mem[..] == StoreAll(old(k.mem[..]), c.out)
  {
    assert Has(mbs[b], lists[b], boxes[b]);
    r := k.XthreadBroadcast(mbs[b], msg);
    lists' := lists[b := mbs[b].nodes];
    StillApart(mbs, lists, own, b, mbs[b].nodes);
  }

  /** A mailbox holds what it held, when neither it nor its nodes have changed. */
  twostate lemma Untouched(mb: Mailbox)
    requires old(mb.Valid()) && unchanged(mb) && forall n :: n in mb.nodes ==> unchanged(n)
    ensures Has(mb, old(mb.nodes), old(mb.Box()))
  {
    forall i | 0 <= i < |mb.nodes| ensures unchanged(mb.nodes[i]) { assert mb.nodes[i] in mb.nodes; }
  }

  /** A receive changes no mailbox beside its own. */
  method RecvBeside(k: Kernel, mbs: seq<Mailbox>, ghost lists: seq<seq<Node>>, ghost own: set<Node>,
                    ghost boxes: seq<Mbox>, b: nat, dest: int) returns (ok: bool)
    requires k.Valid() && Hold(mbs, lists, own, boxes) && b < |mbs| && 0 <= dest < k.mem.Length
    requires boxes[b].message == EMPTY ==> k.CanResched(k.Tab())
    modifies k, k.xstate, k.mem, mbs[b], mbs[b].nodes
    ensures k.Valid() && mbs[b].Valid() && forall n :: n in mbs[b].nodes ==> n in lists[b] || fresh(n)
    ensures forall c :: 0 <= c < |mbs| && c != b ==> Has(mbs[c], lists[c], boxes[c])
    ensures var c := RecvFrom(boxes[b], Waiter(old(k.currxid), dest)); mbs[b].Box() == c.box && k.Received(c, ok)
  {
    assert Has(mbs[b], lists[b], boxes[b]);
    ok := k.XthreadRecv(mbs[b], dest);
    forall c | 0 <= c < |mbs| && c != b ensures Has(mbs[c], lists[c], boxes[c]) {
      assert mbs[c] != mbs[b] && forall n :: n in lists[c] ==> n !in lists[b];
      assert old(Has(mbs[c], lists[c], boxes[c]));
      Untouched(mbs[c]);
    }
  }

  /** Its own list may get one more node, which is in none of the others. */
  method RecvAmong(k: Kernel, mbs: seq<Mailbox>, ghost lists: seq<seq<Node>>, ghost own: set<Node>,
                   ghost boxes: seq<Mbox>, b: nat, dest: int)
    returns (ok: bool, ghost lists': seq<seq<Node>>, ghost own': set<Node>)
    requires k.Valid() && Hold(mbs, lists, own, boxes) && b < |mbs| && 0 <= dest < k.mem.Length
    requires boxes[b].message == EMPTY ==> k.CanResched(k.Tab())
    modifies k, k.xstate, k.mem, mbs[b], mbs[b].nodes
    ensures k.Valid() && own <= own' && fresh(own' - own)
    ensures var c := RecvFrom(boxes[b], Waiter(old(k.currxid), dest));
            Hold(mbs, lists', own', boxes[b := c.box]) && k.Received(c, ok)
  {
    assert Has(mbs[b], lists[b], boxes[b]);
    ok := RecvBeside(k, mbs, lists, own, boxes, b, dest);
    lists', own' := lists[b := mbs[b].nodes], own + (set n | n in mbs[b].nodes);
    StillApart(mbs, lists, own, b, mbs[b].nodes);
  }
}
