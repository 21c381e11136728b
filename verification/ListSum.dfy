/** The distributed list sum: the choice of two servers, the even/odd split into
    linked lists, the recursive external data representation of a list, and the
    map and reduce each server runs on its half. */
module ListSum {
  import opened Bytes
  import opened Wrappers

  /** What the two foreign pieces do: the square root of the square root on
      the bits of a float, and the real number the bits stand for. */
  datatype Arith = Arith(root: Word -> Word, val: Word -> real)

  // ---------- which two servers ----------

  ghost predicate Below(loads: seq<real>, i: nat) {
    i < |loads| && loads[i] < 1.0
  }

  /** pick is the first least loaded machine below 1.0 other than skip, or 0
      when there is none. */
  ghost predicate Least(loads: seq<real>, skip: int, pick: nat, upto: nat)
    requires upto <= |loads|
  {
    if exists i: nat :: i < upto && i != skip && Below(loads, i) then
      && pick < upto && pick != skip && loads[pick] < 1.0
      && forall i :: 0 <= i < upto && i != skip ==> if i < pick then loads[i] > loads[pick] else loads[i] >= loads[pick]
    else
      pick == 0
  }

  /** The scan of the loads; main runs it twice, the second time past the first
      choice. */
  method LeastLoaded(loads: seq<real>, skip: int) returns (pick: nat)
    ensures Least(loads, skip, pick, |loads|)
  {
    var low := 1.0;
    pick := 0;
    for i := 0 to |loads|
      invariant Least(loads, skip, pick, i)
      invariant low <= 1.0 && (low < 1.0 ==> pick < i && pick != skip && low == loads[pick])
      invariant forall k :: 0 <= k < i && k != skip ==> loads[k] >= low
    {
      if low > loads[i] && i != skip {
        assert Below(loads, i);
        low := loads[i];
        pick := i;
      }
    }
  }

  /** The pick has a load no higher than any other machine below 1.0 and lower
      than those before it, and is not the excluded one. */
  lemma LeastIs(loads: seq<real>, skip: int, pick: nat)
    requires Least(loads, skip, pick, |loads|)
    ensures (forall i :: 0 <= i < |loads| && i != skip ==> loads[i] >= 1.0) ==> pick == 0
    ensures forall i :: 0 <= i < |loads| && i != skip && loads[i] < 1.0 ==>
              && pick < |loads| && pick != skip && loads[pick] <= loads[i]
              && (i < pick ==> loads[pick] < loads[i])
  {
    forall i | 0 <= i < |loads| && i != skip && loads[i] < 1.0 ensures Below(loads, i) {}
  }

  method PickServers(loads: seq<real>) returns (count1: nat, count2: nat)
    requires |loads| > 0
    ensures count1 < |loads| && count2 < |loads|
    ensures Least(loads, -1, count1, |loads|) && Least(loads, count1, count2, |loads|)
  {
    count1 := LeastLoaded(loads, -1);
    count2 := LeastLoaded(loads, count1);
  }

  /** The two servers differ exactly when some machine other than the first has
      a load below 1.0. */
  lemma DistinctServers(loads: seq<real>, count1: nat, count2: nat)
    requires |loads| > 0
    requires Least(loads, -1, count1, |loads|) && Least(loads, count1, count2, |loads|)
    ensures count1 != count2 <==> exists i :: 1 <= i < |loads| && loads[i] < 1.0
  {
    if i :| 1 <= i < |loads| && loads[i] < 1.0 {
      assert i != -1 && Below(loads, i);
      if count1 == 0 { assert i != count1; }
    }
    if count1 != 0 {
      assert Below(loads, count1);
    } else if count2 != 0 {
      assert Below(loads, count2);
    }
  }

  // ---------- linked lists ----------

  class Node {
    var value: Word
    var next: Node?

    constructor (value: Word)
      ensures this.value == value && next == null
    {
      this.value, next := value, null;
    }
  }

  /** nodes are the nodes of the list that starts at head, first to last. */
  ghost predicate Chain(head: Node?, nodes: seq<Node>)
    reads nodes`next
  {
    if nodes == [] then head == null else head == nodes[0] && Chain(nodes[0].next, nodes[1..])
  }

  function Values(nodes: seq<Node>): (ws: seq<Word>)
    reads nodes
    ensures |ws| == |nodes|
    ensures forall i :: 0 <= i < |nodes| ==> ws[i] == nodes[i].value
  {
    seq(|nodes|, i requires 0 <= i < |nodes| reads nodes => nodes[i].value)
  }

  lemma {:induction false} Suffix(head: Node?, nodes: seq<Node>, j: nat)
    requires Chain(head, nodes) && j < |nodes|
    ensures Chain(nodes[j], nodes[j..])
  {
    if j == 0 {
    } else {
      Suffix(nodes[0].next, nodes[1..], j - 1);
      assert nodes[1..][j - 1..] == nodes[j..];
    }
  }

  lemma {:induction false} SameLength(head: Node?, xs: seq<Node>, ys: seq<Node>)
    requires Chain(head, xs) && Chain(head, ys)
    ensures xs == ys
  {
    if xs == [] || ys == [] {
    } else {
      SameLength(xs[0].next, xs[1..], ys[1..]);
      assert xs == [xs[0]] + xs[1..] && ys == [ys[0]] + ys[1..];
    }
  }

  lemma {:induction false} ChainDistinct(head: Node?, nodes: seq<Node>)
    requires Chain(head, nodes)
    ensures forall i, j :: 0 <= i < j < |nodes| ==> nodes[i] != nodes[j]
  {
    if nodes == [] {
    } else {
      ChainDistinct(nodes[0].next, nodes[1..]);
      forall j | 0 < j < |nodes| ensures nodes[j] != nodes[0] {
        Suffix(head, nodes, j);
        if nodes[j] == nodes[0] { SameLength(head, nodes, nodes[j..]); }
      }
    }
  }

  // ---------- the even/odd split ----------

  /** The values at the positions of the given parity, in order. */
  function Half(data: seq<Word>, parity: nat): (h: seq<Word>)
    requires parity < 2
    ensures |h| == (|data| + 1 - parity) / 2
    ensures forall i :: 0 <= i < |h| ==> h[i] == data[2 * i + parity]
  {
    seq((|data| + 1 - parity) / 2, i requires 0 <= i < (|data| + 1 - parity) / 2 => data[2 * i + parity])
  }

  lemma HalfSnoc(data: seq<Word>, j: nat)
    requires j < |data|
    ensures Half(data[..j + 1], j % 2) == Half(data[..j], j % 2) + [data[j]]
    ensures Half(data[..j + 1], 1 - j % 2) == Half(data[..j], 1 - j % 2)
  {
  }

  /** The list by positions: the form a loop that links at the end keeps. */
  ghost predicate Linked(head: Node?, prev: Node?, nodes: seq<Node>)
    reads nodes
  {
    && head == (if nodes == [] then null else nodes[0])
    && (nodes != [] ==> prev == nodes[|nodes| - 1] && nodes[|nodes| - 1].next == null)
    && (forall i {:trigger nodes[i].next} :: 0 <= i < |nodes| - 1 ==> nodes[i].next == nodes[i + 1])
    && (forall i, j :: 0 <= i < j < |nodes| ==> nodes[i] != nodes[j])
  }

  lemma {:induction false} LinkedChain(head: Node?, prev: Node?, nodes: seq<Node>)
    requires Linked(head, prev, nodes)
    ensures Chain(head, nodes)
  {
    if |nodes| <= 1 {
    } else {
      assert nodes[0].next == nodes[1];
      forall i {:trigger nodes[1..][i].next} | 0 <= i < |nodes[1..]| - 1
        ensures nodes[1..][i].next == nodes[1..][i + 1]
      {
        assert nodes[i + 1].next == nodes[i + 1 + 1];
      }
      LinkedChain(nodes[1], prev, nodes[1..]);
    }
  }

  lemma ValuesSnoc(nodes: seq<Node>, pp: Node)
    ensures Values(nodes + [pp]) == Values(nodes) + [pp.value]
  {
  }

  ghost predicate Apart(xs: seq<Node>, ys: seq<Node>) {
    forall i, j :: 0 <= i < |xs| && 0 <= j < |ys| ==> xs[i] != ys[j]
  }

  /** One node linked at the end through the prev pointer; the other list is
      left as it was. */
  method LinkLast(head: Node?, prev: Node?, pp: Node, ghost nodes: seq<Node>,
                  ghost head': Node?, ghost prev': Node?, ghost nodes': seq<Node>)
    returns (first: Node?)
    requires Linked(head, prev, nodes) && pp !in nodes && pp.next == null
    requires Linked(head', prev', nodes') && Apart(nodes, nodes')
    modifies if nodes == [] then {} else {nodes[|nodes| - 1]}
    ensures Linked(first, pp, nodes + [pp]) && Values(nodes + [pp]) == old(Values(nodes) + [pp.value])
    ensures Linked(head', prev', nodes') && Values(nodes') == old(Values(nodes'))
  {
    ValuesSnoc(nodes, pp);
    first := head;
    if head == null {
      first := pp;
    } else {
      prev.next := pp;
    }
  }

  /** The two lists after some of the input has been dealt out. */
  ghost predicate Dealt(head1: Node?, prev1: Node?, evens: seq<Node>, head2: Node?, prev2: Node?, odds: seq<Node>,
                        read: seq<Word>)
    reads evens, odds
  {
    && Linked(head1, prev1, evens) && Values(evens) == Half(read, 0)
    && Linked(head2, prev2, odds) && Values(odds) == Half(read, 1)
    && Apart(evens, odds)
  }

  method DealEven(head1: Node?, prev1: Node?, ghost evens: seq<Node>,
                  ghost head2: Node?, ghost prev2: Node?, ghost odds: seq<Node>,
                  ghost data: seq<Word>, ghost j: nat, pp: Node) returns (first: Node?)
    requires j < |data| && j % 2 == 0 && pp.value == data[j] && pp.next == null && pp !in evens && pp !in odds
    requires Dealt(head1, prev1, evens, head2, prev2, odds, data[..j])
    modifies if evens == [] then {} else {evens[|evens| - 1]}
    ensures Dealt(first, pp, evens + [pp], head2, prev2, odds, data[..j + 1])
  {
    HalfSnoc(data, j);
    first := LinkLast(head1, prev1, pp, evens, head2, prev2, odds);
  }

  method DealOdd(ghost head1: Node?, ghost prev1: Node?, ghost evens: seq<Node>,
                 head2: Node?, prev2: Node?, ghost odds: seq<Node>,
                 ghost data: seq<Word>, ghost j: nat, pp: Node) returns (first: Node?)
    requires j < |data| && j % 2 == 1 && pp.value == data[j] && pp.next == null && pp !in evens && pp !in odds
    requires Dealt(head1, prev1, evens, head2, prev2, odds, data[..j])
    modifies if odds == [] then {} else {odds[|odds| - 1]}
    ensures Dealt(head1, prev1, evens, first, pp, odds + [pp], data[..j + 1])
  {
    HalfSnoc(data, j);
    first := LinkLast(head2, prev2, pp, odds, head1, prev1, evens);
  }

  /** One value read: a new node at the end of the list of its position's parity. */
  method Deal(data: seq<Word>, j: nat, head1: Node?, prev1: Node?, ghost evens: seq<Node>,
              head2: Node?, prev2: Node?, ghost odds: seq<Node>, ghost made: set<Node>)
    returns (first1: Node?, last1: Node?, first2: Node?, last2: Node?,
             ghost evens': seq<Node>, ghost odds': seq<Node>, ghost made': set<Node>)
    requires j < |data| && Dealt(head1, prev1, evens, head2, prev2, odds, data[..j])
    requires (forall n :: n in evens ==> n in made) && (forall n :: n in odds ==> n in made)
    modifies made
    ensures Dealt(first1, last1, evens', first2, last2, odds', data[..j + 1])
    ensures fresh(made' - made) && (forall n :: n in evens' ==> n in made') && (forall n :: n in odds' ==> n in made')
  {
    first1, last1, first2, last2, evens', odds' := head1, prev1, head2, prev2, evens, odds;
    var pp := new Node(data[j]);
    made' := made + {pp};
    if j % 2 == 0 {
      first1 := DealEven(head1, prev1, evens, head2, prev2, odds, data, j, pp);
      evens', last1 := evens + [pp], pp;
    } else {
      first2 := DealOdd(head1, prev1, evens, head2, prev2, odds, data, j, pp);
      odds', last2 := odds + [pp], pp;
    }
  }

  method DealAll(data: seq<Word>)
    returns (head1: Node?, ghost prev1: Node?, ghost evens: seq<Node>,
             head2: Node?, ghost prev2: Node?, ghost odds: seq<Node>)
    ensures Dealt(head1, prev1, evens, head2, prev2, odds, data)
  {
    head1, head2, evens, odds := null, null, [], [];
    var last1: Node?, last2: Node? := null, null;
    ghost var made: set<Node> := {};
    for j := 0 to |data|
      invariant fresh(made) && (forall n :: n in evens ==> n in made) && (forall n :: n in odds ==> n in made)
      invariant Dealt(head1, last1, evens, head2, last2, odds, data[..j])
    {
      head1, last1, head2, last2, evens, odds, made := Deal(data, j, head1, last1, evens, head2, last2, odds, made);
    }
    assert data[..|data|] == data;
    prev1, prev2 := last1, last2;
  }

  method Split(data: seq<Word>) returns (head1: Node?, head2: Node?, ghost evens: seq<Node>, ghost odds: seq<Node>)
    ensures Chain(head1, evens) && Values(evens) == Half(data, 0)
    ensures Chain(head2, odds) && Values(odds) == Half(data, 1)
  {
    ghost var prev1, prev2;
    head1, prev1, evens, head2, prev2, odds := DealAll(data);
    LinkedChain(head1, prev1, evens);
    LinkedChain(head2, prev2, odds);
  }

  // ---------- external data representation ----------

  /** A list is its first value, then a unit that says whether a node follows,
      then that node: optional-data, section 4.19 of RFC 4506. */
  function Encoded(ws: seq<Word>): (bs: seq<Byte>)
    requires ws != []
    ensures |bs| == 8 * |ws|
  {
    if |ws| == 1 then BigEndian(ws[0]) + BigEndian(0) else BigEndian(ws[0]) + BigEndian(1) + Encoded(ws[1..])
  }

  /** The bytes by position: eight for each value, its own four with the most
      significant first and then 0 0 0 1, or 0 0 0 0 after the last value. */
  lemma {:induction false} UnitsOnTheWire(ws: seq<Word>, i: nat)
    requires i < |ws|
    ensures Encoded(ws)[8 * i..8 * i + 8] == BigEndian(ws[i]) + [0, 0, 0, if i + 1 < |ws| then 1 else 0]
  {
    BigEndianDigits(0);
    BigEndianDigits(1);
    if i == 0 {
    } else {
      UnitsOnTheWire(ws[1..], i - 1);
      assert Encoded(ws)[8..] == Encoded(ws[1..]);
      assert Encoded(ws)[8 * i..8 * i + 8] == Encoded(ws)[8..][8 * (i - 1)..8 * (i - 1) + 8];
    }
  }

  datatype Read = Read(ws: seq<Word>, rest: seq<Byte>)

  /** The list at the front of a stream and what follows it. Any unit but 0
      says that a node follows. */
  function Decoded(bs: seq<Byte>): (r: Option<Read>)
    ensures r.Some? ==> r.value.ws != [] && |bs| == 8 * |r.value.ws| + |r.value.rest|
  {
    if |bs| < 8 then None
    else if FromBig(bs[4..8]) == 0 then Some(Read([FromBig(bs[..4])], bs[8..]))
    else
      var r := Decoded(bs[8..]);
      if r.None? then None else Some(Read([FromBig(bs[..4])] + r.value.ws, r.value.rest))
  }

  lemma Front(w: Word, flag: Word, tail: seq<Byte>)
    ensures var bs := BigEndian(w) + BigEndian(flag) + tail;
            |bs| >= 8 && bs[..4] == BigEndian(w) && bs[4..8] == BigEndian(flag) && bs[8..] == tail
  {
  }

  lemma DecodedFront(w: Word, flag: Word, tail: seq<Byte>)
    ensures Decoded(BigEndian(w) + BigEndian(flag) + tail) ==
            if flag == 0 then Some(Read([w], tail))
            else if Decoded(tail).None? then None
            else Some(Read([w] + Decoded(tail).value.ws, Decoded(tail).value.rest))
  {
    Front(w, flag, tail);
    BigInverse(w);
    BigInverse(flag);
  }

  /** Decoding an encoded list gives the list back and leaves the rest of the
      stream as it was. */
  lemma {:induction false} DecodeEncoded(ws: seq<Word>, rest: seq<Byte>)
    requires ws != []
    ensures Decoded(Encoded(ws) + rest) == Some(Read(ws, rest))
  {
    if |ws| == 1 {
      DecodedFront(ws[0], 0, rest);
      assert ws == [ws[0]];
      assert Encoded(ws) + rest == BigEndian(ws[0]) + BigEndian(0) + rest;
    } else {
      var tail := Encoded(ws[1..]) + rest;
      DecodeEncoded(ws[1..], rest);
      DecodedFront(ws[0], 1, tail);
      assert ws == [ws[0]] + ws[1..];
      assert Encoded(ws) + rest == BigEndian(ws[0]) + BigEndian(1) + tail;
    }
  }

  /** A stream cut off anywhere inside the list is refused. */
  lemma {:induction false} CutOffRefused(ws: seq<Word>, n: nat)
    requires ws != [] && n < |Encoded(ws)|
    ensures Decoded(Encoded(ws)[..n]).None?
  {
    var bs := Encoded(ws);
    if n < 8 {
    } else {
      Front(ws[0], 1, Encoded(ws[1..]));
      CutOffRefused(ws[1..], n - 8);
      assert bs[..n][..4] == bs[..4] && bs[..n][4..8] == bs[4..8];
      assert bs[..n][8..] == Encoded(ws[1..])[..n - 8];
    }
  }

  /** Every unit read as a flag is 0 or 1. */
  predicate Canonical(bs: seq<Byte>) {
    |bs| < 8 || FromBig(bs[4..8]) == 0 || (FromBig(bs[4..8]) == 1 && Canonical(bs[8..]))
  }

  /** The converse: a stream whose flags are 0 or 1 starts with the encoding of
      the list read from it. */
  lemma {:induction false} EncodeDecoded(bs: seq<Byte>)
    requires Decoded(bs).Some? && Canonical(bs)
    ensures bs == Encoded(Decoded(bs).value.ws) + Decoded(bs).value.rest
  {
    BigOfWord(bs[..4]);
    BigOfWord(bs[4..8]);
    assert bs == bs[..4] + bs[4..8] + bs[8..];
    if FromBig(bs[4..8]) == 0 {
    } else {
      EncodeDecoded(bs[8..]);
      var r := Decoded(bs[8..]).value;
      assert ([FromBig(bs[..4])] + r.ws)[1..] == r.ws;
    }
  }

  /** A byte stream: units are put at its end and taken from its front. */
  class Stream {
    var bytes: seq<Byte>

    constructor ()
      ensures bytes == []
    {
      bytes := [];
    }

    method Put(w: Word)
      modifies this
      ensures bytes == old(bytes) + BigEndian(w)
    {
      bytes := bytes + BigEndian(w);
    }

    method Take() returns (ok: bool, w: Word)
      modifies this
      ensures ok == (|old(bytes)| >= 4)
      ensures ok ==> w == FromBig(old(bytes)[..4]) && bytes == old(bytes)[4..]
      ensures !ok ==> bytes == old(bytes)
    {
      ok, w := |bytes| >= 4, 0;
      if ok {
        w := FromBig(bytes[..4]);
        bytes := bytes[4..];
      }
    }
  }

  /** xdr_node when it encodes. */
  method PutNode(xdrs: Stream, objp: Node, ghost nodes: seq<Node>)
    requires Chain(objp, nodes)
    modifies xdrs
    ensures xdrs.bytes == old(xdrs.bytes) + Encoded(Values(nodes))
    decreases |nodes|
  {
    xdrs.Put(objp.value);
    assert nodes[0] == objp && Values(nodes)[1..] == Values(nodes[1..]);
    if objp.next == null {
      xdrs.Put(0);
    } else {
      xdrs.Put(1);
      PutNode(xdrs, objp.next, nodes[1..]);
    }
  }

  lemma ChainCons(objp: Node, tail: seq<Node>)
    requires Chain(objp.next, tail)
    ensures Chain(objp, [objp] + tail) && Values([objp] + tail) == [objp.value] + Values(tail)
  {
    assert ([objp] + tail)[1..] == tail;
  }

  /** xdr_node when it decodes: fills objp and allocates the nodes after it. */
  method GetNode(xdrs: Stream, objp: Node) returns (ok: bool, ghost nodes: seq<Node>)
    requires objp.next == null
    modifies xdrs, objp
    ensures ok == Decoded(old(xdrs.bytes)).Some?
    ensures ok ==> xdrs.bytes == Decoded(old(xdrs.bytes)).value.rest
    ensures ok ==> Chain(objp, nodes) && Values(nodes) == Decoded(old(xdrs.bytes)).value.ws
    ensures ok ==> nodes != [] && fresh(nodes[1..])
    decreases |xdrs.bytes|
  {
    ghost var bs := xdrs.bytes;
    var value, more;
    nodes := [];
    ok, value := xdrs.Take();
    if !ok { return; }
    objp.value := value;
    ok, more := xdrs.Take();
    if !ok { return; }
    assert bs[4..][..4] == bs[4..8] && xdrs.bytes == bs[8..];
    if more == 0 {
      ChainCons(objp, []);
      nodes := [objp];
    } else {
      var loc := new Node(0);
      objp.next := loc;
      ghost var tail;
      ok, tail := GetNode(xdrs, loc);
      if ok {
        ChainCons(objp, tail);
        nodes := [objp] + tail;
      }
    }
  }

  // ---------- map and reduce on the server ----------

  function Roots(ar: Arith, ws: seq<Word>): (rs: seq<Word>)
    ensures |rs| == |ws| && forall i :: 0 <= i < |ws| ==> rs[i] == ar.root(ws[i])
  {
    seq(|ws|, i requires 0 <= i < |ws| => ar.root(ws[i]))
  }

  function Total(ar: Arith, ws: seq<Word>): real {
    if ws == [] then 0.0 else Total(ar, ws[..|ws| - 1]) + ar.val(ws[|ws| - 1])
  }

  /** The values of the chain: its nodes up to n mapped, the others not. */
  ghost predicate Mapped(ar: Arith, nodes: seq<Node>, was: seq<Word>, n: nat)
    reads nodes`value
  {
    && |was| == |nodes|
    && forall i :: 0 <= i < |nodes| ==> nodes[i].value == if i < n then ar.root(was[i]) else was[i]
  }

  method MapList(ar: Arith, head: Node, ghost nodes: seq<Node>)
    requires Chain(head, nodes)
    modifies nodes`value
    ensures Chain(head, nodes)
    ensures Values(nodes) == Roots(ar, old(Values(nodes)))
  {
    ghost var was, n := Values(nodes), 0;
    var cur: Node? := head;
    ChainDistinct(head, nodes);
    while cur != null
      invariant n <= |nodes| && Chain(cur, nodes[n..])
      invariant Mapped(ar, nodes, was, n)
      decreases |nodes| - n
    {
      assert nodes[n..][1..] == nodes[n + 1..];
      cur.value := ar.root(cur.value);
      cur := cur.next;
      n := n + 1;
    }
  }

  method ReduceList(ar: Arith, head: Node, ghost nodes: seq<Node>) returns (total: real)
    requires Chain(head, nodes)
    ensures total == Total(ar, Values(nodes))
  {
    ghost var ws, n := Values(nodes), 0;
    var cur: Node? := head;
    total := 0.0;
    while cur != null
      invariant n <= |nodes| && Chain(cur, nodes[n..]) && total == Total(ar, ws[..n])
      decreases |nodes| - n
    {
      assert nodes[n..][1..] == nodes[n + 1..] && ws[..n + 1][..n] == ws[..n];
      total := ar.val(cur.value) + total;
      cur := cur.next;
      n := n + 1;
    }
    assert ws[..|ws|] == ws;
  }

  /** The service procedure: decode the argument, map, reduce. */
  method Serve(ar: Arith, xdrs: Stream) returns (ok: bool, sum: real)
    modifies xdrs
    ensures ok == Decoded(old(xdrs.bytes)).Some?
    ensures ok ==> sum == Total(ar, Roots(ar, Decoded(old(xdrs.bytes)).value.ws))
    ensures ok ==> xdrs.bytes == Decoded(old(xdrs.bytes)).value.rest
  {
    var arg := new Node(0);
    ghost var nodes;
    sum := 0.0;
    ok, nodes := GetNode(xdrs, arg);
    if ok {
      assert nodes == [arg] + nodes[1..];
      MapList(ar, arg, nodes);
      sum := ReduceList(ar, arg, nodes);
    }
  }

  // ---------- the client ----------

  /** One remote call: the list is put on the wire and the server reads it. */
  method Remote(ar: Arith, head: Node, ghost nodes: seq<Node>) returns (value: real)
    requires Chain(head, nodes)
    ensures value == Total(ar, Roots(ar, Values(nodes)))
  {
    var xdrs := new Stream();
    PutNode(xdrs, head, nodes);
    var ok;
    assert xdrs.bytes == Encoded(Values(nodes)) + [];
    DecodeEncoded(Values(nodes), []);
    ok, value := Serve(ar, xdrs);
  }

  lemma TotalSnoc(ar: Arith, ws: seq<Word>, w: Word)
    ensures Total(ar, ws + [w]) == Total(ar, ws) + ar.val(w)
  {
    assert (ws + [w])[..|ws|] == ws;
  }

  /** When every value stands for v, the total is v once for each value. */
  lemma {:induction false} EqualValuesTotal(ar: Arith, ws: seq<Word>, v: real)
    requires forall i :: 0 <= i < |ws| ==> ar.val(ws[i]) == v
    ensures Total(ar, ws) == |ws| as real * v
  {
    if ws == [] {
    } else {
      EqualValuesTotal(ar, ws[..|ws| - 1], v);
    }
  }

  lemma HalfGrows(ws: seq<Word>, w: Word, parity: nat)
    requires parity < 2
    ensures Half(ws + [w], parity) == if |ws| % 2 == parity then Half(ws, parity) + [w] else Half(ws, parity)
  {
    HalfSnoc(ws + [w], |ws|);
    assert (ws + [w])[..|ws|] == ws && (ws + [w])[..|ws| + 1] == ws + [w];
  }

  lemma HalfTotal(ar: Arith, ws: seq<Word>, w: Word, parity: nat)
    requires parity < 2
    ensures Total(ar, Half(ws + [w], parity)) ==
            Total(ar, Half(ws, parity)) + if |ws| % 2 == parity then ar.val(w) else 0.0
  {
    HalfGrows(ws, w, parity);
    TotalSnoc(ar, Half(ws, parity), w);
  }

  /** Nothing is lost or counted twice by the split. */
  lemma {:induction false} HalvesTotal(ar: Arith, ws: seq<Word>)
    ensures Total(ar, Half(ws, 0)) + Total(ar, Half(ws, 1)) == Total(ar, ws)
  {
    if ws == [] {
    } else {
      var most, last := ws[..|ws| - 1], ws[|ws| - 1];
      assert most + [last] == ws;
      HalvesTotal(ar, most);
      HalfTotal(ar, most, last, 0);
      HalfTotal(ar, most, last, 1);
      TotalSnoc(ar, most, last);
    }
  }

  /** Mapping the halves is taking the halves of the mapped input. */
  lemma MappedHalves(ar: Arith, data: seq<Word>)
    ensures Total(ar, Roots(ar, Half(data, 0))) + Total(ar, Roots(ar, Half(data, 1))) == Total(ar, Roots(ar, data))
  {
    assert Roots(ar, Half(data, 0)) == Half(Roots(ar, data), 0);
    assert Roots(ar, Half(data, 1)) == Half(Roots(ar, data), 1);
    HalvesTotal(ar, Roots(ar, data));
  }

  /** The two remote calls on the packets of the chosen servers. */
  method Compute(ar: Arith, count1: nat, count2: nat, n: nat, head1: Node, head2: Node,
                 ghost evens: seq<Node>, ghost odds: seq<Node>) returns (answer: real)
    requires count1 < n && count2 < n && Chain(head1, evens) && Chain(head2, odds)
    ensures count1 != count2 ==> answer == Total(ar, Roots(ar, Values(evens))) + Total(ar, Roots(ar, Values(odds)))
    ensures count1 == count2 ==> answer == 2.0 * Total(ar, Roots(ar, Values(odds)))
  {
    var heads: seq<Node?> := seq(n, _ => null)[count1 := head1][count2 := head2];
    ghost var first := if count1 == count2 then odds else evens;
    assert heads[count2] == head2 && heads[count1] == if count1 == count2 then head2 else head1;
    var value1 := Remote(ar, heads[count1], first);
    var value2 := Remote(ar, heads[count2], odds);
    var values: seq<real> := seq(n, _ => 0.0)[count1 := value1][count2 := value2];
    answer := values[count1] + values[count2];
  }

  /** The split of the input and the two calls. */
  method SplitAndCompute(ar: Arith, count1: nat, count2: nat, n: nat, data: seq<Word>) returns (answer: real)
    requires count1 < n && count2 < n && |data| >= 2
    ensures count1 != count2 ==> answer == Total(ar, Roots(ar, data))
    ensures count1 == count2 ==> answer == 2.0 * Total(ar, Roots(ar, Half(data, 1)))
  {
    var head1, head2;
    ghost var evens, odds;
    head1, head2, evens, odds := Split(data);
    assert |Values(evens)| > 0 && |Values(odds)| > 0;
    MappedHalves(ar, data);
    answer := Compute(ar, count1, count2, n, head1, head2, evens, odds);
  }

  /** The list computation of main, from the loads and the values of the file:
      with two different servers the answer is the total over the whole file;
      with one server twice it is twice the total of the odd positions. */
  method Distributed(ar: Arith, loads: seq<real>, data: seq<Word>) returns (answer: real)
    requires |loads| > 0 && |data| >= 2
    ensures (exists i :: 1 <= i < |loads| && loads[i] < 1.0) ==> answer == Total(ar, Roots(ar, data))
    ensures !(exists i :: 1 <= i < |loads| && loads[i] < 1.0) ==>
              answer == 2.0 * Total(ar, Roots(ar, Half(data, 1)))
  {
    var count1, count2 := PickServers(loads);
    DistinctServers(loads, count1, count2);
    answer := SplitAndCompute(ar, count1, count2, |loads|, data);
  }
}
