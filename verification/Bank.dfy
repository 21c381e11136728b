/** The bank service: the client's request bytes, the server's decoding of them,
    and the update in place of a file of 32-byte records. Amounts are float bit
    patterns; their addition is the parameter `add`. */
module Bank {
  import opened Bytes
  import opened Wrappers

  // ---------- the request on the wire ----------

  const QUERY: Word := 1000
  const UPDATE: Word := 1001

  function QueryRequest(acct: Word): seq<Byte> {
    BigEndian(QUERY) + BigEndian(acct)
  }

  function UpdateRequest(acct: Word, amount: Word): seq<Byte> {
    BigEndian(UPDATE) + BigEndian(acct) + BigEndian(amount)
  }

  /** The client fills its buffer one word at a time. */
  method PutUint32(buff: array<Byte>, at: nat, v: Word)
    requires at + 4 <= buff.Length
    modifies buff
    ensures buff[..] == old(buff[..at]) + BigEndian(v) + old(buff[at + 4..])
  {
    buff[at] := v / 0x100_0000;
    buff[at + 1] := v / 0x1_0000 % 0x100;
    buff[at + 2] := v / 0x100 % 0x100;
    buff[at + 3] := v % 0x100;
  }

  method SendUpdate(acct: Word, amount: Word) returns (buff: array<Byte>)
    ensures fresh(buff) && buff[..] == UpdateRequest(acct, amount)
  {
    buff := new Byte[12](_ => 0);
    PutUint32(buff, 0, UPDATE);
    PutUint32(buff, 4, acct);
    PutUint32(buff, 8, amount);
  }

  method SendQuery(acct: Word) returns (buff: array<Byte>)
    ensures fresh(buff) && buff[..] == QueryRequest(acct)
  {
    buff := new Byte[8](_ => 0);
    PutUint32(buff, 0, QUERY);
    PutUint32(buff, 4, acct);
  }

  // ---------- the server's decoding ----------

  /** ntohs on a little-endian host: the low sixteen bits, swapped. */
  function Ntohs(w: Word): Word {
    w % 0x100 * 0x100 + w / 0x100 % 0x100
  }

  /** Command and account: the word read in the host's order, its high half
      swapped. */
  function HighSwapped(bs: seq<Byte>): Word
    requires |bs| == 4
  {
    Ntohs(FromLittle(bs) / 0x1_0000)
  }

  /** Amount: the word's low half swapped and moved up. */
  function LowSwapped(bs: seq<Byte>): Word
    requires |bs| == 4
  {
    Ntohs(FromLittle(bs)) * 0x1_0000
  }

  lemma Halves(w: Word)
    ensures FromLittle(BigEndian(w)) / 0x1_0000 == w / 0x100 % 0x100 + w % 0x100 * 0x100
    ensures FromLittle(BigEndian(w)) % 0x100 == w / 0x100_0000
    ensures FromLittle(BigEndian(w)) / 0x100 % 0x100 == w / 0x1_0000 % 0x100
  {
    Digits(w % 0x100, w / 0x100 % 0x100, w / 0x1_0000 % 0x100, w / 0x100_0000);
  }

  lemma Swapped(lo: int, hi: int)
    requires 0 <= lo < 0x100 && 0 <= hi < 0x100
    ensures Ntohs(lo + hi * 0x100) == lo * 0x100 + hi
  {
    assert (lo + hi * 0x100) % 0x100 == lo && (lo + hi * 0x100) / 0x100 == hi;
  }

  lemma HighDecoded(w: Word)
    ensures HighSwapped(BigEndian(w)) == w % 0x1_0000
  {
    Halves(w);
    Swapped(w / 0x100 % 0x100, w % 0x100);
    assert w / 0x100 / 0x100 == w / 0x1_0000;
  }

  lemma LowDecoded(w: Word)
    ensures LowSwapped(BigEndian(w)) == w / 0x1_0000 * 0x1_0000
  {
    Halves(w);
    assert w / 0x1_0000 / 0x100 == w / 0x100_0000;
  }

  /** What the server makes of a word sent by the client: of an account number
      the low sixteen bits, of an amount the high ones. */
  lemma DecodedWord(w: Word)
    ensures HighSwapped(BigEndian(w)) == w % 0x1_0000
    ensures LowSwapped(BigEndian(w)) == w - w % 0x1_0000
    ensures HighSwapped(BigEndian(w)) == w <==> w < 0x1_0000
    ensures LowSwapped(BigEndian(w)) == w <==> w % 0x1_0000 == 0
  {
    HighDecoded(w);
    LowDecoded(w);
    assert w == w / 0x1_0000 * 0x1_0000 + w % 0x1_0000;
  }

  // ---------- the record file ----------

  const SIZE := 32
  const RECORDS := 16

  /** What is sent back for one record, before it is printed as text. */
  datatype Reply = Found(name: seq<Byte>, acct: Word, value: Word) | NotFound

  type Sum = (Word, Word) -> Word

  function Rec(file: seq<Byte>, k: nat): (r: seq<Byte>)
    requires k < RECORDS && |file| >= SIZE * RECORDS
    ensures |r| == SIZE
  {
    file[SIZE * k..SIZE * k + SIZE]
  }

  function Acct(r: seq<Byte>): Word
    requires |r| == SIZE
  {
    FromLittle(r[..4])
  }

  function Value(r: seq<Byte>): Word
    requires |r| == SIZE
  {
    FromLittle(r[24..28])
  }

  function ReplyOf(r: seq<Byte>): Reply
    requires |r| == SIZE
  {
    Found(r[4..24], Acct(r), Value(r))
  }

  /** A matching record gets the sum as its value; nothing else changes. */
  function Credited(r: seq<Byte>, acct: Word, amount: Word, add: Sum): (r': seq<Byte>)
    requires |r| == SIZE
    ensures |r'| == SIZE
  {
    if Acct(r) == acct then r[..24] + LittleEndian(add(Value(r), amount)) + r[28..] else r
  }

  /** The file after an update: every record credited, bytes past the last
      record as they were. */
  function Posted(file: seq<Byte>, acct: Word, amount: Word, add: Sum): (f: seq<Byte>)
    requires |file| >= SIZE * RECORDS
    ensures |f| == |file|
  {
    seq(|file|, p requires 0 <= p < |file| =>
      if p < SIZE * RECORDS then Credited(Rec(file, p / SIZE), acct, amount, add)[p % SIZE] else file[p])
  }

  lemma PostedRec(file: seq<Byte>, acct: Word, amount: Word, add: Sum, k: nat)
    requires |file| >= SIZE * RECORDS && k < RECORDS
    ensures Rec(Posted(file, acct, amount, add), k) == Credited(Rec(file, k), acct, amount, add)
  {
    var f := Posted(file, acct, amount, add);
    forall q | 0 <= q < SIZE ensures Rec(f, k)[q] == Credited(Rec(file, k), acct, amount, add)[q] {
      var p := SIZE * k + q;
      assert p / SIZE == k && p % SIZE == q;
      assert Rec(f, k)[q] == f[p];
    }
  }

  /** Only bytes 24 to 27 of matching records may differ. */
  lemma PostedBytes(file: seq<Byte>, acct: Word, amount: Word, add: Sum, p: nat)
    requires |file| >= SIZE * RECORDS && p < |file|
    requires p >= SIZE * RECORDS || Acct(Rec(file, p / SIZE)) != acct || !(24 <= p % SIZE < 28)
    ensures Posted(file, acct, amount, add)[p] == file[p]
  {
    if p < SIZE * RECORDS {
      assert SIZE * (p / SIZE) + p % SIZE == p;
      var r := Rec(file, p / SIZE);
      assert r[p % SIZE] == file[p];
    }
  }

  /** The records from lo on are those of the credited file, the others and the
      bytes past the last record are as they were. */
  ghost predicate Partly(file: seq<Byte>, was: seq<Byte>, target: seq<Byte>, lo: nat) {
    && |file| == |was| == |target| >= SIZE * RECORDS && file[SIZE * RECORDS..] == was[SIZE * RECORDS..]
    && forall k: nat :: k < RECORDS ==> Rec(file, k) == Rec(if k >= lo then target else was, k)
  }

  lemma SameRecords(file: seq<Byte>, other: seq<Byte>)
    requires |file| == |other| >= SIZE * RECORDS && file[SIZE * RECORDS..] == other[SIZE * RECORDS..]
    requires forall k: nat :: k < RECORDS ==> Rec(file, k) == Rec(other, k)
    ensures file == other
  {
    forall p | 0 <= p < |file| ensures file[p] == other[p] {
      if p < SIZE * RECORDS {
        assert SIZE * (p / SIZE) + p % SIZE == p;
        assert Rec(file, p / SIZE)[p % SIZE] == file[p] && Rec(other, p / SIZE)[p % SIZE] == other[p];
      } else {
        assert file[SIZE * RECORDS..][p - SIZE * RECORDS] == other[SIZE * RECORDS..][p - SIZE * RECORDS];
      }
    }
  }

  function Match(file: seq<Byte>, acct: Word, k: nat): seq<Reply>
    requires k < RECORDS && |file| >= SIZE * RECORDS
  {
    if Acct(Rec(file, k)) == acct then [ReplyOf(Rec(file, k))] else []
  }

  /** The replies to a query: the matching records below n, last first. */
  function Matches(file: seq<Byte>, acct: Word, n: nat): seq<Reply>
    requires n <= RECORDS && |file| >= SIZE * RECORDS
  {
    if n == 0 then [] else Match(file, acct, n - 1) + Matches(file, acct, n - 1)
  }

  function Replies(file: seq<Byte>, acct: Word): seq<Reply>
    requires |file| >= SIZE * RECORDS
  {
    var found := Matches(file, acct, RECORDS);
    if found == [] then [NotFound] else found
  }

  lemma CreditedFields(r: seq<Byte>, acct: Word, amount: Word, add: Sum)
    requires |r| == SIZE
    ensures var r' := Credited(r, acct, amount, add);
            && Acct(r') == Acct(r) && r'[4..24] == r[4..24] && r'[28..] == r[28..]
            && Value(r') == if Acct(r) == acct then add(Value(r), amount) else Value(r)
  {
    var r' := Credited(r, acct, amount, add);
    assert r'[..4] == r[..4];
    if Acct(r) == acct {
      LittleInverse(add(Value(r), amount));
      assert r'[24..28] == LittleEndian(add(Value(r), amount));
    }
  }

  // ---------- the server's loops ----------

  /** The new value written over the record's own. */
  method WriteValue(file: array<Byte>, at: nat, v: Word)
    requires at + 4 <= file.Length
    modifies file
    ensures file[..] == old(file[..at]) + LittleEndian(v) + old(file[at + 4..])
  {
    file[at] := v % 0x100;
    file[at + 1] := v / 0x100 % 0x100;
    file[at + 2] := v / 0x1_0000 % 0x100;
    file[at + 3] := v / 0x100_0000;
  }

  lemma RecordWritten(file: seq<Byte>, r: seq<Byte>, k: nat, file': seq<Byte>)
    requires |file| >= SIZE * RECORDS && k < RECORDS && |r| == SIZE
    requires r[..24] == Rec(file, k)[..24] && r[28..] == Rec(file, k)[28..]
    requires file' == file[..SIZE * k + 24] + r[24..28] + file[SIZE * k + 28..]
    ensures Rec(file', k) == r && file'[SIZE * RECORDS..] == file[SIZE * RECORDS..]
    ensures forall m: nat :: m < RECORDS && m != k ==> Rec(file', m) == Rec(file, m)
  {
    forall m: nat | m < RECORDS && m != k ensures Rec(file', m) == Rec(file, m) {}
    forall q | 0 <= q < SIZE ensures Rec(file', k)[q] == r[q] {
      var was := Rec(file, k);
      assert Rec(file', k)[q] == file'[SIZE * k + q];
      if q < 24 {
        assert r[..24][q] == was[..24][q] && was[q] == file[SIZE * k + q];
      } else if q >= 28 {
        assert r[28..][q - 28] == was[28..][q - 28] && was[q] == file[SIZE * k + q];
      } else {
        assert file'[SIZE * k + q] == r[24..28][q - 24];
      }
    }
  }

  lemma RecordSame(file: seq<Byte>, k: nat)
    requires |file| >= SIZE * RECORDS && k < RECORDS
    ensures file == file[..SIZE * k + 24] + Rec(file, k)[24..28] + file[SIZE * k + 28..]
  {
    SliceOfSlice(file, SIZE * k, SIZE * k + SIZE, 24, 28);
  }

  lemma CreditedParts(r: seq<Byte>, acct: Word, amount: Word, add: Sum)
    requires |r| == SIZE
    ensures var r' := Credited(r, acct, amount, add);
            r'[..24] == r[..24] && r'[28..] == r[28..] && r'[24..28] ==
            if Acct(r) == acct then LittleEndian(add(Value(r), amount)) else r[24..28]
  {
  }

  /** One record of the update loop, on values: what the write does. */
  lemma OneRecord(file: seq<Byte>, was: seq<Byte>, acct: Word, amount: Word, add: Sum, k: nat, file': seq<Byte>)
    requires k < RECORDS && |was| >= SIZE * RECORDS && Partly(file, was, Posted(was, acct, amount, add), k + 1)
    requires file' == if Acct(Rec(file, k)) == acct
                      then file[..SIZE * k + 24] + LittleEndian(add(Value(Rec(file, k)), amount)) +
                           file[SIZE * k + 28..]
                      else file
    ensures Partly(file', was, Posted(was, acct, amount, add), k)
  {
    PostedRec(was, acct, amount, add, k);
    RecordSame(file, k);
    CreditedParts(Rec(file, k), acct, amount, add);
    RecordWritten(file, Credited(Rec(file, k), acct, amount, add), k, file');
  }

  lemma MatchKept(was: seq<Byte>, acct: Word, amount: Word, add: Sum, k: nat)
    requires |was| >= SIZE * RECORDS && k < RECORDS
    ensures Acct(Rec(Posted(was, acct, amount, add), k)) == Acct(Rec(was, k))
  {
    PostedRec(was, acct, amount, add, k);
    CreditedFields(Rec(was, k), acct, amount, add);
  }

  /** The body of the update loop. */
  method UpdateRecord(file: array<Byte>, counter: nat, acct: Word, amount: Word, add: Sum, ghost was: seq<Byte>)
    returns (sent: seq<Reply>)
    requires counter < RECORDS && |was| >= SIZE * RECORDS
    requires Partly(file[..], was, Posted(was, acct, amount, add), counter + 1)
    modifies file
    ensures Partly(file[..], was, Posted(was, acct, amount, add), counter)
    ensures sent == Match(Posted(was, acct, amount, add), acct, counter)
  {
    ghost var before := file[..];
    var record := file[SIZE * counter..SIZE * counter + SIZE];
    assert record == Rec(before, counter);
    MatchKept(was, acct, amount, add, counter);
    sent := [];
    if Acct(record) == acct {
      WriteValue(file, SIZE * counter + 24, add(Value(record), amount));
      OneRecord(before, was, acct, amount, add, counter, file[..]);
      record := file[SIZE * counter..SIZE * counter + SIZE];
      assert record == Rec(file[..], counter);
      sent := [ReplyOf(record)];
    } else {
      OneRecord(before, was, acct, amount, add, counter, file[..]);
    }
  }

  /** What has been sent when the records below n are still to come. */
  ghost predicate SentDownTo(sent: seq<Reply>, file: seq<Byte>, acct: Word, n: nat) {
    && |file| >= SIZE * RECORDS && n <= RECORDS
    && sent + Matches(file, acct, n) == Matches(file, acct, RECORDS)
  }

  lemma SendNext(sent: seq<Reply>, file: seq<Byte>, acct: Word, k: nat)
    requires k < RECORDS && SentDownTo(sent, file, acct, k + 1)
    ensures SentDownTo(sent + Match(file, acct, k), file, acct, k)
  {
    var one, more := Match(file, acct, k), Matches(file, acct, k);
    assert sent + one + more == sent + (one + more);
  }

  /** The loop of an update: the file gets the new values and the replies are
      those of a query on the file as it is now. */
  method Update(file: array<Byte>, acct: Word, amount: Word, add: Sum) returns (sent: seq<Reply>)
    requires file.Length >= SIZE * RECORDS
    modifies file
    ensures file[..] == Posted(old(file[..]), acct, amount, add)
    ensures sent == Replies(file[..], acct)
  {
    ghost var was := file[..];
    ghost var target := Posted(was, acct, amount, add);
    sent := [];
    var counter: nat := RECORDS;
    while counter > 0
      invariant counter <= RECORDS
      invariant Partly(file[..], was, target, counter) && SentDownTo(sent, target, acct, counter)
    {
      counter := counter - 1;
      var reply := UpdateRecord(file, counter, acct, amount, add, was);
      SendNext(sent, target, acct, counter);
      sent := sent + reply;
    }
    SameRecords(file[..], target);
    assert sent + Matches(target, acct, 0) == sent;
    if sent == [] { sent := [NotFound]; }
  }

  method Query(file: array<Byte>, acct: Word) returns (sent: seq<Reply>)
    requires file.Length >= SIZE * RECORDS
    ensures sent == Replies(file[..], acct)
  {
    sent := [];
    var counter: nat := RECORDS;
    while counter > 0
      invariant counter <= RECORDS
      invariant SentDownTo(sent, file[..], acct, counter)
    {
      counter := counter - 1;
      var record := file[SIZE * counter..SIZE * counter + SIZE];
      assert record == Rec(file[..], counter);
      SendNext(sent, file[..], acct, counter);
      if Acct(record) == acct {
        sent := sent + [ReplyOf(record)];
      } else {
        assert sent + [] == sent;
      }
    }
    assert sent + Matches(file[..], acct, 0) == sent;
    if sent == [] { sent := [NotFound]; }
  }

  // ---------- what later queries see ----------

  function CreditedReply(reply: Reply, acct: Word, amount: Word, add: Sum): Reply {
    if reply.Found? && reply.acct == acct then reply.(value := add(reply.value, amount)) else reply
  }

  /** The replies with the amount added to those of the credited account. */
  function CreditedReplies(replies: seq<Reply>, acct: Word, amount: Word, add: Sum): (c: seq<Reply>)
    ensures |c| == |replies|
    ensures forall i :: 0 <= i < |c| ==> c[i] == CreditedReply(replies[i], acct, amount, add)
  {
    seq(|replies|, i requires 0 <= i < |replies| => CreditedReply(replies[i], acct, amount, add))
  }

  lemma PostedMatch(file: seq<Byte>, acct: Word, amount: Word, add: Sum, other: Word, k: nat)
    requires |file| >= SIZE * RECORDS && k < RECORDS
    ensures Match(Posted(file, acct, amount, add), other, k) ==
            CreditedReplies(Match(file, other, k), acct, amount, add)
  {
    PostedRec(file, acct, amount, add, k);
    CreditedFields(Rec(file, k), acct, amount, add);
  }

  lemma CreditedConcat(xs: seq<Reply>, ys: seq<Reply>, acct: Word, amount: Word, add: Sum)
    ensures CreditedReplies(xs + ys, acct, amount, add) ==
            CreditedReplies(xs, acct, amount, add) + CreditedReplies(ys, acct, amount, add)
  {
  }

  /** The matching records below n stand in both files, the later ones with the
      amount added. */
  ghost predicate Followed(file: seq<Byte>, after: seq<Byte>, acct: Word, amount: Word, add: Sum, other: Word, n: nat) {
    && |file| >= SIZE * RECORDS && |after| >= SIZE * RECORDS && n <= RECORDS
    && Matches(after, other, n) == CreditedReplies(Matches(file, other, n), acct, amount, add)
  }

  ghost predicate MatchFollowed(file: seq<Byte>, after: seq<Byte>, acct: Word, amount: Word, add: Sum,
                                other: Word, k: nat)
  {
    && |file| >= SIZE * RECORDS && |after| >= SIZE * RECORDS && k < RECORDS
    && Match(after, other, k) == CreditedReplies(Match(file, other, k), acct, amount, add)
  }

  lemma FollowedNext(file: seq<Byte>, after: seq<Byte>, acct: Word, amount: Word, add: Sum, other: Word, k: nat)
    requires Followed(file, after, acct, amount, add, other, k)
    requires MatchFollowed(file, after, acct, amount, add, other, k)
    ensures Followed(file, after, acct, amount, add, other, k + 1)
  {
    CreditedConcat(Match(file, other, k), Matches(file, other, k), acct, amount, add);
  }

  ghost predicate EachFollowed(file: seq<Byte>, after: seq<Byte>, acct: Word, amount: Word, add: Sum, other: Word) {
    && |file| >= SIZE * RECORDS && |after| >= SIZE * RECORDS
    && forall k: nat :: k < RECORDS ==> MatchFollowed(file, after, acct, amount, add, other, k)
  }

  lemma OneFollowed(file: seq<Byte>, after: seq<Byte>, acct: Word, amount: Word, add: Sum, other: Word, k: nat)
    requires k < RECORDS && EachFollowed(file, after, acct, amount, add, other)
    requires Followed(file, after, acct, amount, add, other, k)
    ensures Followed(file, after, acct, amount, add, other, k + 1)
  {
    assert MatchFollowed(file, after, acct, amount, add, other, k);
    FollowedNext(file, after, acct, amount, add, other, k);
  }

  lemma AllFollowed(file: seq<Byte>, after: seq<Byte>, acct: Word, amount: Word, add: Sum, other: Word, n: nat)
    requires n <= RECORDS && EachFollowed(file, after, acct, amount, add, other)
    ensures Followed(file, after, acct, amount, add, other, n)
  {
    for k := 0 to n
      invariant Followed(file, after, acct, amount, add, other, k)
    {
      OneFollowed(file, after, acct, amount, add, other, k);
    }
  }

  lemma PostedFollowed(file: seq<Byte>, acct: Word, amount: Word, add: Sum, other: Word)
    requires |file| >= SIZE * RECORDS
    ensures EachFollowed(file, Posted(file, acct, amount, add), acct, amount, add, other)
  {
    forall k: nat | k < RECORDS
      ensures MatchFollowed(file, Posted(file, acct, amount, add), acct, amount, add, other, k)
    {
      PostedMatch(file, acct, amount, add, other, k);
    }
  }

  lemma NotFoundKept(acct: Word, amount: Word, add: Sum)
    ensures CreditedReplies([NotFound], acct, amount, add) == [NotFound]
  {
  }

  lemma {:induction false} MatchesAcct(file: seq<Byte>, acct: Word, n: nat)
    requires |file| >= SIZE * RECORDS && n <= RECORDS
    ensures forall i :: 0 <= i < |Matches(file, acct, n)| ==>
              Matches(file, acct, n)[i].Found? && Matches(file, acct, n)[i].acct == acct
  {
    if n == 0 {
    } else {
      MatchesAcct(file, acct, n - 1);
    }
  }

  /** A later query sees each reply it would have seen before the update, in the
      same order, with the amount added exactly when it asks for the account
      that was updated. */
  lemma QueryAfterUpdate(file: seq<Byte>, acct: Word, amount: Word, add: Sum, other: Word)
    requires |file| >= SIZE * RECORDS
    ensures Replies(Posted(file, acct, amount, add), other) == CreditedReplies(Replies(file, other), acct, amount, add)
    ensures other != acct ==> Replies(Posted(file, acct, amount, add), other) == Replies(file, other)
  {
    PostedFollowed(file, acct, amount, add, other);
    AllFollowed(file, Posted(file, acct, amount, add), acct, amount, add, other, RECORDS);
    MatchesAcct(file, other, RECORDS);
    NotFoundKept(acct, amount, add);
    if other != acct {
      var was := Replies(file, other);
      assert CreditedReplies(was, acct, amount, add) == was;
    }
  }

  // ---------- the file as records ----------

  /** struct record: account number, twenty bytes of name, the bits of the value,
      four bytes of age. */
  datatype Entry = Entry(acct: Word, name: seq<Byte>, value: Word, age: seq<Byte>)
  {
    predicate Valid() {
      |name| == 20 && |age| == 4
    }
  }

  function BytesOf(e: Entry): (r: seq<Byte>)
    requires e.Valid()
    ensures |r| == 32
  {
    LittleEndian(e.acct) + e.name + LittleEndian(e.value) + e.age
  }

  predicate AllValid(es: seq<Entry>) {
    forall i :: 0 <= i < |es| ==> es[i].Valid()
  }

  /** The records one after the other, then whatever else the file holds. */
  function FileOf(es: seq<Entry>, rest: seq<Byte>): (f: seq<Byte>)
    requires AllValid(es)
    ensures |f| == 32 * |es| + |rest|
  {
    if es == [] then rest else BytesOf(es[0]) + FileOf(es[1..], rest)
  }

  lemma {:induction false} RecordOfFile(es: seq<Entry>, rest: seq<Byte>, k: nat)
    requires AllValid(es) && k < |es|
    ensures FileOf(es, rest)[32 * k..32 * k + 32] == BytesOf(es[k])
  {
    if k == 0 {
    } else {
      RecordOfFile(es[1..], rest, k - 1);
      var f, tail := FileOf(es, rest), FileOf(es[1..], rest);
      assert f[32 * k..32 * k + 32] == tail[32 * (k - 1)..32 * (k - 1) + 32];
    }
  }

  lemma {:induction false} RestOfFile(es: seq<Entry>, rest: seq<Byte>)
    requires AllValid(es)
    ensures FileOf(es, rest)[32 * |es|..] == rest
  {
    if es == [] {
    } else {
      RestOfFile(es[1..], rest);
      assert FileOf(es, rest)[32 * |es|..] == FileOf(es[1..], rest)[32 * (|es| - 1)..];
    }
  }

  lemma EntryFields(e: Entry)
    requires e.Valid()
    ensures Acct(BytesOf(e)) == e.acct && Value(BytesOf(e)) == e.value
    ensures ReplyOf(BytesOf(e)) == Found(e.name, e.acct, e.value)
  {
    var r := BytesOf(e);
    assert r[..4] == LittleEndian(e.acct) && r[4..24] == e.name && r[24..28] == LittleEndian(e.value);
    LittleInverse(e.acct);
    LittleInverse(e.value);
  }

  /** The answers to a query, the last record first. */
  function Answers(es: seq<Entry>, acct: Word): seq<Reply> {
    if es == [] then [] else
      var e := es[|es| - 1];
      (if e.acct == acct then [Found(e.name, e.acct, e.value)] else []) + Answers(es[..|es| - 1], acct)
  }

  lemma {:induction false} MatchesAnswer(es: seq<Entry>, rest: seq<Byte>, acct: Word, n: nat)
    requires AllValid(es) && |es| == 16 && n <= 16
    ensures Matches(FileOf(es, rest), acct, n) == Answers(es[..n], acct)
  {
    if n == 0 {
    } else {
      MatchesAnswer(es, rest, acct, n - 1);
      RecordOfFile(es, rest, n - 1);
      EntryFields(es[n - 1]);
      assert es[..n][..n - 1] == es[..n - 1];
    }
  }

  /** A query on sixteen records: those with the account, last first, or one
      reply that there is none. */
  lemma QueryOnRecords(es: seq<Entry>, rest: seq<Byte>, acct: Word)
    requires AllValid(es) && |es| == 16
    ensures Replies(FileOf(es, rest), acct) ==
            if Answers(es, acct) == [] then [NotFound] else Answers(es, acct)
  {
    MatchesAnswer(es, rest, acct, 16);
    assert es[..16] == es;
  }

  function Paid(es: seq<Entry>, acct: Word, amount: Word, add: Sum): (ps: seq<Entry>)
    requires AllValid(es)
    ensures AllValid(ps) && |ps| == |es|
    ensures forall i :: 0 <= i < |es| ==>
              ps[i] == if es[i].acct == acct then es[i].(value := add(es[i].value, amount)) else es[i]
  {
    seq(|es|, i requires 0 <= i < |es| =>
      if es[i].acct == acct then es[i].(value := add(es[i].value, amount)) else es[i])
  }

  lemma CreditedEntry(e: Entry, acct: Word, amount: Word, add: Sum)
    requires e.Valid()
    ensures Credited(BytesOf(e), acct, amount, add) ==
            BytesOf(if e.acct == acct then e.(value := add(e.value, amount)) else e)
  {
    EntryFields(e);
    var r := BytesOf(e);
    assert r[..24] == LittleEndian(e.acct) + e.name && r[28..] == e.age;
  }

  /** An update on sixteen records adds to the value of those with the account
      and changes nothing else in the file. */
  lemma UpdateOnRecords(es: seq<Entry>, rest: seq<Byte>, acct: Word, amount: Word, add: Sum)
    requires AllValid(es) && |es| == 16
    ensures Posted(FileOf(es, rest), acct, amount, add) == FileOf(Paid(es, acct, amount, add), rest)
  {
    var f, g, ps := FileOf(es, rest), Posted(FileOf(es, rest), acct, amount, add), Paid(es, acct, amount, add);
    forall k: nat | k < RECORDS ensures Rec(g, k) == Rec(FileOf(ps, rest), k) {
      PostedRec(f, acct, amount, add, k);
      RecordOfFile(es, rest, k);
      RecordOfFile(ps, rest, k);
      CreditedEntry(es[k], acct, amount, add);
    }
    RestOfFile(es, rest);
    RestOfFile(ps, rest);
    SameRecords(g, FileOf(ps, rest));
  }

  function EntryOf(r: seq<Byte>): (e: Entry)
    requires |r| == 32
    ensures e.Valid()
  {
    Entry(FromLittle(r[..4]), r[4..24], FromLittle(r[24..28]), r[28..])
  }

  lemma BytesOfEntry(r: seq<Byte>)
    requires |r| == 32
    ensures BytesOf(EntryOf(r)) == r
  {
    LittleOfWord(r[..4]);
    LittleOfWord(r[24..28]);
    assert r == r[..4] + r[4..24] + r[24..28] + r[28..];
  }

  /** Every file of at least sixteen records is of that form. */
  lemma {:induction false} EveryFile(file: seq<Byte>, n: nat) returns (es: seq<Entry>)
    requires |file| >= 32 * n
    ensures |es| == n && AllValid(es) && FileOf(es, file[32 * n..]) == file
  {
    if n == 0 {
      es := [];
    } else {
      var tail := EveryFile(file[32..], n - 1);
      es := [EntryOf(file[..32])] + tail;
      BytesOfEntry(file[..32]);
      assert es[1..] == tail && file[32..][32 * (n - 1)..] == file[32 * n..];
      assert file == file[..32] + file[32..];
    }
  }

  lemma {:induction false} Answered(es: seq<Entry>, acct: Word, i: nat)
    requires i < |es| && es[i].acct == acct
    ensures Found(es[i].name, acct, es[i].value) in Answers(es, acct)
  {
    if i == |es| - 1 {
    } else {
      Answered(es[..|es| - 1], acct, i);
    }
  }

  lemma {:induction false} Unanswered(es: seq<Entry>, acct: Word)
    requires forall i :: 0 <= i < |es| ==> es[i].acct != acct
    ensures Answers(es, acct) == []
  {
    if es == [] {
    } else {
      Unanswered(es[..|es| - 1], acct);
    }
  }

  /** On the bytes alone: a record that starts with the account is answered with
      its name and value, and an update adds to its value only. */
  lemma RecordServed(file: seq<Byte>, i: nat, acct: Word, name: seq<Byte>, value: Word, age: seq<Byte>,
                     amount: Word, add: Sum)
    requires |file| >= 512 && i < 16 && |name| == 20 && |age| == 4
    requires file[32 * i..32 * i + 32] == LittleEndian(acct) + name + LittleEndian(value) + age
    ensures Found(name, acct, value) in Replies(file, acct)
    ensures Posted(file, acct, amount, add)[32 * i..32 * i + 32] ==
            LittleEndian(acct) + name + LittleEndian(add(value, amount)) + age
  {
    var e := Entry(acct, name, value, age);
    var es := EveryFile(file, 16);
    RecordOfFile(es, file[512..], i);
    EntryFields(e);
    EntryFields(es[i]);
    assert Rec(file, i) == BytesOf(e) == BytesOf(es[i]);
    QueryOnRecords(es, file[512..], acct);
    Answered(es, acct, i);
    PostedRec(file, acct, amount, add, i);
    CreditedEntry(e, acct, amount, add);
    assert Rec(Posted(file, acct, amount, add), i) == BytesOf(e.(value := add(value, amount)));
  }

  lemma StartsWith(r: seq<Byte>, acct: Word)
    requires |r| == 32
    ensures Acct(r) == acct <==> r[..4] == LittleEndian(acct)
  {
    LittleInverse(acct);
    LittleOfWord(r[..4]);
  }

  /** A record that does not start with it is not changed, and if none does the
      answer is that there is none. */
  lemma RecordLeft(file: seq<Byte>, acct: Word, amount: Word, add: Sum)
    requires |file| >= 512
    ensures forall i :: 0 <= i < 16 && file[32 * i..32 * i + 4] != LittleEndian(acct) ==>
              Posted(file, acct, amount, add)[32 * i..32 * i + 32] == file[32 * i..32 * i + 32]
    ensures Replies(file, acct) == [NotFound] <==>
            forall i :: 0 <= i < 16 ==> file[32 * i..32 * i + 4] != LittleEndian(acct)
  {
    var es := EveryFile(file, 16);
    forall i | 0 <= i < 16
      ensures file[32 * i..32 * i + 4] != LittleEndian(acct) ==>
                Posted(file, acct, amount, add)[32 * i..32 * i + 32] == file[32 * i..32 * i + 32]
      ensures es[i].acct == acct <==> file[32 * i..32 * i + 4] == LittleEndian(acct)
    {
      RecordOfFile(es, file[512..], i);
      EntryFields(es[i]);
      StartsWith(Rec(file, i), acct);
      assert Rec(file, i)[..4] == file[32 * i..32 * i + 4];
      PostedRec(file, acct, amount, add, i);
    }
    QueryOnRecords(es, file[512..], acct);
    if i: nat :| i < 16 && es[i].acct == acct {
      Answered(es, acct, i);
    } else {
      Unanswered(es, acct);
    }
  }

  // ---------- the commands on the wire ----------

  /** 1000 and 1001 as bytes, as they are sent and as they are recognised. */
  lemma CommandBytes(acct: Word, amount: Word)
    ensures QueryRequest(acct) == [0, 0, 3, 232] + BigEndian(acct) && HighSwapped([0, 0, 3, 232]) == QUERY
    ensures UpdateRequest(acct, amount) == [0, 0, 3, 233] + BigEndian(acct) + BigEndian(amount)
    ensures HighSwapped([0, 0, 3, 233]) == UPDATE
  {
    var q: seq<Byte>, u: seq<Byte> := [0, 0, 3, 232], [0, 0, 3, 233];
    assert BigEndian(1000) == q && BigEndian(1001) == u;
    HighDecoded(1000);
    HighDecoded(1001);
  }

  // ---------- from the client's command to the file ----------

  /** One request as the child serves it. */
  method Serve(file: array<Byte>, buf: seq<Byte>, add: Sum) returns (sent: seq<Reply>)
    requires file.Length >= SIZE * RECORDS && |buf| >= 12
    modifies file
    ensures HighSwapped(buf[..4]) == UPDATE ==>
              && file[..] == Posted(old(file[..]), HighSwapped(buf[4..8]), LowSwapped(buf[8..12]), add)
              && sent == Replies(file[..], HighSwapped(buf[4..8]))
    ensures HighSwapped(buf[..4]) != UPDATE ==> file[..] == old(file[..])
    ensures HighSwapped(buf[..4]) == QUERY ==> sent == Replies(file[..], HighSwapped(buf[4..8]))
    ensures HighSwapped(buf[..4]) != UPDATE && HighSwapped(buf[..4]) != QUERY ==> sent == []
  {
    var recv1 := HighSwapped(buf[..4]);
    sent := [];
    if recv1 == UPDATE {
      sent := Update(file, HighSwapped(buf[4..8]), LowSwapped(buf[8..12]), add);
    }
    if recv1 == QUERY {
      sent := Query(file, HighSwapped(buf[4..8]));
    }
  }

  /** The request is at the front of the server's buffer, other bytes after it. */
  lemma UpdateReceived(acct: Word, amount: Word, stale: seq<Byte>)
    ensures var buf := UpdateRequest(acct, amount) + stale;
            && |buf| >= 12 && HighSwapped(buf[..4]) == UPDATE
            && HighSwapped(buf[4..8]) == acct % 0x1_0000 && LowSwapped(buf[8..12]) == amount - amount % 0x1_0000
  {
    var buf := UpdateRequest(acct, amount) + stale;
    assert buf[..4] == BigEndian(UPDATE) && buf[4..8] == BigEndian(acct) && buf[8..12] == BigEndian(amount);
    DecodedWord(UPDATE);
    DecodedWord(acct);
    DecodedWord(amount);
  }

  lemma QueryReceived(acct: Word, stale: seq<Byte>)
    ensures var buf := QueryRequest(acct) + stale;
            |buf| >= 8 && HighSwapped(buf[..4]) == QUERY && HighSwapped(buf[4..8]) == acct % 0x1_0000
  {
    var buf := QueryRequest(acct) + stale;
    assert buf[..4] == BigEndian(QUERY) && buf[4..8] == BigEndian(acct);
    DecodedWord(QUERY);
    DecodedWord(acct);
  }

  /** A client's update from command to file. The low half of the account
      number and the high half of the amount are what arrives. */
  method ClientUpdate(file: array<Byte>, acct: Word, amount: Word, add: Sum, stale: seq<Byte>)
    returns (sent: seq<Reply>)
    requires file.Length >= SIZE * RECORDS
    modifies file
    ensures file[..] == Posted(old(file[..]), acct % 0x1_0000, amount - amount % 0x1_0000, add)
    ensures sent == Replies(file[..], acct % 0x1_0000)
  {
    var out := SendUpdate(acct, amount);
    UpdateReceived(acct, amount, stale);
    sent := Serve(file, out[..] + stale, add);
  }

  /** A client's query from command to reply. */
  method ClientQuery(file: array<Byte>, acct: Word, add: Sum, stale: seq<Byte>) returns (sent: seq<Reply>)
    requires file.Length >= SIZE * RECORDS && |stale| >= 4
    modifies file
    ensures file[..] == old(file[..]) && sent == Replies(file[..], acct % 0x1_0000)
  {
    var out := SendQuery(acct);
    QueryReceived(acct, stale);
    sent := Serve(file, out[..] + stale, add);
  }
}
