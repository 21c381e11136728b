/** 32-bit words and their four bytes in both orders. */
module Bytes {

  type Byte = b: int | 0 <= b < 256
  type Word = w: int | 0 <= w < 0x1_0000_0000

  function BigEndian(w: Word): (bs: seq<Byte>)
    ensures |bs| == 4
  {
    [w / 0x100_0000, w / 0x1_0000 % 0x100, w / 0x100 % 0x100, w % 0x100]
  }

  function FromBig(bs: seq<Byte>): Word
    requires |bs| == 4
  {
    (bs[0] as int) * 0x100_0000 + (bs[1] as int) * 0x1_0000 + (bs[2] as int) * 0x100 + bs[3] as int
  }

  function LittleEndian(w: Word): (bs: seq<Byte>)
    ensures |bs| == 4
  {
    [w % 0x100, w / 0x100 % 0x100, w / 0x1_0000 % 0x100, w / 0x100_0000]
  }

  function FromLittle(bs: seq<Byte>): Word
    requires |bs| == 4
  {
    bs[0] as int + (bs[1] as int) * 0x100 + (bs[2] as int) * 0x1_0000 + (bs[3] as int) * 0x100_0000
  }

  lemma Places(w: int)
    requires 0 <= w < 0x1_0000_0000
    ensures w == w / 0x100_0000 * 0x100_0000 + w / 0x1_0000 % 0x100 * 0x1_0000 + w / 0x100 % 0x100 * 0x100 + w % 0x100
  {
    var a, b := w / 0x100, w / 0x1_0000;
    assert b == a / 0x100 && w / 0x100_0000 == b / 0x100;
  }

  lemma Digits(b0: int, b1: int, b2: int, b3: int)
    requires 0 <= b0 < 256 && 0 <= b1 < 256 && 0 <= b2 < 256 && 0 <= b3 < 256
    ensures var w := b0 * 0x100_0000 + b1 * 0x1_0000 + b2 * 0x100 + b3;
            w / 0x100_0000 == b0 && w / 0x1_0000 % 0x100 == b1 && w / 0x100 % 0x100 == b2 && w % 0x100 == b3
  {
    var w := b0 * 0x100_0000 + b1 * 0x1_0000 + b2 * 0x100 + b3;
    assert w / 0x100 == b0 * 0x1_0000 + b1 * 0x100 + b2;
    assert w / 0x1_0000 == b0 * 0x100 + b1;
  }

  lemma BigInverse(w: Word)
    ensures FromBig(BigEndian(w)) == w
  {
    Places(w);
  }

  lemma BigOfWord(bs: seq<Byte>)
    requires |bs| == 4
    ensures BigEndian(FromBig(bs)) == bs
  {
    Digits(bs[0] as int, bs[1] as int, bs[2] as int, bs[3] as int);
  }

  lemma LittleInverse(w: Word)
    ensures FromLittle(LittleEndian(w)) == w
  {
    Places(w);
  }

  lemma LittleOfWord(bs: seq<Byte>)
    requires |bs| == 4
    ensures LittleEndian(FromLittle(bs)) == bs
  {
    Digits(bs[3] as int, bs[2] as int, bs[1] as int, bs[0] as int);
  }

  lemma SliceOfSlice(s: seq<Byte>, from: nat, to: nat, lo: nat, hi: nat)
    requires from <= to <= |s| && lo <= hi <= to - from
    ensures s[from..to][lo..hi] == s[from + lo..from + hi]
  {
    forall i | 0 <= i < hi - lo ensures s[from..to][lo..hi][i] == s[from + lo..from + hi][i] {
      assert s[from..to][lo + i] == s[from + (lo + i)];
    }
  }

  /** The digits to the base 256, the most significant first. */
  lemma BigEndianDigits(w: Word)
    ensures var b := BigEndian(w); ((b[0] as int * 256 + b[1]) * 256 + b[2]) * 256 + b[3] == w
  {
    Places(w);
  }

  /** And the other way round. */
  lemma LittleEndianDigits(w: Word)
    ensures var b := LittleEndian(w); ((b[3] as int * 256 + b[2]) * 256 + b[1]) * 256 + b[0] == w
  {
    Places(w);
  }

  lemma ReadDigits(b: seq<Byte>)
    requires |b| == 4
    ensures FromBig(b) == ((b[0] as int * 256 + b[1]) * 256 + b[2]) * 256 + b[3]
    ensures FromLittle(b) == ((b[3] as int * 256 + b[2]) * 256 + b[1]) * 256 + b[0]
  {
  }
}
