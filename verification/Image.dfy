/** Portable pixmap files: the writer, the reader with its line-by-line header
    scan, and the four-channel forms that strip and pad every fourth byte. */
module Image {
  import opened Bytes
  import opened Wrappers

  const NEWLINE: Byte := 10
  const HASH: Byte := 35

  // ---------- decimal numbers ----------

  predicate Digit(b: Byte) {
    48 <= b <= 57
  }

  predicate Space(b: Byte) {
    b == 32 || 9 <= b <= 13
  }

  function Decimal(n: nat): (s: seq<Byte>)
    ensures s != [] && forall i :: 0 <= i < |s| ==> Digit(s[i])
  {
    if n < 10 then [48 + n] else Decimal(n / 10) + [48 + n % 10]
  }

  /** The digits at the front of s, read onto a number already begun. */
  function DigitsFrom(s: seq<Byte>, acc: nat): (nat, seq<Byte>) {
    if s != [] && Digit(s[0]) then DigitsFrom(s[1..], acc * 10 + (s[0] as int - 48)) else (acc, s)
  }

  lemma {:induction false} DecimalRead(n: nat, t: seq<Byte>)
    ensures DigitsFrom(Decimal(n) + t, 0) == DigitsFrom(t, n)
  {
    if n < 10 {
      assert (Decimal(n) + t)[1..] == t;
    } else {
      var d: Byte := 48 + n % 10;
      DecimalRead(n / 10, [d] + t);
      assert Decimal(n) + t == Decimal(n / 10) + ([d] + t);
      assert ([d] + t)[1..] == t;
    }
  }

  function SkipSpace(s: seq<Byte>): (t: seq<Byte>)
    ensures |t| <= |s|
    ensures t != [] ==> !Space(t[0])
  {
    if s != [] && Space(s[0]) then SkipSpace(s[1..]) else s
  }

  /** One %u conversion. */
  datatype Scan = Number(v: Word, rest: seq<Byte>) | Mismatch | AtEnd

  function Wrapped(n: int): Word {
    n % 0x1_0000_0000
  }

  function ScanNumber(s: seq<Byte>): Scan {
    var t := SkipSpace(s);
    if t == [] then AtEnd
    else
      var minus := t[0] == 45;
      var u := if minus || t[0] == 43 then t[1..] else t;
      if u == [] || !Digit(u[0]) then Mismatch
      else
        var (n, rest) := DigitsFrom(u, 0);
        var v: int := if minus then -(n as int) else n;
        Number(Wrapped(v), rest)
  }

  lemma ScanDigits(s: seq<Byte>)
    requires s != [] && Digit(s[0])
    ensures ScanNumber(s) == Number(Wrapped(DigitsFrom(s, 0).0), DigitsFrom(s, 0).1)
  {
  }

  lemma ScanDecimal(n: Word, t: seq<Byte>)
    requires t != [] ==> !Digit(t[0])
    ensures ScanNumber(Decimal(n) + t) == Number(n, t)
  {
    var s := Decimal(n) + t;
    assert s[0] == Decimal(n)[0];
    ScanDigits(s);
    DecimalRead(n, t);
  }

  lemma ScanSpaced(s: seq<Byte>)
    ensures ScanNumber([32] + s) == ScanNumber(s)
  {
    assert ([32] + s)[1..] == s;
  }

  /** sscanf with n conversions: the numbers it stores. */
  function Numbers(s: seq<Byte>, n: nat): (ws: seq<Word>)
    ensures |ws| <= n
    decreases n
  {
    if n == 0 then [] else
      match ScanNumber(s)
      case Number(v, rest) => [v] + Numbers(rest, n - 1)
      case _ => []
  }

  /** What it returns: -1 when the text ends before the first number. */
  function Converted(s: seq<Byte>, n: nat): int {
    if ScanNumber(s).AtEnd? then -1 else |Numbers(s, n)|
  }

  // ---------- fgets ----------

  const HEADERSIZE := 0x40

  function LineLength(file: seq<Byte>, room: nat): (k: nat)
    ensures k <= |file| && k <= room && (file != [] && room > 0 ==> k > 0)
  {
    if file == [] || room == 0 then 0
    else if file[0] == NEWLINE then 1
    else 1 + LineLength(file[1..], room - 1)
  }

  /** fgets into a buffer of HEADERSIZE bytes. */
  function Line(file: seq<Byte>): (line: seq<Byte>)
    ensures |line| <= |file| && (file != [] ==> line != [])
  {
    file[..LineLength(file, HEADERSIZE - 1)]
  }

  function AfterLine(file: seq<Byte>): (rest: seq<Byte>)
    ensures file != [] ==> |rest| < |file|
  {
    file[LineLength(file, HEADERSIZE - 1)..]
  }

  /** The C string in the buffer ends at the first zero byte. */
  function Text(line: seq<Byte>): seq<Byte> {
    if line == [] || line[0] == 0 then [] else [line[0]] + Text(line[1..])
  }

  lemma {:induction false} WholeLine(text: seq<Byte>, rest: seq<Byte>, room: nat)
    requires NEWLINE !in text && |text| < room
    ensures LineLength(text + [NEWLINE] + rest, room) == |text| + 1
  {
    var file := text + [NEWLINE] + rest;
    if text == [] {
    } else {
      assert file[1..] == text[1..] + [NEWLINE] + rest;
      WholeLine(text[1..], rest, room - 1);
    }
  }

  lemma LineOf(text: seq<Byte>, rest: seq<Byte>)
    requires NEWLINE !in text && |text| < HEADERSIZE - 1
    ensures Line(text + [NEWLINE] + rest) == text + [NEWLINE]
    ensures AfterLine(text + [NEWLINE] + rest) == rest
  {
    WholeLine(text, rest, HEADERSIZE - 1);
    assert (text + [NEWLINE] + rest)[..|text| + 1] == text + [NEWLINE];
  }

  lemma {:induction false} FullLine(text: seq<Byte>, rest: seq<Byte>, room: nat)
    requires NEWLINE !in text && |text| == room
    ensures LineLength(text + rest, room) == room
  {
    if text == [] {
    } else {
      assert (text + rest)[1..] == text[1..] + rest;
      FullLine(text[1..], rest, room - 1);
    }
  }

  // ---------- the header scan ----------

  /** The reader's counter and the three numbers. */
  datatype Head = Head(i: Word, width: Word, height: Word, maxval: Word)

  const START := Head(0, 0, 0, 0)

  /** The numbers of one line stored, and what sscanf returned added to i. */
  function HeadWith(h: Head, ws: seq<Word>, returned: int): Head {
    var i := Wrapped(h.i as int + returned);
    if h.i == 0 then
      Head(i, if |ws| > 0 then ws[0] else h.width, if |ws| > 1 then ws[1] else h.height,
           if |ws| > 2 then ws[2] else h.maxval)
    else if h.i == 1 then
      Head(i, h.width, if |ws| > 0 then ws[0] else h.height, if |ws| > 1 then ws[1] else h.maxval)
    else
      Head(i, h.width, h.height, if |ws| > 0 then ws[0] else h.maxval)
  }

  /** One line that is not a comment. */
  function HeadLine(h: Head, s: seq<Byte>): Head
    requires h.i < 3
  {
    HeadWith(h, Numbers(s, 3 - h.i as int), Converted(s, 3 - h.i as int))
  }

  datatype Scanned = Scanned(head: Head, rest: seq<Byte>)

  function ReadHead(file: seq<Byte>, h: Head): Option<Scanned>
    decreases |file|
  {
    if h.i >= 3 then Some(Scanned(h, file))
    else if file == [] then None
    else if Line(file)[0] == HASH then ReadHead(AfterLine(file), h)
    else ReadHead(AfterLine(file), HeadLine(h, Text(Line(file))))
  }

  /** A file as far as the reader takes it: the pixels actually there, which
      may be fewer than the header promises. */
  datatype Picture = Picture(width: Word, height: Word, channels: nat, pixels: seq<Byte>)

  /** width * height * channels in unsigned arithmetic. */
  function Size(w: Word, h: Word, channels: nat): Word {
    (w as int) * (h as int) * channels % 0x1_0000_0000
  }

  function Channels(line: seq<Byte>): nat {
    if |line| >= 2 && line[0] == 80 && line[1] == 53 then 1
    else if |line| >= 2 && line[0] == 80 && line[1] == 54 then 3
    else 0
  }

  function Loaded(file: seq<Byte>): Option<Picture> {
    var channels := Channels(Line(file));
    if file == [] || channels == 0 then None
    else
      var s := ReadHead(AfterLine(file), START);
      if s.None? then None
      else
        var head, rest := s.value.head, s.value.rest;
        var n := Size(head.width, head.height, channels);
        Some(Picture(head.width, head.height, channels, if n <= |rest| then rest[..n] else rest))
  }

  // ---------- which header lines have no effect ----------

  lemma MismatchKeeps(h: Head, s: seq<Byte>)
    requires h.i < 3
    ensures ScanNumber(s).Mismatch? <==> HeadLine(h, s) == h
  {
    if ScanNumber(s).Number? {
      assert |Numbers(s, 3 - h.i as int)| >= 1;
    }
  }

  /** A line with no number at all takes the counter one back; before the first
      number it wraps. */
  lemma BlankStepsBack(h: Head, s: seq<Byte>)
    requires h.i < 3 && ScanNumber(s).AtEnd?
    ensures HeadLine(h, s) == h.(i := if h.i == 0 then 0xFFFF_FFFF else h.i - 1)
  {
  }

  /** One buffer full that the reader drops. */
  predicate Dropped(line: seq<Byte>)
    requires line != []
  {
    line[0] == HASH || ScanNumber(Text(line)).Mismatch?
  }

  /** The line comes in pieces that fit the buffer, and each is dropped. */
  predicate AllDropped(text: seq<Byte>)
    decreases |text|
  {
    if |text| < HEADERSIZE - 1 then Dropped(text + [NEWLINE])
    else Dropped(text[..HEADERSIZE - 1]) && AllDropped(text[HEADERSIZE - 1..])
  }

  /** The first piece of a line longer than the buffer is read as a line. */
  lemma PieceRead(text: seq<Byte>, rest: seq<Byte>)
    requires NEWLINE !in text && |text| >= HEADERSIZE - 1
    ensures var file := text + [NEWLINE] + rest;
            && Line(file) == text[..HEADERSIZE - 1]
            && AfterLine(file) == text[HEADERSIZE - 1..] + [NEWLINE] + rest
  {
    var kept, tail := text[..HEADERSIZE - 1], text[HEADERSIZE - 1..] + [NEWLINE] + rest;
    assert text + [NEWLINE] + rest == kept + tail;
    FullLine(kept, tail, HEADERSIZE - 1);
    assert (kept + tail)[HEADERSIZE - 1..] == tail;
  }

  lemma DroppedRead(file: seq<Byte>, h: Head)
    requires file != [] && h.i < 3 && Dropped(Line(file))
    ensures ReadHead(file, h) == ReadHead(AfterLine(file), h)
  {
    if Line(file)[0] != HASH { MismatchKeeps(h, Text(Line(file))); }
  }

  lemma {:induction false} DroppedSkipped(text: seq<Byte>, rest: seq<Byte>, h: Head)
    requires NEWLINE !in text && AllDropped(text) && h.i < 3
    ensures ReadHead(text + [NEWLINE] + rest, h) == ReadHead(rest, h)
    decreases |text|
  {
    if |text| < HEADERSIZE - 1 {
      LineOf(text, rest);
      DroppedRead(text + [NEWLINE] + rest, h);
    } else {
      PieceRead(text, rest);
      DroppedRead(text + [NEWLINE] + rest, h);
      DroppedSkipped(text[HEADERSIZE - 1..], rest, h);
    }
  }

  /** A counter at which a line that is not dropped makes the reader stop. */
  function StopsAt(line: seq<Byte>): Head {
    if ScanNumber(Text(line)).AtEnd? then START else Head(2, 0, 0, 0)
  }

  lemma NotDroppedStops(file: seq<Byte>)
    requires file != [] && !Dropped(Line(file))
    ensures ReadHead(file, StopsAt(Line(file))).Some?
  {
    var h, s := StopsAt(Line(file)), Text(Line(file));
    if ScanNumber(s).AtEnd? {
      BlankStepsBack(h, s);
    } else {
      assert |Numbers(s, 1)| == 1;
      assert HeadLine(h, s).i == 3;
    }
  }

  /** Before the end of the file, a line that is not dropped is not skipped. */
  lemma {:induction false} NotAllDropped(text: seq<Byte>) returns (h: Head)
    requires NEWLINE !in text && !AllDropped(text)
    ensures h.i < 3 && ReadHead(text + [NEWLINE] + [], h).Some?
    decreases |text|
  {
    if |text| < HEADERSIZE - 1 {
      LineOf(text, []);
      h := StopsAt(text + [NEWLINE]);
      NotDroppedStops(text + [NEWLINE] + []);
    } else {
      PieceRead(text, []);
      if Dropped(text[..HEADERSIZE - 1]) {
        h := NotAllDropped(text[HEADERSIZE - 1..]);
        DroppedRead(text + [NEWLINE] + [], h);
      } else {
        h := StopsAt(text[..HEADERSIZE - 1]);
        NotDroppedStops(text + [NEWLINE] + []);
      }
    }
  }

  ghost predicate Skipped(text: seq<Byte>) {
    forall rest: seq<Byte>, h: Head :: h.i < 3 ==> ReadHead(text + [NEWLINE] + rest, h) == ReadHead(rest, h)
  }

  /** A header line has no effect, wherever it stands and whatever follows it,
      exactly when every buffer full of it starts with a # or with something
      that is no number. So a comment is harmless exactly if each of its pieces
      is, and a blank line never is. */
  lemma LineSkippedExactly(text: seq<Byte>)
    requires NEWLINE !in text
    ensures Skipped(text) <==> AllDropped(text)
  {
    if AllDropped(text) {
      forall rest: seq<Byte>, h: Head | h.i < 3
        ensures ReadHead(text + [NEWLINE] + rest, h) == ReadHead(rest, h)
      {
        DroppedSkipped(text, rest, h);
      }
    } else {
      var h := NotAllDropped(text);
      assert ReadHead([], h) == None;
    }
  }

  // ---------- which layouts of the header are read ----------

  /** A line between the magic number and the pixels. */
  datatype HLine = Ignored(text: seq<Byte>) | Nums(vals: seq<Word>)

  function Joined(vals: seq<Word>): (s: seq<Byte>) {
    if vals == [] then [] else if |vals| == 1 then Decimal(vals[0]) else Decimal(vals[0]) + [32] + Joined(vals[1..])
  }

  /** A line without its newline. */
  function TextOf(l: HLine): seq<Byte> {
    match l
    case Ignored(text) => text
    case Nums(vals) => Joined(vals)
  }

  function TextOfAll(ls: seq<HLine>): seq<Byte> {
    if ls == [] then [] else TextOf(ls[0]) + [NEWLINE] + TextOfAll(ls[1..])
  }

  /** The numbers of one line. */
  function Vals(l: HLine): seq<Word> {
    if l.Nums? then l.vals else []
  }

  function ValsOf(ls: seq<HLine>): seq<Word> {
    if ls == [] then [] else Vals(ls[0]) + ValsOf(ls[1..])
  }

  /** Every line holds one to three numbers or has no effect. */
  predicate Tidy(l: HLine) {
    match l
    case Ignored(text) => NEWLINE !in text && AllDropped(text)
    case Nums(vals) => 1 <= |vals| <= 3
  }

  /** A comment that fits the buffer is such a line. */
  lemma ShortComment(text: seq<Byte>)
    requires |text| < HEADERSIZE - 2 && NEWLINE !in text
    ensures Tidy(Ignored([HASH] + text))
  {
    assert ([HASH] + text + [NEWLINE])[0] == HASH;
  }

  function Pow10(k: nat): nat {
    if k == 0 then 1 else 10 * Pow10(k - 1)
  }

  lemma {:induction false} DecimalLength(n: nat, k: nat)
    requires k > 0 && n < Pow10(k)
    ensures |Decimal(n)| <= k
  {
    if n < 10 {
    } else {
      assert Pow10(k) == 10 * Pow10(k - 1);
      DecimalLength(n / 10, k - 1);
    }
  }

  lemma WordLength(n: Word)
    ensures |Decimal(n)| <= 10
  {
    assert Pow10(5) == 100000;
    assert Pow10(10) == 10000000000;
    DecimalLength(n, 10);
  }

  lemma {:induction false} JoinedShort(vals: seq<Word>)
    ensures |Joined(vals)| <= 11 * |vals|
    ensures NEWLINE !in Joined(vals) && 0 !in Joined(vals)
    ensures vals != [] ==> Joined(vals) != [] && Digit(Joined(vals)[0])
  {
    if vals == [] {
    } else {
      WordLength(vals[0]);
      JoinedShort(vals[1..]);
    }
  }

  lemma {:induction false} NoZero(s: seq<Byte>)
    requires 0 !in s
    ensures Text(s) == s
  {
    if s == [] {
    } else {
      NoZero(s[1..]);
    }
  }

  lemma NumbersSpaced(s: seq<Byte>, n: nat)
    ensures Numbers([32] + s, n) == Numbers(s, n)
  {
    ScanSpaced(s);
  }

  /** Scanning a line of numbers gives them back. */
  lemma {:induction false} JoinedScanned(vals: seq<Word>, n: nat)
    requires |vals| <= n
    ensures Numbers(Joined(vals) + [NEWLINE], n) == vals
    decreases |vals|
  {
    if vals == [] {
      assert SkipSpace([NEWLINE]) == [];
    } else if |vals| == 1 {
      assert vals == [vals[0]];
      ScanDecimal(vals[0], [NEWLINE]);
      JoinedScanned([], n - 1);
      assert Joined([]) + [NEWLINE] == [NEWLINE];
    } else {
      var t := [32] + (Joined(vals[1..]) + [NEWLINE]);
      assert Joined(vals) + [NEWLINE] == Decimal(vals[0]) + t;
      ScanDecimal(vals[0], t);
      JoinedScanned(vals[1..], n - 1);
      NumbersSpaced(Joined(vals[1..]) + [NEWLINE], n - 1);
      assert vals == [vals[0]] + vals[1..];
    }
  }

  lemma NumsConverted(vals: seq<Word>, n: nat)
    requires 1 <= |vals| <= n
    ensures Converted(Joined(vals) + [NEWLINE], n) == |vals|
  {
    JoinedScanned(vals, n);
    JoinedShort(vals);
    var s := Joined(vals) + [NEWLINE];
    assert Digit(s[0]);
  }

  // ---------- the reader on any tidy header ----------

  /** The counter after some numbers and what they set. */
  function Filled(vals: seq<Word>): Head
    requires |vals| <= 3
  {
    Head(|vals|, if |vals| > 0 then vals[0] else 0, if |vals| > 1 then vals[1] else 0,
         if |vals| > 2 then vals[2] else 0)
  }

  lemma OneLine(vals: seq<Word>, rest: seq<Byte>)
    requires 1 <= |vals| <= 3
    ensures Line(Joined(vals) + [NEWLINE] + rest) == Joined(vals) + [NEWLINE]
    ensures AfterLine(Joined(vals) + [NEWLINE] + rest) == rest
  {
    JoinedShort(vals);
    LineOf(Joined(vals), rest);
  }

  lemma FilledWith(seen: seq<Word>, vals: seq<Word>)
    requires 1 <= |vals| && |seen| + |vals| <= 3
    ensures HeadWith(Filled(seen), vals, |vals|) == Filled(seen + vals)
  {
  }

  lemma NumsLine(seen: seq<Word>, vals: seq<Word>)
    requires 1 <= |vals| && |seen| + |vals| <= 3
    ensures HeadLine(Filled(seen), Text(Joined(vals) + [NEWLINE])) == Filled(seen + vals)
  {
    JoinedShort(vals);
    NoZero(Joined(vals) + [NEWLINE]);
    JoinedScanned(vals, 3 - |seen|);
    NumsConverted(vals, 3 - |seen|);
    FilledWith(seen, vals);
  }

  /** The reader, having found the numbers seen, gets to the end of the header
      with all three and leaves the pixels. */
  ghost predicate Finds(file: seq<Byte>, seen: seq<Word>, all: seq<Word>, pixels: seq<Byte>) {
    |seen| <= 3 && |all| == 3 && ReadHead(file, Filled(seen)) == Some(Scanned(Filled(all), pixels))
  }

  lemma LineStep(l: HLine, rest: seq<Byte>, seen: seq<Word>, all: seq<Word>, pixels: seq<Byte>)
    requires Tidy(l) && |seen| < 3 && Finds(rest, seen + Vals(l), all, pixels)
    ensures Finds(TextOf(l) + [NEWLINE] + rest, seen, all, pixels)
  {
    if l.Nums? {
      var file := Joined(l.vals) + [NEWLINE] + rest;
      OneLine(l.vals, rest);
      JoinedShort(l.vals);
      assert Line(file)[0] == file[0] == Joined(l.vals)[0];
      NumsLine(seen, l.vals);
    } else {
      assert seen + [] == seen;
      DroppedSkipped(l.text, rest, Filled(seen));
    }
  }

  lemma Assoc<T>(a: seq<T>, b: seq<T>, c: seq<T>)
    ensures a + b + c == a + (b + c)
  {
  }

  lemma FirstText(ls: seq<HLine>, rest: seq<Byte>)
    requires ls != []
    ensures TextOfAll(ls) + rest == TextOf(ls[0]) + [NEWLINE] + (TextOfAll(ls[1..]) + rest)
  {
    Assoc(TextOf(ls[0]) + [NEWLINE], TextOfAll(ls[1..]), rest);
  }

  lemma FirstVals(ls: seq<HLine>, seen: seq<Word>)
    requires ls != []
    ensures seen + ValsOf(ls) == seen + Vals(ls[0]) + ValsOf(ls[1..])
  {
    Assoc(seen, Vals(ls[0]), ValsOf(ls[1..]));
  }

  lemma LayoutEnds(seen: seq<Word>, rest: seq<Byte>)
    requires |seen + ValsOf([])| == 3
    ensures Finds(TextOfAll([]) + rest, seen, seen + ValsOf([]), rest)
  {
    assert TextOfAll([]) + rest == rest && seen + ValsOf([]) == seen;
  }

  lemma {:induction false} LastNums(ls: seq<HLine>)
    requires ls != [] && ls[|ls| - 1].Nums? && Tidy(ls[|ls| - 1])
    ensures ValsOf(ls) != []
  {
    if |ls| <= 1 {
    } else {
      assert ls[1..][|ls| - 2] == ls[|ls| - 1];
      LastNums(ls[1..]);
    }
  }

  lemma TailTidy(ls: seq<HLine>)
    requires |ls| > 1 && forall i :: 0 <= i < |ls| ==> Tidy(ls[i])
    ensures var tail := ls[1..];
            tail[|tail| - 1] == ls[|ls| - 1] && forall i :: 0 <= i < |tail| ==> Tidy(tail[i])
  {
  }

  /** However the three numbers are spread over lines, and whatever lines
      without effect stand before the last of them, the reader finds them and
      stops right after the line that holds the last. */
  lemma {:induction false} AnyLayout(ls: seq<HLine>, rest: seq<Byte>, seen: seq<Word>)
    requires forall i :: 0 <= i < |ls| ==> Tidy(ls[i])
    requires |seen| < 3 && |seen + ValsOf(ls)| == 3 && ls != [] && ls[|ls| - 1].Nums?
    ensures Finds(TextOfAll(ls) + rest, seen, seen + ValsOf(ls), rest)
    decreases |ls|
  {
    var l, tail, more := ls[0], ls[1..], Vals(ls[0]);
    FirstText(ls, rest);
    FirstVals(ls, seen);
    if tail == [] {
      LayoutEnds(seen + more, rest);
    } else {
      TailTidy(ls);
      LastNums(tail);
      AnyLayout(tail, rest, seen + more);
    }
    LineStep(l, TextOfAll(tail) + rest, seen, seen + ValsOf(ls), rest);
  }

  // ---------- layouts that are misread ----------

  /** A comment line too long for the reader's buffer: what does not fit is
      taken as a line of its own. */
  lemma LongCommentSplit(text: seq<Byte>, rest: seq<Byte>, h: Head)
    requires |text| > HEADERSIZE - 1 && text[0] == HASH && h.i < 3 && NEWLINE !in text[..HEADERSIZE - 1]
    ensures ReadHead(text + rest, h) == ReadHead(text[HEADERSIZE - 1..] + rest, h)
  {
    var kept, tail := text[..HEADERSIZE - 1], text[HEADERSIZE - 1..] + rest;
    assert text + rest == kept + tail;
    FullLine(kept, tail, HEADERSIZE - 1);
    assert (kept + tail)[HEADERSIZE - 1..] == tail && Line(kept + tail)[0] == kept[0];
  }

  /** A comment that is misread: 62 blanks after the # fill the buffer, and the
      numbers after them are taken for the header. What follows, the real
      header included, is taken for pixels. */
  lemma CommentMisread(rest: seq<Byte>)
    ensures var text := [HASH] + seq(62, _ => 32) + Joined([7, 8, 9]);
            && NEWLINE !in text && !AllDropped(text)
            && ReadHead(text + [NEWLINE] + rest, START) == Some(Scanned(Head(3, 7, 8, 9), rest))
  {
    var head, nums := [HASH] + seq(62, _ => 32), Joined([7, 8, 9]);
    var text := head + nums;
    JoinedShort([7, 8, 9]);
    assert text[..HEADERSIZE - 1] == head && text[HEADERSIZE - 1..] == nums;
    PieceRead(text, rest);
    DroppedRead(text + [NEWLINE] + rest, START);
    OneLine([7, 8, 9], rest);
    assert [] + [7, 8, 9] == [7, 8, 9];
    NumsLine([], [7, 8, 9]);
    var line := nums + [NEWLINE];
    assert line[0] == nums[0];
    MismatchKeeps(START, Text(line));
  }

  /** A blank line before the first number: the reader stops with a picture of
      no size. After the first number: the next one is taken for the width. */
  lemma BlankLineEnds(rest: seq<Byte>, w: Word)
    ensures ReadHead([NEWLINE] + rest, START) == Some(Scanned(Head(0xFFFF_FFFF, 0, 0, 0), rest))
    ensures ReadHead([NEWLINE] + rest, Head(1, w, 0, 0)) == ReadHead(rest, Head(0, w, 0, 0))
  {
    LineOf([], rest);
    assert [] + [NEWLINE] + rest == [NEWLINE] + rest && [] + [NEWLINE] == [NEWLINE];
    assert Text([NEWLINE]) == [NEWLINE] && SkipSpace([NEWLINE]) == [];
    BlankStepsBack(START, [NEWLINE]);
    BlankStepsBack(Head(1, w, 0, 0), [NEWLINE]);
  }

  // ---------- the writer ----------

  function Magic(channels: nat): seq<Byte> {
    [80, if channels == 1 then 53 else 54]
  }

  function Saved(w: Word, h: Word, channels: nat, data: seq<Byte>): (file: seq<Byte>)
    requires |data| >= Size(w, h, channels)
  {
    Magic(channels) + [NEWLINE] + Decimal(w) + [NEWLINE] + Decimal(h) + [NEWLINE] + Decimal(255) + [NEWLINE]
    + data[..Size(w, h, channels)]
  }

  method Save(data: array<Byte>, w: Word, h: Word, channels: nat) returns (ok: bool, file: seq<Byte>)
    requires w > 0 && h > 0 && data.Length >= Size(w, h, channels)
    ensures ok == (channels == 1 || channels == 3)
    ensures file == if ok then Saved(w, h, channels, data[..]) else []
  {
    ok, file := true, [];
    if channels == 1 {
      file := file + [80, 53, NEWLINE];
    } else if channels == 3 {
      file := file + [80, 54, NEWLINE];
    } else {
      return false, [];
    }
    assert file == Magic(channels) + [NEWLINE];
    file := file + Decimal(w) + [NEWLINE] + Decimal(h) + [NEWLINE] + Decimal(255) + [NEWLINE];
    ghost var header := file;
    for i := 0 to Size(w, h, channels)
      invariant file == header + data[..i]
    {
      file := file + [data[i]];
      assert data[..i + 1] == data[..i] + [data[i]];
    }
    assert data[..Size(w, h, channels)] == data[..][..Size(w, h, channels)];
  }

  lemma MagicLine(channels: nat, rest: seq<Byte>)
    requires channels == 1 || channels == 3
    ensures var file := Magic(channels) + [NEWLINE] + rest;
            file != [] && Channels(Line(file)) == channels && AfterLine(file) == rest
  {
    LineOf(Magic(channels), rest);
  }

  /** Reading a file with any tidy header gives the three numbers, and as many
      of the bytes after it as they ask for. */
  lemma LayoutLoaded(channels: nat, ls: seq<HLine>, data: seq<Byte>)
    requires channels == 1 || channels == 3
    requires forall i :: 0 <= i < |ls| ==> Tidy(ls[i])
    requires |ValsOf(ls)| == 3 && ls != [] && ls[|ls| - 1].Nums?
    requires |data| == Size(ValsOf(ls)[0], ValsOf(ls)[1], channels)
    ensures Loaded(Magic(channels) + [NEWLINE] + (TextOfAll(ls) + data)) ==
            Some(Picture(ValsOf(ls)[0], ValsOf(ls)[1], channels, data))
  {
    MagicLine(channels, TextOfAll(ls) + data);
    assert [] + ValsOf(ls) == ValsOf(ls);
    AnyLayout(ls, data, []);
    assert data[..|data|] == data;
  }

  lemma ConsLine(vals: seq<Word>, ls: seq<HLine>)
    ensures TextOfAll([Nums(vals)] + ls) == Joined(vals) + [NEWLINE] + TextOfAll(ls)
    ensures ValsOf([Nums(vals)] + ls) == vals + ValsOf(ls)
  {
    assert ([Nums(vals)] + ls)[1..] == ls;
  }

  /** The header as it is written: one number on each line. */
  function Lines(w: Word, h: Word): seq<HLine> {
    [Nums([w])] + ([Nums([h])] + ([Nums([255])] + []))
  }

  lemma SavedLines(w: Word, h: Word)
    ensures ValsOf(Lines(w, h)) == [w, h, 255]
    ensures TextOfAll(Lines(w, h)) ==
            Decimal(w) + [NEWLINE] + (Decimal(h) + [NEWLINE] + (Decimal(255) + [NEWLINE] + []))
  {
    ConsLine([255], []);
    ConsLine([h], [Nums([255])] + []);
    ConsLine([w], [Nums([h])] + ([Nums([255])] + []));
  }

  lemma Regroup(a: seq<Byte>, b: seq<Byte>, c: seq<Byte>, d: seq<Byte>, e: seq<Byte>)
    ensures a + b + c + d + e == a + (b + (c + (d + [])) + e)
  {
  }

  lemma SavedLayout(w: Word, h: Word, channels: nat, data: seq<Byte>)
    requires |data| >= Size(w, h, channels)
    ensures Saved(w, h, channels, data) ==
            Magic(channels) + [NEWLINE] + (TextOfAll(Lines(w, h)) + data[..Size(w, h, channels)])
  {
    SavedLines(w, h);
    Regroup(Magic(channels) + [NEWLINE], Decimal(w) + [NEWLINE], Decimal(h) + [NEWLINE], Decimal(255) + [NEWLINE],
            data[..Size(w, h, channels)]);
    assert Magic(channels) + [NEWLINE] + Decimal(w) + [NEWLINE] ==
           Magic(channels) + [NEWLINE] + (Decimal(w) + [NEWLINE]);
    assert Magic(channels) + [NEWLINE] + (Decimal(w) + [NEWLINE]) + Decimal(h) + [NEWLINE] ==
           Magic(channels) + [NEWLINE] + (Decimal(w) + [NEWLINE]) + (Decimal(h) + [NEWLINE]);
  }

  /** Reading what was written gives width, height, channels and every byte
      that was written. */
  lemma LoadedSaved(w: Word, h: Word, channels: nat, data: seq<Byte>)
    requires (channels == 1 || channels == 3) && |data| >= Size(w, h, channels)
    ensures Loaded(Saved(w, h, channels, data)) == Some(Picture(w, h, channels, data[..Size(w, h, channels)]))
  {
    SavedLayout(w, h, channels, data);
    SavedLines(w, h);
    LayoutLoaded(channels, Lines(w, h), data[..Size(w, h, channels)]);
  }

  lemma SizeSmall(n: nat)
    ensures n % 0x1_0000_0000 <= n && (n % 0x1_0000_0000 == n <==> n < 0x1_0000_0000)
  {
  }

  lemma Narrowed(n: nat)
    ensures n % 0x1_0000_0000 <= n % 0x1_0000_0000_0000_0000
  {
    var q, r := n / 0x1_0000_0000_0000_0000, n % 0x1_0000_0000_0000_0000;
    var a, b := r / 0x1_0000_0000, r % 0x1_0000_0000;
    var k := q * 0x1_0000_0000 + a;
    assert n == k * 0x1_0000_0000 + b;
    assert n / 0x1_0000_0000 == k;
  }

  /** All pixels survive exactly when their number fits the unsigned size. */
  lemma AllPixelsExactly(w: Word, h: Word, channels: nat, data: seq<Byte>)
    requires (channels == 1 || channels == 3) && |data| == (w as int) * (h as int) * channels
    ensures |data| >= Size(w, h, channels)
    ensures Loaded(Saved(w, h, channels, data)) == Some(Picture(w, h, channels, data)) <==> |data| < 0x1_0000_0000
  {
    SizeSmall(|data|);
    LoadedSaved(w, h, channels, data);
    if |data| < 0x1_0000_0000 {
      assert data[..Size(w, h, channels)] == data;
    }
  }

  // ---------- the bytes of a file ----------

  lemma Decimal255()
    ensures Decimal(255) == [50, 53, 53]
  {
    assert Decimal(2) == [50] && Decimal(25) == [50, 53];
  }

  lemma Ended(pre: seq<Byte>, a: seq<Byte>, b: seq<Byte>, c: seq<Byte>)
    ensures pre + a + b + c == pre + (a + b + c)
  {
  }

  lemma OnOneLine(w: Word, h: Word)
    ensures TextOfAll([Nums([w, h, 255])]) == Decimal(w) + [32] + Decimal(h) + [32] + [50, 53, 53, 10]
    ensures ValsOf([Nums([w, h, 255])]) == [w, h, 255]
  {
    Decimal255();
    var last: seq<Byte> := [50, 53, 53];
    assert [w, h, 255][1..] == [h, 255] && [h, 255][1..] == [255];
    assert Joined([h, 255]) == Decimal(h) + [32] + last;
    Ended(Decimal(w), [32], Decimal(h), [32] + last);
    Ended(Decimal(w) + [32], Decimal(h), [32], last);
    var ls := [Nums([w, h, 255])];
    assert ls[1..] == [] && TextOfAll(ls) == Joined([w, h, 255]) + [10] + [];
    assert last + [10] == [50, 53, 53, 10];
    Ended(Decimal(w) + [32] + Decimal(h) + [32], last, [10], []);
    assert [] + [w, h, 255] == [w, h, 255] && [w, h, 255] + [] == [w, h, 255];
  }

  /** The file that is written, in bytes: "P5" or "P6", the width, the height and
      255, each on a line that byte 10 ends, then the pixels. */
  lemma SavedBytes(w: Word, h: Word, channels: nat, data: seq<Byte>)
    requires |data| >= Size(w, h, channels) && (channels == 1 || channels == 3)
    ensures Saved(w, h, channels, data) ==
            [80, if channels == 1 then 53 else 54, 10] + Decimal(w) + [10] + Decimal(h) + [10, 50, 53, 53, 10] +
            data[..(w as int) * (h as int) * channels % 0x1_0000_0000]
  {
    var magic, end: seq<Byte> := [80, if channels == 1 then 53 else 54, 10], [10, 50, 53, 53, 10];
    Decimal255();
    assert Magic(channels) + [NEWLINE] == magic;
    assert [NEWLINE] + Decimal(255) + [NEWLINE] == end;
    Ended(magic + Decimal(w) + [NEWLINE] + Decimal(h), [NEWLINE], Decimal(255), [NEWLINE]);
  }

  /** A picture of two by one pixels. */
  lemma TwoByOne(data: seq<Byte>)
    requires |data| >= 6
    ensures Saved(2, 1, 3, data) == [80, 54, 10, 50, 10, 49, 10, 50, 53, 53, 10] + data[..6]
    ensures Saved(2, 1, 1, data) == [80, 53, 10, 50, 10, 49, 10, 50, 53, 53, 10] + data[..2]
  {
    SavedBytes(2, 1, 3, data);
    SavedBytes(2, 1, 1, data);
    var two, one: seq<Byte> := [50], [49];
    assert Decimal(2) == two && Decimal(1) == one;
  }

  lemma MagicBytes(channels: nat, text: seq<Byte>, data: seq<Byte>, file: seq<Byte>)
    requires file == [80, if channels == 1 then 53 else 54, 10] + text + data
    ensures file == Magic(channels) + [NEWLINE] + (text + data)
  {
    var magic: seq<Byte> := [80, if channels == 1 then 53 else 54, 10];
    assert Magic(channels) + [NEWLINE] == magic;
    Ended(magic, text, data, []);
    assert magic + text + data + [] == magic + text + data && text + data + [] == text + data;
  }

  /** A picture file of which the lines after the first are given. */
  lemma LoadedLines(channels: nat, ls: seq<HLine>, text: seq<Byte>, w: Word, h: Word, data: seq<Byte>, file: seq<Byte>)
    requires (channels == 1 || channels == 3) && |data| == Size(w, h, channels)
    requires (forall i :: 0 <= i < |ls| ==> Tidy(ls[i])) && ls != [] && ls[|ls| - 1].Nums?
    requires TextOfAll(ls) == text && ValsOf(ls) == [w, h, 255]
    requires file == [80, if channels == 1 then 53 else 54, 10] + text + data
    ensures Loaded(file) == Some(Picture(w, h, channels, data))
  {
    MagicBytes(channels, text, data, file);
    LayoutLoaded(channels, ls, data);
  }

  lemma OnThreeLines(w: Word, h: Word)
    ensures TextOfAll(Lines(w, h)) == Decimal(w) + [10] + Decimal(h) + [10] + [50, 53, 53, 10]
  {
    SavedLines(w, h);
    Decimal255();
    assert Decimal(255) + [NEWLINE] + [] == [50, 53, 53, 10];
    Ended(Decimal(w) + [10], Decimal(h), [10], [50, 53, 53, 10]);
  }

  lemma AfterComment(w: Word, h: Word)
    ensures var ls := [Ignored([35, 120]), Nums([w, h, 255])];
            && TextOfAll(ls) == [35, 120, 10] + (Decimal(w) + [32] + Decimal(h) + [32] + [50, 53, 53, 10])
            && ValsOf(ls) == [w, h, 255] && Tidy(ls[0])
  {
    var ls := [Ignored([35, 120]), Nums([w, h, 255])];
    OnOneLine(w, h);
    assert ls[1..] == [Nums([w, h, 255])];
    var text: seq<Byte> := [35, 120];
    assert text + [NEWLINE] == [35, 120, 10] && (text + [NEWLINE])[0] == HASH;
    assert [] + [w, h, 255] == [w, h, 255];
  }

  /** Files with the three numbers on lines of their own, on one line with blanks
      between, and with a comment before them, in bytes. */
  lemma LoadedBytes(w: Word, h: Word, channels: nat, data: seq<Byte>, file: seq<Byte>)
    requires (channels == 1 || channels == 3) && |data| == (w as int) * (h as int) * channels % 0x1_0000_0000
    requires var magic, end: seq<Byte> := [80, if channels == 1 then 53 else 54, 10], [50, 53, 53, 10];
             || file == magic + (Decimal(w) + [10] + Decimal(h) + [10] + end) + data
             || file == magic + (Decimal(w) + [32] + Decimal(h) + [32] + end) + data
             || file == magic + ([35, 120, 10] + (Decimal(w) + [32] + Decimal(h) + [32] + end)) + data
    ensures Loaded(file) == Some(Picture(w, h, channels, data))
  {
    var magic, end: seq<Byte> := [80, if channels == 1 then 53 else 54, 10], [50, 53, 53, 10];
    if file == magic + (Decimal(w) + [10] + Decimal(h) + [10] + end) + data {
      OnThreeLines(w, h);
      SavedLines(w, h);
      LoadedLines(channels, Lines(w, h), TextOfAll(Lines(w, h)), w, h, data, file);
    } else if file == magic + (Decimal(w) + [32] + Decimal(h) + [32] + end) + data {
      OnOneLine(w, h);
      LoadedLines(channels, [Nums([w, h, 255])], TextOfAll([Nums([w, h, 255])]), w, h, data, file);
    } else {
      AfterComment(w, h);
      var ls := [Ignored([35, 120]), Nums([w, h, 255])];
      LoadedLines(channels, ls, TextOfAll(ls), w, h, data, file);
    }
  }

  /** The two-by-one picture as it may come from elsewhere. */
  lemma TwoByOneLoaded(data: seq<Byte>, file: seq<Byte>)
    requires |data| == 6
    requires || file == [80, 54, 10, 50, 10, 49, 10, 50, 53, 53, 10] + data
             || file == [80, 54, 10, 50, 32, 49, 32, 50, 53, 53, 10] + data
             || file == [80, 54, 10, 35, 120, 10, 50, 32, 49, 32, 50, 53, 53, 10] + data
    ensures Loaded(file) == Some(Picture(2, 1, 3, data))
  {
    var two, one, magic, end: seq<Byte> := [50], [49], [80, 54, 10], [50, 53, 53, 10];
    assert Decimal(2) == two && Decimal(1) == one;
    assert magic + (two + [10] + one + [10] + end) == [80, 54, 10, 50, 10, 49, 10, 50, 53, 53, 10];
    assert magic + (two + [32] + one + [32] + end) == [80, 54, 10, 50, 32, 49, 32, 50, 53, 53, 10];
    assert magic + ([35, 120, 10] + (two + [32] + one + [32] + end)) ==
           [80, 54, 10, 35, 120, 10, 50, 32, 49, 32, 50, 53, 53, 10];
    LoadedBytes(2, 1, 3, data, file);
  }

  /** What a number may look like: signs, and white space before it. */
  lemma NumberBytes(t: seq<Byte>, n: Word, rest: seq<Byte>, b: Byte)
    requires ScanNumber(t) == Number(n, rest) && t != [] && Digit(t[0])
    ensures ScanNumber([43] + t) == Number(n, rest)
    ensures ScanNumber([45] + t) == Number((0x1_0000_0000 - n) % 0x1_0000_0000, rest)
    ensures b in [32, 9, 10, 11, 12, 13] ==> ScanNumber([b] + t) == Number(n, rest)
    ensures b !in [32, 9, 10, 11, 12, 13, 43, 45] && !(48 <= b <= 57) ==> ScanNumber([b] + t) == Mismatch
  {
    assert ([43] + t)[1..] == t && ([45] + t)[1..] == t && ([b] + t)[1..] == t;
  }

  /** A file is read as a picture only if it starts with P5 or P6, which says how
      many channels there are. */
  lemma OnlyPixmaps(file: seq<Byte>)
    ensures Loaded(file).Some? ==>
              && |file| >= 2 && file[0] == 80 && (file[1] == 53 || file[1] == 54)
              && Loaded(file).value.channels == if file[1] == 53 then 1 else 3
  {
  }

  // ---------- the reader ----------

  /** The scanf of the line that fits the counter. */
  method ScanLine(s: seq<Byte>, i: Word, width: Word, height: Word, maxval: Word)
    returns (i': Word, width': Word, height': Word, maxval': Word)
    requires i < 3
    ensures Head(i', width', height', maxval') == HeadLine(Head(i, width, height, maxval), s)
  {
    width', height', maxval' := width, height, maxval;
    var ws := Numbers(s, 3 - i as int);
    if i == 0 {
      if |ws| > 0 { width' := ws[0]; }
      if |ws| > 1 { height' := ws[1]; }
      if |ws| > 2 { maxval' := ws[2]; }
    } else if i == 1 {
      if |ws| > 0 { height' := ws[0]; }
      if |ws| > 1 { maxval' := ws[1]; }
    } else if i == 2 {
      if |ws| > 0 { maxval' := ws[0]; }
    }
    i' := Wrapped(i as int + Converted(s, 3 - i as int));
  }

  /** Up to n bytes from the front of fp; returns how many there were. */
  method Fread(data: array<Byte>, n: nat, fp: seq<Byte>) returns (read: nat)
    requires n <= data.Length
    modifies data
    ensures read == if n <= |fp| then n else |fp|
    ensures data[..read] == fp[..read]
  {
    read := 0;
    while read < n && read < |fp|
      invariant read <= n && read <= |fp| && data[..read] == fp[..read]
    {
      data[read] := fp[read];
      read := read + 1;
    }
  }

  /** The loop over the header lines. */
  method ScanHeader(file: seq<Byte>) returns (ok: bool, width: Word, height: Word, fp: seq<Byte>)
    ensures ok == ReadHead(file, START).Some?
    ensures ok ==> var s := ReadHead(file, START).value;
                   width == s.head.width && height == s.head.height && fp == s.rest
  {
    ok, width, height, fp := true, 0, 0, file;
    var maxval: Word, i: Word := 0, 0;
    while i < 3
      invariant ReadHead(fp, Head(i, width, height, maxval)) == ReadHead(file, START)
      decreases |fp|
    {
      if fp == [] { return false, width, height, fp; }
      var header := Line(fp);
      fp := AfterLine(fp);
      if header[0] == HASH { continue; }
      i, width, height, maxval := ScanLine(Text(header), i, width, height, maxval);
    }
  }

  /** The product the reader allocates is taken in 64 bits, the one it reads in 32. */
  function Allocated(w: Word, h: Word, channels: nat): nat {
    (w as int) * (h as int) * channels % 0x1_0000_0000_0000_0000
  }

  lemma SizeAllocated(w: Word, h: Word, channels: nat)
    ensures Size(w, h, channels) <= Allocated(w, h, channels)
  {
    Narrowed((w as int) * (h as int) * channels);
  }

  method ReadPixels(width: Word, height: Word, channels: nat, fp: seq<Byte>) returns (data: array<Byte>, read: nat)
    ensures fresh(data) && data.Length == Allocated(width, height, channels) && read <= data.Length
    ensures data[..read] == var n := Size(width, height, channels); if n <= |fp| then fp[..n] else fp
  {
    data := new Byte[Allocated(width, height, channels)];
    SizeAllocated(width, height, channels);
    read := Fread(data, Size(width, height, channels), fp);
    assert fp[..|fp|] == fp;
  }

  method Load(file: seq<Byte>)
    returns (ok: bool, width: Word, height: Word, channels: nat, data: array<Byte>, ghost read: nat)
    ensures ok == Loaded(file).Some? && fresh(data)
    ensures ok ==> data.Length == Allocated(width, height, channels)
    ensures ok ==> read <= data.Length && Loaded(file) == Some(Picture(width, height, channels, data[..read]))
  {
    ok, width, height, channels, data, read := false, 0, 0, 0, new Byte[0], 0;
    if file == [] { return; }
    channels := Channels(Line(file));
    if channels == 0 { return; }
    var fp;
    ok, width, height, fp := ScanHeader(AfterLine(file));
    if !ok { return; }
    data, read := ReadPixels(width, height, channels, fp);
  }

  // ---------- four channels ----------

  /** Every fourth byte dropped. */
  function Stripped(d: seq<Byte>, n: nat): (t: seq<Byte>)
    requires |d| == 4 * n
    ensures |t| == 3 * n
  {
    seq(3 * n, q requires 0 <= q < 3 * n => d[q / 3 * 4 + q % 3])
  }

  /** A zero after every three bytes. */
  function Padded(d: seq<Byte>, n: nat): (t: seq<Byte>)
    requires |d| == 3 * n
    ensures |t| == 4 * n
  {
    seq(4 * n, q requires 0 <= q < 4 * n => if q % 4 == 3 then 0 else d[q / 4 * 3 + q % 4])
  }

  lemma StrippedPadded(d: seq<Byte>, n: nat)
    requires |d| == 3 * n
    ensures Stripped(Padded(d, n), n) == d
  {
    forall q | 0 <= q < 3 * n ensures Stripped(Padded(d, n), n)[q] == d[q] {
      var k := q / 3 * 4 + q % 3;
      assert k / 4 == q / 3 && k % 4 == q % 3;
    }
  }

  /** Stripping and padding again keeps three bytes of four and clears the fourth. */
  lemma PaddedStripped(d: seq<Byte>, n: nat, q: nat)
    requires |d| == 4 * n && q < 4 * n
    ensures Padded(Stripped(d, n), n)[q] == if q % 4 == 3 then 0 else d[q]
  {
    if q % 4 != 3 {
      var k := q / 4 * 3 + q % 4;
      assert k / 3 == q / 4 && k % 3 == q % 4;
    }
  }

  /** Where a colour of the stripped picture comes from. */
  lemma StrippedAt(d: seq<Byte>, n: nat, q: nat)
    requires |d| == 4 * n && q < 4 * n && q % 4 != 3
    ensures q / 4 * 3 + q % 4 < 3 * n && Stripped(d, n)[q / 4 * 3 + q % 4] == d[q]
  {
    var k := q / 4 * 3 + q % 4;
    assert k / 3 == q / 4 && k % 3 == q % 4;
  }

  method Strip(data: array<Byte>, size: nat) returns (ndata: array<Byte>)
    requires data.Length >= 4 * size
    ensures fresh(ndata) && ndata[..] == Stripped(data[..4 * size], size)
  {
    ndata := new Byte[3 * size];
    var ptr, from := 0, 0;
    for i := 0 to size
      invariant ptr == 3 * i && from == 4 * i
      invariant forall q :: 0 <= q < 3 * i ==> ndata[q] == data[q / 3 * 4 + q % 3]
    {
      ndata[ptr] := data[from];
      ndata[ptr + 1] := data[from + 1];
      ndata[ptr + 2] := data[from + 2];
      ptr, from := ptr + 3, from + 4;
    }
  }

  method Pad(idata: array<Byte>, size: nat) returns (data: array<Byte>)
    requires idata.Length >= 3 * size
    ensures fresh(data) && data[..] == Padded(idata[..3 * size], size)
  {
    data := new Byte[4 * size];
    var ptr, from := 0, 0;
    for i := 0 to size
      invariant ptr == 4 * i && from == 3 * i
      invariant forall q :: 0 <= q < 4 * i ==> data[q] == if q % 4 == 3 then 0 else idata[q / 4 * 3 + q % 4]
    {
      data[ptr] := idata[from];
      data[ptr + 1] := idata[from + 1];
      data[ptr + 2] := idata[from + 2];
      data[ptr + 3] := 0;
      ptr, from := ptr + 4, from + 3;
    }
  }

  /** The int w * h of the four-channel forms, from the unsigned product; none
      when it comes out negative. */
  function Count(w: Word, h: Word): Option<nat> {
    var n := Wrapped((w as int) * (h as int));
    if n < 0x8000_0000 then Some(n) else None
  }

  lemma ThreeTimes(p: nat)
    ensures p * 3 % 0x1_0000_0000 == p % 0x1_0000_0000 * 3 % 0x1_0000_0000
  {
    var q, r := p / 0x1_0000_0000, p % 0x1_0000_0000;
    assert p * 3 == r * 3 + q * 3 * 0x1_0000_0000;
  }

  /** Three bytes a pixel, as the writer counts them. */
  lemma SizeOfCount(w: Word, h: Word)
    requires Count(w, h).Some?
    ensures Size(w, h, 3) == 3 * Count(w, h).value % 0x1_0000_0000 <= 3 * Count(w, h).value
    ensures Size(w, h, 3) == 3 * Count(w, h).value <==> 3 * Count(w, h).value < 0x1_0000_0000
  {
    ThreeTimes((w as int) * (h as int));
    SizeSmall(3 * Count(w, h).value);
  }

  /** How many bytes of the stripped picture are written. */
  function Written(w: Word, h: Word): (n: nat)
    requires Count(w, h).Some?
    ensures n <= 3 * Count(w, h).value
  {
    SizeOfCount(w, h);
    Size(w, h, 3)
  }

  /** All colours of the picture are written exactly when they number less than
      2^32. */
  lemma AllWritten(w: Word, h: Word)
    requires Count(w, h).Some?
    ensures Written(w, h) == 3 * ((w as int) * (h as int)) <==> 3 * ((w as int) * (h as int)) < 0x1_0000_0000
  {
    var n := (w as int) * (h as int);
    assert Size(w, h, 3) == 3 * n % 0x1_0000_0000;
    SizeSmall(3 * n);
  }

  /** With a negative count malloc fails and the assertion on the data stops the
      program before the file is opened. */
  method SavePPM4ub(data: array<Byte>, w: Word, h: Word) returns (ok: bool, file: seq<Byte>)
    requires w > 0 && h > 0 && (Count(w, h).Some? ==> data.Length >= 4 * Count(w, h).value)
    ensures ok == Count(w, h).Some?
    ensures ok ==> var n := Count(w, h).value;
              Loaded(file) == Some(Picture(w, h, 3, Stripped(data[..4 * n], n)[..Written(w, h)]))
  {
    file := [];
    ok := Count(w, h).Some?;
    if ok {
      var size := Count(w, h).value;
      var ndata := Strip(data, size);
      SizeOfCount(w, h);
      ok, file := Save(ndata, w, h, 3);
      LoadedSaved(w, h, 3, ndata[..]);
    }
  }

  /** How the four-channel reader ends: it may not read the file, or go on past
      the end of what it has allocated for it. */
  datatype Ending = Unreadable | PastBuffer | Done

  /** Four bytes a pixel: those whose three colours the file holds are theirs,
      and every fourth byte is zero; the other colours are whatever the buffer
      held. */
  ghost predicate PaddedSoFar(data: seq<Byte>, pixels: seq<Byte>) {
    forall q :: 0 <= q < |data| ==>
      if q % 4 == 3 then data[q] == 0
      else q / 4 * 3 + q % 4 < |pixels| ==> data[q] == pixels[q / 4 * 3 + q % 4]
  }

  /** The number of pixels the padding loop goes over. */
  function Rounds(w: Word, h: Word): nat {
    match Count(w, h) case Some(n) => n case None => 0
  }

  /** The pictures for which too little is allocated: those of one channel whose
      count has not wrapped, and those of three whose 64-bit product has, while
      their count stays positive. */
  predicate TooFew(n: nat, channels: nat) {
    if channels == 1 then 0 < n < 0x8000_0000
    else 0x5555_5555_5555_5556 <= n < 0x5555_5555_8000_0000
  }

  predicate TooShort(w: Word, h: Word, channels: nat) {
    TooFew((w as int) * (h as int), channels)
  }

  lemma OneChannelShort(n: nat)
    requires n % 0x1_0000_0000 < 0x8000_0000
    ensures 3 * (n % 0x1_0000_0000) > n <==> 0 < n < 0x8000_0000
  {
    var q, r := n / 0x1_0000_0000, n % 0x1_0000_0000;
    assert n == q * 0x1_0000_0000 + r;
  }

  /** The count in two halves, and three times the count as the multiple of 2^64
      that is lost and the rest that is allocated. */
  lemma ShortParts(q: int, r: int, k: int, a: int)
    requires 0 <= q < 0x1_0000_0000 && 0 <= r < 0x8000_0000 && 0 <= a < 0x1_0000_0000_0000_0000
    requires 3 * (q * 0x1_0000_0000 + r) == k * 0x1_0000_0000_0000_0000 + a
    ensures 3 * r > a <==> 0x5555_5555_5555_5556 <= q * 0x1_0000_0000 + r < 0x5555_5555_8000_0000
  {
    assert a - 3 * r == 0x1_0000_0000 * (3 * q - k * 0x1_0000_0000);
    if k <= 0 {
      assert 3 * q >= k * 0x1_0000_0000;
    } else if k == 1 {
      if 3 * r > a { assert 3 * q == 0xFFFF_FFFF; }
    } else {
      assert k == 2 && 3 * q != 0x1_FFFF_FFFF;
    }
  }

  lemma ThreeChannelsShort(n: nat)
    requires n < 0x1_0000_0000_0000_0000 && n % 0x1_0000_0000 < 0x8000_0000
    ensures 3 * (n % 0x1_0000_0000) > n * 3 % 0x1_0000_0000_0000_0000 <==>
            0x5555_5555_5555_5556 <= n < 0x5555_5555_8000_0000
  {
    var q, r := n / 0x1_0000_0000, n % 0x1_0000_0000;
    var k, a := n * 3 / 0x1_0000_0000_0000_0000, n * 3 % 0x1_0000_0000_0000_0000;
    assert n == q * 0x1_0000_0000 + r;
    assert n * 3 == k * 0x1_0000_0000_0000_0000 + a;
    ShortParts(q, r, k, a);
  }

  lemma MulBelow(a: nat, b: nat, c: nat)
    requires a <= c && b <= c
    ensures a * b <= c * c
  {
    assert a * b <= c * b <= c * c;
  }

  lemma ProductBound(w: Word, h: Word)
    ensures (w as int) * (h as int) < 0x1_0000_0000_0000_0000
  {
    MulBelow(w as int, h as int, 0xFFFF_FFFF);
  }

  lemma ShortCount(n: nat, channels: nat)
    requires n < 0x1_0000_0000_0000_0000 && (channels == 1 || channels == 3)
    ensures n % 0x1_0000_0000 < 0x8000_0000 ==>
              (3 * (n % 0x1_0000_0000) > n * channels % 0x1_0000_0000_0000_0000 <==> TooFew(n, channels))
    ensures n % 0x1_0000_0000 >= 0x8000_0000 ==> !TooFew(n, channels)
  {
    if n % 0x1_0000_0000 < 0x8000_0000 {
      if channels == 1 { OneChannelShort(n); } else { ThreeChannelsShort(n); }
    }
  }

  lemma ShortExactly(w: Word, h: Word, channels: nat)
    requires channels == 1 || channels == 3
    ensures 3 * Rounds(w, h) > Allocated(w, h, channels) <==> TooShort(w, h, channels)
  {
    ProductBound(w, h);
    ShortCount((w as int) * (h as int), channels);
  }

  method LoadPPM4ub(file: seq<Byte>) returns (how: Ending, w: Word, h: Word, data: array<Byte>)
    ensures fresh(data) && (how == Unreadable <==> Loaded(file).None?)
    ensures how == PastBuffer <==>
              Loaded(file).Some? && var p := Loaded(file).value; TooShort(p.width, p.height, p.channels)
    ensures how != Unreadable ==> w == Loaded(file).value.width && h == Loaded(file).value.height
    ensures how == Done ==> data.Length == 4 * Rounds(w, h)
    ensures how == Done ==> PaddedSoFar(data[..], Loaded(file).value.pixels)
  {
    var ok, channels, idata;
    ghost var read;
    ok, w, h, channels, idata, read := Load(file);
    data := new Byte[0];
    if !ok { return Unreadable, w, h, data; }
    var size := Rounds(w, h);
    ShortExactly(w, h, channels);
    if 3 * size > idata.Length { return PastBuffer, w, h, data; }
    how := Done;
    data := Pad(idata, size);
    ghost var pixels := Loaded(file).value.pixels;
    assert pixels == idata[..read];
  }

  lemma NotTooShort(w: Word, h: Word)
    ensures 3 * ((w as int) * (h as int)) < 0x1_0000_0000 ==> !TooShort(w, h, 3)
  {
  }

  /** A four-channel picture written and read back. Its fourth bytes are zero and
      every colour that was written is the same; all of them are written exactly
      when they number less than 2^32. */
  method FourChannels(data: array<Byte>, w: Word, h: Word)
    returns (ok: bool, how: Ending, w': Word, h': Word, data': array<Byte>)
    requires w > 0 && h > 0 && (Count(w, h).Some? ==> data.Length >= 4 * Count(w, h).value)
    ensures ok == Count(w, h).Some?
    ensures ok ==> w' == w && h' == h && how == if TooShort(w, h, 3) then PastBuffer else Done
    ensures ok && how == Done ==> data'.Length == 4 * Count(w, h).value
    ensures ok && how == Done ==> forall q :: 0 <= q < data'.Length ==>
              if q % 4 == 3 then data'[q] == 0
              else q / 4 * 3 + q % 4 < Written(w, h) ==> data'[q] == data[q]
    ensures ok ==> (Written(w, h) == 3 * ((w as int) * (h as int)) <==> 3 * ((w as int) * (h as int)) < 0x1_0000_0000)
    ensures ok && 3 * ((w as int) * (h as int)) < 0x1_0000_0000 ==>
              how == Done && data'.Length == 4 * ((w as int) * (h as int))
  {
    var file;
    ok, file := SavePPM4ub(data, w, h);
    how, w', h', data' := Unreadable, w, h, data;
    if ok {
      SizeOfCount(w, h);
      AllWritten(w, h);
      NotTooShort(w, h);
      how, w', h', data' := LoadPPM4ub(file);
      ghost var n, pixels := Count(w, h).value, Loaded(file).value.pixels;
      forall q | 0 <= q < 4 * n && q % 4 != 3 && q / 4 * 3 + q % 4 < Written(w, h)
        ensures pixels[q / 4 * 3 + q % 4] == data[q]
      {
        StrippedAt(data[..4 * n], n, q);
      }
    }
  }
}
