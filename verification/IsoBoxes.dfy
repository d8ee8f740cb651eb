/** The ISO base media file format as far as a reader needs it: boxes, tables of
    big-endian numbers, and a sample's length-prefixed units. */
module IsoBoxes {
  import opened Wrappers

  type byte = x: int | 0 <= x < 0x100

  type Bytes = seq<byte>

  const U16 := 0x1_0000
  const U32 := 0x1_0000_0000
  const U64 := 0x1_0000_0000_0000_0000

  // ---------- big-endian numbers ----------

  /** `to_be_bytes` after a cast to the width. */
  function Be16(n: nat): (b: Bytes)
    ensures |b| == 2
  {
    [n / 0x100 % 0x100, n % 0x100]
  }

  function Be32(n: nat): (b: Bytes)
    ensures |b| == 4
  {
    [n / 0x100_0000 % 0x100, n / 0x1_0000 % 0x100, n / 0x100 % 0x100, n % 0x100]
  }

  function Be64(n: nat): (b: Bytes)
    ensures |b| == 8
  {
    Be32(n / U32) + Be32(n % U32)
  }

  function Read16(b: Bytes, at: nat): nat
    requires at + 2 <= |b|
  {
    b[at] as int * 0x100 + b[at + 1] as int
  }

  function Read32(b: Bytes, at: nat): nat
    requires at + 4 <= |b|
  {
    b[at] as int * 0x100_0000 + b[at + 1] as int * 0x1_0000 + b[at + 2] as int * 0x100 + b[at + 3] as int
  }

  function Read64(b: Bytes, at: nat): nat
    requires at + 8 <= |b|
  {
    Read32(b, at) * U32 + Read32(b, at + 4)
  }

  lemma Digits(n: nat)
    requires n < U32
    ensures n == n / 0x100_0000 % 0x100 * 0x100_0000 + n / 0x1_0000 % 0x100 * 0x1_0000 + n / 0x100 % 0x100 * 0x100 + n % 0x100
  {
    assert n / 0x1_0000 == n / 0x100 / 0x100 && n / 0x100_0000 == n / 0x1_0000 / 0x100;
  }

  /** Reading finds what was written in the middle of anything. */
  lemma Read32Be(before: Bytes, n: nat, after: Bytes)
    requires n < U32
    ensures Read32(before + Be32(n) + after, |before|) == n
  {
    var b, w := before + Be32(n) + after, Be32(n);
    assert forall k :: 0 <= k < 4 ==> b[|before| + k] == w[k];
    assert b[|before|] == w[0];
    Digits(n);
  }

  lemma Read16Be(before: Bytes, n: nat, after: Bytes)
    requires n < U16
    ensures Read16(before + Be16(n) + after, |before|) == n
  {
    var b, w := before + Be16(n) + after, Be16(n);
    assert b[|before|] == w[0] && b[|before| + 1] == w[1];
  }

  lemma Read64Be(before: Bytes, n: nat, after: Bytes)
    requires n < U64
    ensures Read64(before + Be64(n) + after, |before|) == n
  {
    var hi, lo := Be32(n / U32), Be32(n % U32);
    assert before + Be64(n) + after == before + hi + (lo + after);
    Read32Be(before, n / U32, lo + after);
    assert before + Be64(n) + after == (before + hi) + lo + after;
    Read32Be(before + hi, n % U32, after);
  }

  // ---------- boxes ----------

  datatype Box = Box(kind: Bytes, body: Bytes)

  /** Size, kind and body; the size is cast to 32 bits. */
  function Print(box: Box): Bytes {
    Be32(8 + |box.body|) + box.kind + box.body
  }

  function PrintAll(boxes: seq<Box>): Bytes {
    if boxes == [] then [] else Print(boxes[0]) + PrintAll(boxes[1..])
  }

  /** A box of 64-bit size, whose 32-bit size reads 1. */
  function PrintLarge(box: Box): Bytes {
    Be32(1) + box.kind + Be64(16 + |box.body|) + box.body
  }

  /** Where a box's body begins and ends, if the box lies within `b` (section 4.2 of
      ISO/IEC 14496-12; a size of 0 runs to the end). */
  function Extent(b: Bytes): Option<(nat, nat)> {
    if |b| < 8 then None
    else
      var size := Read32(b, 0);
      if size == 0 then Some((8, |b|))
      else if size == 1 then
        if |b| >= 16 && 16 <= Read64(b, 8) <= |b| then Some((16, Read64(b, 8))) else None
      else if 8 <= size <= |b| then Some((8, size)) else None
  }

  /** The boxes that tile `b`. */
  function Parse(b: Bytes): (boxes: Option<seq<Box>>)
    decreases |b|
  {
    if b == [] then Some([])
    else if Extent(b).None? then None
    else
      var (from, to) := Extent(b).value;
      var rest := Parse(b[to..]);
      if rest.None? then None else Some([Box(b[4..8], b[from..to])] + rest.value)
  }

  /** The first box of a kind. */
  function Find(boxes: seq<Box>, kind: Bytes): Option<Bytes> {
    if boxes == [] then None
    else if boxes[0].kind == kind then Some(boxes[0].body)
    else Find(boxes[1..], kind)
  }

  lemma {:induction false} FindIs(boxes: seq<Box>, kind: Bytes, k: nat)
    requires k < |boxes| && boxes[k].kind == kind && forall j :: 0 <= j < k ==> boxes[j].kind != kind
    ensures Find(boxes, kind) == Some(boxes[k].body)
  {
    if k > 0 {
      FindIs(boxes[1..], kind, k - 1);
    }
  }

  predicate Small(box: Box) {
    |box.kind| == 4 && 8 + |box.body| < U32
  }

  lemma ExtentOfPrint(box: Box, rest: Bytes)
    requires Small(box)
    ensures Extent(Print(box) + rest) == Some((8, 8 + |box.body|))
    ensures (Print(box) + rest)[4..8] == box.kind
    ensures (Print(box) + rest)[8..8 + |box.body|] == box.body
    ensures (Print(box) + rest)[8 + |box.body|..] == rest
  {
    var b := Print(box) + rest;
    assert b == [] + Be32(8 + |box.body|) + (box.kind + box.body + rest);
    Read32Be([], 8 + |box.body|, box.kind + box.body + rest);
  }

  /** Whatever is printed small enough parses back. */
  lemma ParsePrint(box: Box, rest: Bytes)
    requires Small(box) && Parse(rest).Some?
    ensures Parse(Print(box) + rest) == Some([box] + Parse(rest).value)
  {
    ExtentOfPrint(box, rest);
  }

  lemma Assoc<T>(a: seq<T>, b: seq<T>, c: seq<T>)
    ensures a + b + c == a + (b + c)
  {
  }

  lemma {:induction false} ParsePrintAll(boxes: seq<Box>, rest: Bytes)
    requires (forall k :: 0 <= k < |boxes| ==> Small(boxes[k])) && Parse(rest).Some?
    ensures Parse(PrintAll(boxes) + rest) == Some(boxes + Parse(rest).value)
  {
    if boxes == [] {
      NothingBefore(rest);
      NothingBefore(Parse(rest).value);
    } else {
      var first, others := boxes[0], boxes[1..];
      ParsePrintAll(others, rest);
      ParsePrint(first, PrintAll(others) + rest);
      Assoc(Print(first), PrintAll(others), rest);
      Assoc([first], others, Parse(rest).value);
      assert boxes == [first] + others;
    }
  }

  lemma NothingBefore<T>(b: seq<T>)
    ensures [] + b == b
  {
  }

  lemma ExtentOfLarge(box: Box, rest: Bytes)
    requires |box.kind| == 4 && 16 + |box.body| < U64
    ensures Extent(PrintLarge(box) + rest) == Some((16, 16 + |box.body|))
  {
    var b, size := PrintLarge(box) + rest, Be64(16 + |box.body|);
    assert b == [] + Be32(1) + (box.kind + size + box.body + rest);
    Read32Be([], 1, box.kind + size + box.body + rest);
    assert b == (Be32(1) + box.kind) + size + (box.body + rest);
    Read64Be(Be32(1) + box.kind, 16 + |box.body|, box.body + rest);
  }

  lemma PartsOfLarge(box: Box, rest: Bytes)
    requires |box.kind| == 4
    ensures var b := PrintLarge(box) + rest;
      b[4..8] == box.kind && b[16..16 + |box.body|] == box.body && b[16 + |box.body|..] == rest
  {
  }

  lemma ParsePrintLarge(box: Box, rest: Bytes)
    requires |box.kind| == 4 && 16 + |box.body| < U64 && Parse(rest).Some?
    ensures Parse(PrintLarge(box) + rest) == Some([box] + Parse(rest).value)
  {
    ExtentOfLarge(box, rest);
    PartsOfLarge(box, rest);
  }

  lemma {:induction false} PrintAllLength(boxes: seq<Box>, k: nat)
    requires k < |boxes|
    ensures |PrintAll(boxes)| >= |Print(boxes[k])|
  {
    if k > 0 {
      PrintAllLength(boxes[1..], k - 1);
    }
  }

  // ---------- tables ----------

  function Words32(xs: seq<nat>): Bytes {
    if xs == [] then [] else Words32(xs[..|xs| - 1]) + Be32(xs[|xs| - 1])
  }

  function Words64(xs: seq<nat>): Bytes {
    if xs == [] then [] else Words64(xs[..|xs| - 1]) + Be64(xs[|xs| - 1])
  }

  lemma Shift(before: Bytes, init: Bytes, last: Bytes, after: Bytes)
    ensures before + (init + last) + after == before + init + (last + after)
    ensures before + (init + last) + after == (before + init) + last + after
  {
  }

  lemma NothingAfter(b: Bytes)
    ensures b + [] == b
  {
  }

  function ReadWords32(b: Bytes, at: nat, n: nat): seq<nat>
    requires at + 4 * n <= |b|
  {
    if n == 0 then [] else ReadWords32(b, at, n - 1) + [Read32(b, at + 4 * (n - 1))]
  }

  function Table32(b: Bytes, at: nat, n: nat): Option<seq<nat>> {
    if at + 4 * n > |b| then None else Some(ReadWords32(b, at, n))
  }

  lemma {:induction false} Words32Length(xs: seq<nat>)
    ensures |Words32(xs)| == 4 * |xs|
  {
    if xs != [] {
      Words32Length(xs[..|xs| - 1]);
    }
  }

  lemma ReadMore32(b: Bytes, at: nat, n: nat)
    requires at + 4 * (n + 1) <= |b|
    ensures ReadWords32(b, at, n + 1) == ReadWords32(b, at, n) + [Read32(b, at + 4 * n)]
  {
  }

  lemma OneMore32(before: Bytes, init: Bytes, n: nat, x: nat, after: Bytes, xs: seq<nat>)
    requires x < U32 && |init| == 4 * n && ReadWords32(before + init + (Be32(x) + after), |before|, n) == xs
    ensures ReadWords32(before + (init + Be32(x)) + after, |before|, n + 1) == xs + [x]
  {
    Shift(before, init, Be32(x), after);
    Read32Be(before + init, x, after);
    ReadMore32(before + init + (Be32(x) + after), |before|, n);
  }

  lemma {:induction false} ReadWords32Back(before: Bytes, xs: seq<nat>, after: Bytes)
    requires forall k :: 0 <= k < |xs| ==> xs[k] < U32
    ensures |Words32(xs)| == 4 * |xs| && ReadWords32(before + Words32(xs) + after, |before|, |xs|) == xs
  {
    Words32Length(xs);
    if xs != [] {
      var n := |xs| - 1;
      Words32Length(xs[..n]);
      ReadWords32Back(before, xs[..n], Be32(xs[n]) + after);
      OneMore32(before, Words32(xs[..n]), n, xs[n], after, xs[..n]);
      assert xs == xs[..n] + [xs[n]];
    }
  }

  /** A written table reads back. */
  lemma Table32Words(before: Bytes, xs: seq<nat>)
    requires forall k :: 0 <= k < |xs| ==> xs[k] < U32
    ensures Table32(before + Words32(xs), |before|, |xs|) == Some(xs)
  {
    ReadWords32Back(before, xs, []);
    NothingAfter(before + Words32(xs));
  }

  function ReadWords64(b: Bytes, at: nat, n: nat): seq<nat>
    requires at + 8 * n <= |b|
  {
    if n == 0 then [] else ReadWords64(b, at, n - 1) + [Read64(b, at + 8 * (n - 1))]
  }

  function Table64(b: Bytes, at: nat, n: nat): Option<seq<nat>> {
    if at + 8 * n > |b| then None else Some(ReadWords64(b, at, n))
  }

  lemma {:induction false} Words64Length(xs: seq<nat>)
    ensures |Words64(xs)| == 8 * |xs|
  {
    if xs != [] {
      Words64Length(xs[..|xs| - 1]);
    }
  }

  lemma ReadMore64(b: Bytes, at: nat, n: nat)
    requires at + 8 * (n + 1) <= |b|
    ensures ReadWords64(b, at, n + 1) == ReadWords64(b, at, n) + [Read64(b, at + 8 * n)]
  {
  }

  lemma OneMore64(before: Bytes, init: Bytes, n: nat, x: nat, after: Bytes, xs: seq<nat>)
    requires x < U64 && |init| == 8 * n && ReadWords64(before + init + (Be64(x) + after), |before|, n) == xs
    ensures ReadWords64(before + (init + Be64(x)) + after, |before|, n + 1) == xs + [x]
  {
    Shift(before, init, Be64(x), after);
    Read64Be(before + init, x, after);
    ReadMore64(before + init + (Be64(x) + after), |before|, n);
  }

  lemma {:induction false} ReadWords64Back(before: Bytes, xs: seq<nat>, after: Bytes)
    requires forall k :: 0 <= k < |xs| ==> xs[k] < U64
    ensures |Words64(xs)| == 8 * |xs| && ReadWords64(before + Words64(xs) + after, |before|, |xs|) == xs
  {
    Words64Length(xs);
    if xs != [] {
      var n := |xs| - 1;
      Words64Length(xs[..n]);
      ReadWords64Back(before, xs[..n], Be64(xs[n]) + after);
      OneMore64(before, Words64(xs[..n]), n, xs[n], after, xs[..n]);
      assert xs == xs[..n] + [xs[n]];
    }
  }

  /** A written table reads back. */
  lemma Table64Words(before: Bytes, xs: seq<nat>)
    requires forall k :: 0 <= k < |xs| ==> xs[k] < U64
    ensures Table64(before + Words64(xs), |before|, |xs|) == Some(xs)
  {
    ReadWords64Back(before, xs, []);
    NothingAfter(before + Words64(xs));
  }

  // ---------- a sample's units ----------

  /** Each unit behind its length in 4 bytes. */
  function Packed(units: seq<Bytes>): Bytes {
    if units == [] then [] else Packed(units[..|units| - 1]) + Be32(|units[|units| - 1]|) + units[|units| - 1]
  }

  function Unpack(b: Bytes): Option<seq<Bytes>>
    decreases |b|
  {
    if b == [] then Some([])
    else if |b| < 4 || 4 + Read32(b, 0) > |b| then None
    else
      var to := 4 + Read32(b, 0);
      var rest := Unpack(b[to..]);
      if rest.None? then None else Some([b[4..to]] + rest.value)
  }

  /** `Unpack`, unfolded once. */
  lemma UnpackStep(b: Bytes, to: nat)
    requires 4 <= to <= |b| && to == 4 + Read32(b, 0) && Unpack(b[to..]).Some?
    ensures Unpack(b) == Some([b[4..to]] + Unpack(b[to..]).value)
  {
  }

  lemma UnpackParts(head: Bytes, unit: Bytes, rest: Bytes)
    requires |head| == 4
    ensures (head + unit + rest)[4..4 + |unit|] == unit && (head + unit + rest)[4 + |unit|..] == rest
    ensures head + unit + rest == [] + head + (unit + rest)
  {
  }

  lemma UnpackOne(unit: Bytes, rest: Bytes)
    requires |unit| < U32 && Unpack(rest).Some?
    ensures Unpack(Be32(|unit|) + unit + rest) == Some([unit] + Unpack(rest).value)
  {
    UnpackParts(Be32(|unit|), unit, rest);
    Read32Be([], |unit|, unit + rest);
    UnpackStep(Be32(|unit|) + unit + rest, 4 + |unit|);
  }

  lemma {:induction false} UnpackPacked(units: seq<Bytes>, rest: Bytes)
    requires (forall k :: 0 <= k < |units| ==> |units[k]| < U32) && Unpack(rest).Some?
    ensures Unpack(Packed(units) + rest) == Some(units + Unpack(rest).value)
  {
    if units == [] {
      assert Packed(units) + rest == rest && units + Unpack(rest).value == Unpack(rest).value;
    } else {
      var n := |units| - 1;
      var init, last := units[..n], units[n];
      UnpackOne(last, rest);
      UnpackPacked(init, Be32(|last|) + last + rest);
      PackedTail(Packed(init), last, rest);
      Assoc(init, [last], Unpack(rest).value);
      assert units == init + [last];
    }
  }

  lemma PackedTail(init: Bytes, last: Bytes, rest: Bytes)
    ensures init + Be32(|last|) + last + rest == init + (Be32(|last|) + last + rest)
  {
  }
}
