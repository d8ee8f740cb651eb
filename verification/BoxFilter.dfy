/** The parallel box filter: each output pixel the rounded mean of a square block. */
module BoxFilter {
  import opened Wrappers
  import opened Arith

  /** The first raw index of a block's row `dy`. */
  function RowAt(sw: nat, f: nat, x: nat, y: nat, dy: nat): nat {
    4 * ((y * f + dy) * sw + x * f)
  }

  /** A channel summed over `k` pixels from a raw index. */
  function RowSum(s: seq<nat>, from: nat, k: nat, c: nat): nat
    requires k == 0 || from + 4 * (k - 1) + c < |s|
  {
    if k == 0 then 0 else RowSum(s, from, k - 1, c) + s[from + 4 * (k - 1) + c]
  }

  /** Whether the first `k` rows of a block are in the buffer. */
  predicate RowsIn(len: nat, sw: nat, f: nat, x: nat, y: nat, k: nat) {
    forall dy :: 0 <= dy < k ==> RowAt(sw, f, x, y, dy) + 4 * f <= len
  }

  /** A channel summed over the first `k` rows of a block. */
  function BlockSum(s: seq<nat>, sw: nat, f: nat, x: nat, y: nat, k: nat, c: nat): nat
    requires c < 4 && f > 0 && RowsIn(|s|, sw, f, x, y, k)
  {
    if k == 0 then 0
    else BlockSum(s, sw, f, x, y, k - 1, c) + RowSum(s, RowAt(sw, f, x, y, k - 1), f, c)
  }

  /** A sum over `n` divided, halves up. */
  function Rounded(sum: nat, n: nat): nat
    requires n > 0
  {
    (sum + n / 2) / n
  }

  /** The rounded mean of a block's channel. With a factor over a side a block's rows run on
      into the next rows of the picture. */
  function Mean(s: seq<nat>, sw: nat, f: nat, x: nat, y: nat, c: nat): nat
    requires c < 4 && f > 0 && RowsIn(|s|, sw, f, x, y, f)
  {
    MulPositive(f, f);
    Rounded(BlockSum(s, sw, f, x, y, f, c), f * f)
  }

  function Small(side: nat, f: nat): nat
    requires f > 0
  {
    Max(side / f, 1)
  }

  /** The source buffer, and a factor that stays inside it. */
  predicate Fits(s: seq<nat>, sw: nat, sh: nat, f: nat) {
    && 0 < f && 0 < sw && 0 < sh && |s| == 4 * (sw * sh)
    && forall x, y :: 0 <= x < Small(sw, f) && 0 <= y < Small(sh, f) ==> RowsIn(|s|, sw, f, x, y, f)
  }

  /** The output buffer's value at a raw index: three means and an opaque alpha. */
  function Channel(s: seq<nat>, sw: nat, sh: nat, f: nat, i: nat): nat
    requires Fits(s, sw, sh, f) && i < 4 * (Small(sw, f) * Small(sh, f))
  {
    if i % 4 == 3 then 255
    else
      Coordinates(i / 4, Small(sw, f), Small(sh, f));
      Mean(s, sw, f, i / 4 % Small(sw, f), i / 4 / Small(sw, f), i % 4)
  }

  lemma MulPositive(a: nat, b: nat)
    requires a > 0 && b > 0
    ensures a * b > 0
  {
  }

  lemma Coordinates(p: nat, dw: nat, dh: nat)
    requires dw > 0 && p < dw * dh
    ensures p / dw < dh
  {
    if p / dw >= dh {
      MulMono(dw, dh, p / dw);
    }
  }

  // ---------- the loops ----------

  /** One output pixel's three sums, over the block's rows and columns. */
  method Accumulate(s: seq<nat>, sw: nat, f: nat, x: nat, y: nat) returns (r: nat, g: nat, b: nat)
    requires f > 0 && RowsIn(|s|, sw, f, x, y, f)
    ensures r == BlockSum(s, sw, f, x, y, f, 0) && g == BlockSum(s, sw, f, x, y, f, 1) && b == BlockSum(s, sw, f, x, y, f, 2)
  {
    r, g, b := 0, 0, 0;
    for dy := 0 to f
      invariant RowsIn(|s|, sw, f, x, y, dy)
      invariant r == BlockSum(s, sw, f, x, y, dy, 0)
      invariant g == BlockSum(s, sw, f, x, y, dy, 1)
      invariant b == BlockSum(s, sw, f, x, y, dy, 2)
    {
      var row := RowAt(sw, f, x, y, dy);
      var i, r0, g0, b0 := row, r, g, b;
      for k := 0 to f
        invariant i == row + 4 * k
        invariant r == r0 + RowSum(s, row, k, 0) && g == g0 + RowSum(s, row, k, 1) && b == b0 + RowSum(s, row, k, 2)
      {
        r, g, b := r + s[i], g + s[i + 1], b + s[i + 2];
        i := i + 4;
      }
    }
  }

  /** Pixels `from` to `to` of the output are done, and nothing else was touched. */
  twostate predicate Done(s: seq<nat>, sw: nat, sh: nat, f: nat, out: array<nat>, from: nat, to: nat)
    requires Fits(s, sw, sh, f) && out.Length == 4 * (Small(sw, f) * Small(sh, f))
    requires from <= to <= Small(sw, f) * Small(sh, f)
    reads out
  {
    && (forall i :: 4 * from <= i < 4 * to ==> out[i] == Channel(s, sw, sh, f, i))
    && (forall i :: 0 <= i < 4 * from || 4 * to <= i < out.Length ==> out[i] == old(out[i]))
  }

  lemma PixelIndex(x: nat, y: nat, dw: nat, dh: nat)
    requires x < dw && y < dh
    ensures y * dw + x < dw * dh && (y + 1) * dw <= dw * dh
    ensures (y * dw + x) / dw == y && (y * dw + x) % dw == x
  {
    MulMono(dw, y + 1, dh);
    Quotient(y * dw + x, dw, y, x);
  }

  lemma ChannelIs(s: seq<nat>, sw: nat, sh: nat, f: nat, x: nat, y: nat, p: nat, c: nat)
    requires Fits(s, sw, sh, f) && x < Small(sw, f) && y < Small(sh, f) && c < 4
    requires p == y * Small(sw, f) + x < Small(sw, f) * Small(sh, f)
    ensures Channel(s, sw, sh, f, 4 * p + c) == if c == 3 then 255 else Mean(s, sw, f, x, y, c)
  {
    PixelIndex(x, y, Small(sw, f), Small(sh, f));
    assert (4 * p + c) / 4 == p && (4 * p + c) % 4 == c;
  }

  lemma PixelChannels(s: seq<nat>, sw: nat, sh: nat, f: nat, x: nat, y: nat, p: nat)
    requires Fits(s, sw, sh, f) && x < Small(sw, f) && y < Small(sh, f)
    requires p == y * Small(sw, f) + x < Small(sw, f) * Small(sh, f)
    ensures Channel(s, sw, sh, f, 4 * p) == Mean(s, sw, f, x, y, 0)
    ensures Channel(s, sw, sh, f, 4 * p + 1) == Mean(s, sw, f, x, y, 1)
    ensures Channel(s, sw, sh, f, 4 * p + 2) == Mean(s, sw, f, x, y, 2)
    ensures Channel(s, sw, sh, f, 4 * p + 3) == 255
  {
    ChannelIs(s, sw, sh, f, x, y, p, 0);
    ChannelIs(s, sw, sh, f, x, y, p, 1);
    ChannelIs(s, sw, sh, f, x, y, p, 2);
    ChannelIs(s, sw, sh, f, x, y, p, 3);
  }

  /** One output pixel's rounded means. */
  method BlockMeans(s: seq<nat>, sw: nat, f: nat, x: nat, y: nat) returns (r: nat, g: nat, b: nat)
    requires f > 0 && RowsIn(|s|, sw, f, x, y, f)
    ensures r == Mean(s, sw, f, x, y, 0) && g == Mean(s, sw, f, x, y, 1) && b == Mean(s, sw, f, x, y, 2)
  {
    var n := f * f;
    MulPositive(f, f);
    r, g, b := Accumulate(s, sw, f, x, y);
    r, g, b := Rounded(r, n), Rounded(g, n), Rounded(b, n);
  }

  /** One output pixel. */
  method FilterPixel(s: seq<nat>, sw: nat, sh: nat, f: nat, out: array<nat>, x: nat, y: nat, p: nat)
    requires Fits(s, sw, sh, f) && out.Length == 4 * (Small(sw, f) * Small(sh, f))
    requires x < Small(sw, f) && y < Small(sh, f) && p == y * Small(sw, f) + x < Small(sw, f) * Small(sh, f)
    modifies out
    ensures Done(s, sw, sh, f, out, p, p + 1)
  {
    var r, g, b := BlockMeans(s, sw, f, x, y);
    PixelChannels(s, sw, sh, f, x, y, p);
    var o := 4 * p;
    out[o], out[o + 1], out[o + 2], out[o + 3] := r, g, b, 255;
  }

  /** A thread's chunk: `rows` whole rows of the output from row `y0`. */
  method FilterChunk(s: seq<nat>, sw: nat, sh: nat, f: nat, out: array<nat>, y0: nat, rows: nat)
    requires Fits(s, sw, sh, f) && out.Length == 4 * (Small(sw, f) * Small(sh, f)) && y0 + rows <= Small(sh, f)
    modifies out
    ensures y0 * Small(sw, f) <= (y0 + rows) * Small(sw, f) <= Small(sw, f) * Small(sh, f)
    ensures Done(s, sw, sh, f, out, y0 * Small(sw, f), (y0 + rows) * Small(sw, f))
  {
    var dw := Small(sw, f);
    RowsWithin(y0, y0 + rows, dw, Small(sh, f));
    ghost var first := y0 * dw;
    for ry := 0 to rows
      invariant first <= (y0 + ry) * dw <= dw * Small(sh, f)
      invariant Done(s, sw, sh, f, out, first, (y0 + ry) * dw)
    {
      var y := y0 + ry;
      RowsWithin(y, y + 1, dw, Small(sh, f));
      assert (y + 1) * dw == y * dw + dw;
      for x := 0 to dw
        invariant Done(s, sw, sh, f, out, first, y * dw + x)
      {
        FilterPixel(s, sw, sh, f, out, x, y, y * dw + x);
      }
    }
  }

  lemma RowsWithin(a: nat, b: nat, dw: nat, dh: nat)
    requires a <= b <= dh
    ensures a * dw <= b * dw <= dw * dh
  {
    MulMono(dw, a, b);
    MulMono(dw, b, dh);
  }

  // ---------- the threads ----------

  /** How many rows each thread gets. */
  function RowsPer(dh: nat, parallelism: nat): (rows: nat)
    requires dh > 0
    ensures rows > 0
  {
    var threads := Max(Min(parallelism, dh), 1);
    (dh + threads - 1) / threads
  }

  /** How many chunks of whole rows that makes; the last one may be short. */
  function Chunks(dh: nat, rowsPer: nat): nat
    requires rowsPer > 0
  {
    (dh + rowsPer - 1) / rowsPer
  }

  /** The row a raw output index falls in. */
  function RowOf(i: nat, dw: nat): nat
    requires dw > 0
  {
    i / 4 / dw
  }

  /** The chunk a raw output index falls in. */
  function ChunkOf(i: nat, dw: nat, rowsPer: nat): nat
    requires dw > 0 && rowsPer > 0
  {
    RowOf(i, dw) / rowsPer
  }

  /** Some order of the chunks, each of them once. */
  predicate Schedule(order: seq<nat>, chunks: nat) {
    && (forall a, b :: 0 <= a < b < |order| ==> order[a] != order[b])
    && (forall k :: 0 <= k < |order| ==> order[k] < chunks)
    && (forall k :: 0 <= k < chunks ==> k in order)
  }

  /** A quotient is a range of numerators. */
  lemma DivRange(n: nat, d: nat, q: nat)
    requires d > 0
    ensures n / d == q <==> d * q <= n < d * (q + 1)
    ensures n / d >= q <==> d * q <= n
  {
    if n / d > q {
      MulMono(d, q + 1, n / d);
    } else if n / d < q {
      MulMono(d, n / d + 1, q);
    }
  }

  lemma StartsInside(dh: nat, rowsPer: nat, chunk: nat)
    requires rowsPer > 0 && chunk < Chunks(dh, rowsPer)
    ensures rowsPer * chunk < dh
  {
    DivRange(dh + rowsPer - 1, rowsPer, chunk + 1);
  }

  lemma ChunkBelow(y: nat, dh: nat, rowsPer: nat)
    requires rowsPer > 0 && y < dh
    ensures y / rowsPer < Chunks(dh, rowsPer)
  {
    DivRange(y, rowsPer, y / rowsPer);
    DivRange(dh + rowsPer - 1, rowsPer, y / rowsPer + 1);
  }

  /** The rows of a chunk, which are all an index in it can be in. */
  lemma RowInChunk(y: nat, dh: nat, rowsPer: nat, chunk: nat)
    requires rowsPer > 0 && y < dh
    ensures y / rowsPer == chunk <==> rowsPer * chunk <= y < Min(rowsPer * chunk + rowsPer, dh)
  {
    DivRange(y, rowsPer, chunk);
    assert rowsPer * (chunk + 1) == rowsPer * chunk + rowsPer;
  }

  lemma IndexInRows(i: nat, dw: nat, from: nat, to: nat)
    requires dw > 0
    ensures from <= i / 4 / dw < to <==> 4 * (from * dw) <= i < 4 * (to * dw)
  {
    DivRange(i / 4, dw, from);
    DivRange(i / 4, dw, to);
    assert dw * from == from * dw && dw * to == to * dw;
  }

  lemma IndexInChunk(i: nat, dw: nat, dh: nat, rowsPer: nat, chunk: nat, from: nat, to: nat)
    requires dw > 0 && rowsPer > 0 && i < 4 * (dw * dh)
    requires from == rowsPer * chunk && to == Min(from + rowsPer, dh)
    ensures ChunkOf(i, dw, rowsPer) == chunk <==> 4 * (from * dw) <= i < 4 * (to * dw)
    ensures ChunkOf(i, dw, rowsPer) < Chunks(dh, rowsPer)
  {
    Coordinates(i / 4, dw, dh);
    RowInChunk(i / 4 / dw, dh, rowsPer, chunk);
    IndexInRows(i, dw, from, to);
    ChunkBelow(i / 4 / dw, dh, rowsPer);
  }

  /** One chunk, known by its number: it writes the indices that fall in it and no other. */
  method FilterNumbered(s: seq<nat>, sw: nat, sh: nat, f: nat, out: array<nat>, rowsPer: nat, chunk: nat)
    requires Fits(s, sw, sh, f) && out.Length == 4 * (Small(sw, f) * Small(sh, f))
    requires rowsPer > 0 && chunk < Chunks(Small(sh, f), rowsPer)
    modifies out
    ensures forall i :: 0 <= i < out.Length ==>
      out[i] == if ChunkOf(i, Small(sw, f), rowsPer) == chunk then Channel(s, sw, sh, f, i) else old(out[i])
  {
    var dw, dh := Small(sw, f), Small(sh, f);
    StartsInside(dh, rowsPer, chunk);
    var y0 := rowsPer * chunk;
    var rows := Min(rowsPer, dh - y0);
    FilterChunk(s, sw, sh, f, out, y0, rows);
    forall i | 0 <= i < out.Length
      ensures out[i] == if ChunkOf(i, dw, rowsPer) == chunk then Channel(s, sw, sh, f, i) else old(out[i])
    {
      IndexInChunk(i, dw, dh, rowsPer, chunk, y0, y0 + rows);
    }
  }

  /** The chunks in any order: those run so far are done, the others untouched. */
  method FilterInOrder(s: seq<nat>, sw: nat, sh: nat, f: nat, out: array<nat>, rowsPer: nat, order: seq<nat>)
    requires Fits(s, sw, sh, f) && out.Length == 4 * (Small(sw, f) * Small(sh, f))
    requires rowsPer > 0 && Schedule(order, Chunks(Small(sh, f), rowsPer))
    modifies out
    ensures forall i :: 0 <= i < out.Length ==> out[i] == Channel(s, sw, sh, f, i)
  {
    var dw := Small(sw, f);
    for k := 0 to |order|
      invariant forall i :: 0 <= i < out.Length ==>
        out[i] == if ChunkOf(i, dw, rowsPer) in order[..k] then Channel(s, sw, sh, f, i) else old(out[i])
    {
      assert order[..k + 1] == order[..k] + [order[k]];
      assert order[k] !in order[..k];
      FilterNumbered(s, sw, sh, f, out, rowsPer, order[k]);
    }
    assert order[..|order|] == order;
    forall i | 0 <= i < out.Length ensures ChunkOf(i, dw, rowsPer) in order {
      IndexInChunk(i, dw, Small(sh, f), rowsPer, 0, 0, Min(rowsPer, Small(sh, f)));
    }
  }

  /** The filter over any number of threads, whatever order they come to run in. */
  method DownscaleBox(s: seq<nat>, sw: nat, sh: nat, f: nat, parallelism: nat, order: seq<nat>) returns (out: array<nat>)
    requires f > 1 && Fits(s, sw, sh, f)
    requires Schedule(order, Chunks(Small(sh, f), RowsPer(Small(sh, f), parallelism)))
    ensures out.Length == 4 * (Small(sw, f) * Small(sh, f))
    ensures forall i :: 0 <= i < out.Length ==> out[i] == Channel(s, sw, sh, f, i)
  {
    var dw, dh := Small(sw, f), Small(sh, f);
    out := new nat[4 * (dw * dh)](_ => 0);
    FilterInOrder(s, sw, sh, f, out, RowsPer(dh, parallelism), order);
  }

  // ---------- staying in the buffer ----------

  /** Where the last row of the last block begins. */
  function LastRow(sw: nat, sh: nat, f: nat): int
    requires f > 0
  {
    RowAt(sw, f, Small(sw, f) - 1, Small(sh, f) - 1, f - 1)
  }

  /** No block row begins behind the last one. */
  lemma RowsUpToLast(sw: nat, sh: nat, f: nat, x: nat, y: nat, dy: nat)
    requires f > 0 && x < Small(sw, f) && y < Small(sh, f) && dy < f
    ensures RowAt(sw, f, x, y, dy) <= LastRow(sw, sh, f)
  {
    MulMono(f, y, Small(sh, f) - 1);
    MulMono(f, x, Small(sw, f) - 1);
    LaterRow(sw, y * f + dy, (Small(sh, f) - 1) * f + (f - 1));
  }

  lemma LaterRow(sw: nat, a: nat, b: nat)
    requires a <= b
    ensures a * sw <= b * sw
  {
    MulMono(sw, a, b);
  }

  /** The filter stays in the buffer exactly when the last row of the last block does. */
  lemma FitsExactly(s: seq<nat>, sw: nat, sh: nat, f: nat)
    requires 0 < f && 0 < sw && 0 < sh && |s| == 4 * (sw * sh)
    ensures Fits(s, sw, sh, f) <==> LastRow(sw, sh, f) + 4 * f <= |s|
  {
    var dw, dh := Small(sw, f), Small(sh, f);
    if LastRow(sw, sh, f) + 4 * f <= |s| {
      forall x, y | 0 <= x < dw && 0 <= y < dh ensures RowsIn(|s|, sw, f, x, y, f) {
        forall dy | 0 <= dy < f ensures RowAt(sw, f, x, y, dy) + 4 * f <= |s| {
          RowsUpToLast(sw, sh, f, x, y, dy);
        }
      }
    } else {
      LeavesBuffer(|s|, sw, sh, f);
    }
  }

  lemma LeavesBuffer(len: nat, sw: nat, sh: nat, f: nat)
    requires 0 < f && LastRow(sw, sh, f) + 4 * f > len
    ensures !RowsIn(len, sw, f, Small(sw, f) - 1, Small(sh, f) - 1, f)
  {
  }

  /** Every factor at most both sides stays in the buffer. */
  lemma SmallFactorFits(s: seq<nat>, sw: nat, sh: nat, f: nat)
    requires 0 < f <= sw && f <= sh && |s| == 4 * (sw * sh)
    ensures Fits(s, sw, sh, f)
  {
    SideWithin(sw, f);
    SideWithin(sh, f);
    Corner(Small(sw, f), Small(sh, f), f, sw, sh);
    FitsExactly(s, sw, sh, f);
  }

  lemma Corner(dw: nat, dh: nat, f: nat, sw: nat, sh: nat)
    requires dw > 0 && dh > 0 && f > 0 && dw * f <= sw && dh * f <= sh
    ensures RowAt(sw, f, dw - 1, dh - 1, f - 1) + 4 * f <= 4 * (sw * sh)
  {
    var last := (dh - 1) * f + (f - 1);
    assert (dw - 1) * f + f == dw * f && (dh - 1) * f + f == dh * f;
    MulMono(sw, last + 1, sh);
    assert sw * (last + 1) == last * sw + sw;
  }

  lemma SideWithin(side: nat, f: nat)
    requires 0 < f <= side
    ensures Small(side, f) * f <= side
  {
    assert side / f >= 1 by {
      if side / f < 1 {
        Quotient(side, f, 0, side);
      }
    }
  }

  /** Along a side every block is inside. */
  predicate BlocksInside(side: nat, f: nat)
    requires f > 0
  {
    forall x :: 0 <= x < Small(side, f) ==> BlockEnd(x, f) <= side
  }

  function BlockEnd(x: nat, f: nat): nat {
    f * (x + 1)
  }

  lemma SideExactly(side: nat, f: nat)
    requires f > 0
    ensures BlocksInside(side, f) <==> f <= side
  {
    if f <= side {
      SideWithin(side, f);
      forall x | 0 <= x < Small(side, f) ensures BlockEnd(x, f) <= side {
        MulMono(f, x + 1, Small(side, f));
      }
    } else {
      assert BlockEnd(0, f) > side;
    }
  }

  /** What is averaged are blocks of the picture exactly for factors at most both sides. */
  lemma BlocksExactly(sw: nat, sh: nat, f: nat)
    requires f > 0
    ensures BlocksInside(sw, f) && BlocksInside(sh, f) <==> f <= sw && f <= sh
  {
    SideExactly(sw, f);
    SideExactly(sh, f);
  }

  /** A factor over a side can leave the buffer: the thumbnail of a narrow, tall picture. */
  lemma NarrowPictureLeaves(s: seq<nat>)
    requires |s| == 4 * (10 * 2000)
    ensures !Fits(s, 10, 2000, 125)
  {
    FitsExactly(s, 10, 2000, 125);
  }

  // ---------- the mean ----------

  /** A block's channel values lie between two levels. */
  predicate BlockWithin(s: seq<nat>, sw: nat, f: nat, x: nat, y: nat, c: nat, lo: nat, hi: nat)
    requires c < 4 && f > 0 && RowsIn(|s|, sw, f, x, y, f)
  {
    forall dy, k :: 0 <= dy < f && 0 <= k < f ==> InRow(s, RowAt(sw, f, x, y, dy), k, c, lo, hi)
  }

  predicate InRow(s: seq<nat>, from: nat, k: nat, c: nat, lo: nat, hi: nat) {
    from + 4 * k + c < |s| ==> lo <= s[from + 4 * k + c] <= hi
  }

  lemma {:induction false} RowWithin(s: seq<nat>, from: nat, n: nat, c: nat, lo: nat, hi: nat)
    requires n == 0 || from + 4 * (n - 1) + c < |s|
    requires forall k :: 0 <= k < n ==> InRow(s, from, k, c, lo, hi)
    ensures lo * n <= RowSum(s, from, n, c) <= hi * n
  {
    if n > 0 {
      RowWithin(s, from, n - 1, c, lo, hi);
      assert InRow(s, from, n - 1, c, lo, hi);
      assert lo * n == lo * (n - 1) + lo && hi * n == hi * (n - 1) + hi;
    }
  }

  lemma {:induction false} BlockSumWithin(s: seq<nat>, sw: nat, f: nat, x: nat, y: nat, n: nat, c: nat, lo: nat, hi: nat,
                                          least: nat, most: nat)
    requires c < 4 && f > 0 && RowsIn(|s|, sw, f, x, y, f) && n <= f && BlockWithin(s, sw, f, x, y, c, lo, hi)
    requires least == lo * f && most == hi * f
    ensures RowsIn(|s|, sw, f, x, y, n) && least * n <= BlockSum(s, sw, f, x, y, n, c) <= most * n
  {
    if n > 0 {
      BlockSumWithin(s, sw, f, x, y, n - 1, c, lo, hi, least, most);
      BlockRowWithin(s, sw, f, x, y, n - 1, c, lo, hi);
      OneMore(least, n);
      OneMore(most, n);
    }
  }

  lemma OneMore(a: nat, n: nat)
    requires n > 0
    ensures a * n == a * (n - 1) + a
  {
  }

  lemma BlockRowWithin(s: seq<nat>, sw: nat, f: nat, x: nat, y: nat, dy: nat, c: nat, lo: nat, hi: nat)
    requires c < 4 && f > 0 && RowsIn(|s|, sw, f, x, y, f) && dy < f && BlockWithin(s, sw, f, x, y, c, lo, hi)
    ensures RowAt(sw, f, x, y, dy) + 4 * f <= |s|
    ensures lo * f <= RowSum(s, RowAt(sw, f, x, y, dy), f, c) <= hi * f
  {
    RowWithin(s, RowAt(sw, f, x, y, dy), f, c, lo, hi);
  }

  lemma RoundedWithin(sum: nat, n: nat, lo: nat, hi: nat)
    requires n > 0 && lo * n <= sum <= hi * n
    ensures lo <= Rounded(sum, n) <= hi
  {
    var q := Rounded(sum, n);
    if q < lo {
      MulMono(n, q + 1, lo);
    } else if q > hi {
      MulMono(n, hi + 1, q);
    }
  }

  /** Each output channel lies between its block's least and greatest value. */
  lemma MeanBetween(s: seq<nat>, sw: nat, f: nat, x: nat, y: nat, c: nat, lo: nat, hi: nat)
    requires c < 4 && f > 0 && RowsIn(|s|, sw, f, x, y, f) && BlockWithin(s, sw, f, x, y, c, lo, hi)
    ensures lo <= Mean(s, sw, f, x, y, c) <= hi
  {
    BlockSumWithin(s, sw, f, x, y, f, c, lo, hi, lo * f, hi * f);
    MulPositive(f, f);
    Square(lo, f);
    Square(hi, f);
    RoundedWithin(BlockSum(s, sw, f, x, y, f, c), f * f, lo, hi);
  }

  lemma Square(a: nat, f: nat)
    ensures a * f * f == a * (f * f)
  {
  }

  /** One sample of a row, changed: the row's sum changes by as much if it is one of the row's
      pixels, in this channel. */
  lemma {:induction false} RowSample(s: seq<nat>, from: nat, k: nat, c: nat, p: nat, d: nat, v: nat)
    requires k == 0 || 4 * from + 4 * (k - 1) + c < |s|
    requires c < 4 && d < 4 && 4 * p + d < |s|
    ensures RowSum(s[4 * p + d := v], 4 * from, k, c) - RowSum(s, 4 * from, k, c)
      == if d == c && from <= p < from + k then v - s[4 * p + d] else 0
  {
    if k > 0 {
      RowSample(s, from, k - 1, c, p, d, v);
    }
  }

  /** Whether the pixel `col` of row `row` is among the first `n` rows of the block. */
  predicate InBlock(f: nat, x: nat, y: nat, n: nat, row: nat, col: nat) {
    x * f <= col < x * f + f && y * f <= row < y * f + n
  }

  /** The pixel is in a block's row when it is one of that picture row's pixels and between
      the block's columns. */
  lemma PixelInRow(sw: nat, at: nat, left: nat, f: nat, row: nat, col: nat)
    requires left + f <= sw && col < sw
    ensures at * sw + left <= row * sw + col < at * sw + left + f <==> row == at && left <= col < left + f
  {
    if row < at {
      MulMono(sw, row + 1, at);
    } else if row > at {
      MulMono(sw, at + 1, row);
    }
  }

  lemma {:induction false} RowsSample(s: seq<nat>, sw: nat, f: nat, x: nat, y: nat, n: nat, c: nat,
                                      row: nat, col: nat, d: nat, v: nat)
    requires c < 4 && d < 4 && f > 0 && RowsIn(|s|, sw, f, x, y, n) && x * f + f <= sw
    requires col < sw && 4 * (row * sw + col) + d < |s|
    ensures BlockSum(s[4 * (row * sw + col) + d := v], sw, f, x, y, n, c) - BlockSum(s, sw, f, x, y, n, c)
      == if d == c && InBlock(f, x, y, n, row, col) then v - s[4 * (row * sw + col) + d] else 0
  {
    if n > 0 {
      RowsSample(s, sw, f, x, y, n - 1, c, row, col, d, v);
      assert RowAt(sw, f, x, y, n - 1) + 4 * f <= |s|;
      RowSample(s, (y * f + (n - 1)) * sw + x * f, f, c, row * sw + col, d, v);
      PixelInRow(sw, y * f + (n - 1), x * f, f, row, col);
    }
  }

  /** In a block inside the picture's width every pixel counts once, in its own channel, and
      no other pixel counts: a sum changes by what the sample at (`col`, `row`) changes by. */
  lemma EachSampleOnce(s: seq<nat>, sw: nat, f: nat, x: nat, y: nat, c: nat, row: nat, col: nat, d: nat, v: nat)
    requires c < 4 && d < 4 && f > 0 && RowsIn(|s|, sw, f, x, y, f) && x * f + f <= sw
    requires col < sw && 4 * (row * sw + col) + d < |s|
    ensures BlockSum(s[4 * (row * sw + col) + d := v], sw, f, x, y, f, c) - BlockSum(s, sw, f, x, y, f, c)
      == if d == c && x * f <= col < (x + 1) * f && y * f <= row < (y + 1) * f then v - s[4 * (row * sw + col) + d] else 0
  {
    RowsSample(s, sw, f, x, y, f, c, row, col, d, v);
    NextSquare(x, f);
    NextSquare(y, f);
  }

  lemma NextSquare(a: nat, f: nat)
    ensures (a + 1) * f == a * f + f
  {
  }

  /** Rounding is to the nearest: at most half a level off the true mean. */
  lemma MeanNearest(sum: nat, n: nat)
    requires n > 0
    ensures Abs(2 * (n * Rounded(sum, n) - sum)) <= n
  {
    var q := Rounded(sum, n);
    assert sum + n / 2 == n * q + (sum + n / 2) % n;
  }

  /** For pictures up to 65535 pixels a side and thumbnails of at least 16, the 32-bit sums
      do not overflow. */
  lemma SumsFit(s: seq<nat>, sw: nat, f: nat, x: nat, y: nat, c: nat)
    requires c < 4 && 0 < f <= 4096 && RowsIn(|s|, sw, f, x, y, f) && BlockWithin(s, sw, f, x, y, c, 0, 255)
    ensures BlockSum(s, sw, f, x, y, f, c) + f * f / 2 < 0x1_0000_0000
  {
    BlockSumWithin(s, sw, f, x, y, f, c, 0, 255, 0, 255 * f);
    MulMono(f, f, 4096);
    MulMono(4096, f, 4096);
    Square(255, f);
  }

  /** The least factor for which neither side, divided, exceeds the bound. */
  method PlanFactor(sw: nat, sh: nat, maxSide: nat) returns (f: nat)
    ensures 0 < f && Max(sw, sh) / f <= Max(maxSide, 16)
    ensures forall g :: 0 < g < f ==> Max(sw, sh) / g > Max(maxSide, 16)
    ensures Max(sw, sh) <= 65535 ==> f <= 4096
  {
    var longest, bound := Max(sw, sh), Max(maxSide, 16);
    f := 1;
    while longest / f > bound
      invariant 0 < f && forall g :: 0 < g < f ==> longest / g > bound
      invariant longest <= 65535 ==> f <= 4096
      decreases longest + 1 - f
    {
      FactorBound(longest, f);
      f := f + 1;
    }
  }

  lemma FactorBound(longest: nat, f: nat)
    requires 0 < f && longest / f > 16
    ensures 17 * f <= longest
  {
    MulMono(f, 17, longest / f);
  }
}
