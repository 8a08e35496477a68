/** The kernels that quantize, reduce and dequantize rows inside the packed buffer, one block of columns at a time. */
module Kernels {

  import opened Layout
  import opened Quantization

  /** One byte of the buffer: zeroed, the first or a later byte of a scale, or a quantized value. */
  datatype Cell = Zero | ScaleHead(value: real) | ScaleTail | Quant(q: int)

  function LoadScale(buf: seq<Cell>, a: nat): real
    requires a + ScaleBytes <= |buf|
  {
    if buf[a].ScaleHead? && buf[a + 1].ScaleTail? && buf[a + 2].ScaleTail? && buf[a + 3].ScaleTail? then
      buf[a].value
    else
      0.0
  }

  function LoadQuant(cell: Cell): int {
    if cell.Quant? then cell.q else 0
  }

  /** The row stored at address `a`. */
  function RowAt(buf: seq<Cell>, a: nat, cols: nat): (r: Row)
    requires a + ScaleBytes + cols <= |buf|
    ensures |r.quants| == cols
  {
    Row(LoadScale(buf, a), seq(cols, c requires 0 <= c < cols => LoadQuant(buf[a + ScaleBytes + c])))
  }

  ghost predicate SameOutside(before: seq<Cell>, after: seq<Cell>, lo: nat, hi: nat) {
    |before| == |after| && forall x :: 0 <= x < |before| && !(lo <= x < hi) ==> after[x] == before[x]
  }

  lemma RowKept(before: seq<Cell>, after: seq<Cell>, lo: nat, hi: nat, a: nat, cols: nat)
    requires SameOutside(before, after, lo, hi)
    requires a + ScaleBytes + cols <= |before| && (a + ScaleBytes + cols <= lo || hi <= a)
    ensures RowAt(after, a, cols) == RowAt(before, a, cols)
  {
    forall c | 0 <= c < cols
      ensures RowAt(after, a, cols).quants[c] == RowAt(before, a, cols).quants[c]
    {
    }
  }

  // ----- Blocks of columns

  function Upto(n: nat, limit: nat): nat {
    if n < limit then n else limit
  }

  /** A masked load: columns past the end read 0. */
  function Block(x: seq<real>, off: nat, block: nat): (r: seq<real>)
    ensures |r| == block
  {
    seq(block, l requires 0 <= l < block => if off + l < |x| then x[off + l] else 0.0)
  }

  lemma {:induction false} RowMaxIs(x: seq<real>, m: real)
    requires m >= 0.0 && forall c :: 0 <= c < |x| ==> Abs(x[c]) <= m
    requires m == 0.0 || exists c :: 0 <= c < |x| && Abs(x[c]) == m
    ensures RowMax(x) == m
  {
    RowMaxIsLeast(x, m);
    if m != 0.0 {
      var c :| 0 <= c < |x| && Abs(x[c]) == m;
      RowMaxBounds(x, c);
    }
  }

  lemma {:induction false} RowMaxOfConcatenation(x: seq<real>, y: seq<real>)
    ensures RowMax(x + y) == Max(RowMax(x), RowMax(y))
  {
    if y == [] {
      assert x + y == x;
    } else {
      RowMaxOfConcatenation(x, y[..|y| - 1]);
      assert (x + y)[..|x + y| - 1] == x + y[..|y| - 1];
    }
  }

  /** Taking a whole block at once extends the maximum of a prefix to the next prefix. */
  lemma BlockExtendsMax(x: seq<real>, off: nat, block: nat)
    requires off < |x|
    ensures RowMax(x[..Upto(off + block, |x|)]) == Max(RowMax(x[..off]), RowMax(Block(x, off, block)))
  {
    var end := Upto(off + block, |x|);
    var zeros := seq(block - (end - off), _ => 0.0);
    assert Block(x, off, block) == x[off..end] + zeros;
    RowMaxIs(zeros, 0.0);
    RowMaxOfConcatenation(x[off..end], zeros);
    RowMaxOfConcatenation(x[..off], x[off..end]);
    assert x[..end] == x[..off] + x[off..end];
  }

  /** One maximum per lane, as the quantizing kernel keeps. */
  function LaneMaxima(x: seq<real>, maxima: seq<real>): (r: seq<real>)
    requires |x| == |maxima|
    ensures |r| == |x|
  {
    seq(|x|, l requires 0 <= l < |x| => Max(Abs(x[l]), maxima[l]))
  }

  lemma {:induction false} LaneMaximaCombine(x: seq<real>, maxima: seq<real>)
    requires |x| == |maxima| && forall l :: 0 <= l < |maxima| ==> maxima[l] >= 0.0
    ensures RowMax(LaneMaxima(x, maxima)) == Max(RowMax(x), RowMax(maxima))
  {
    if x != [] {
      var n := |x| - 1;
      LaneMaximaCombine(x[..n], maxima[..n]);
      assert LaneMaxima(x, maxima)[..n] == LaneMaxima(x[..n], maxima[..n]);
    }
  }

  // ----- Writing one row

  method StoreScale(buf: array<Cell>, a: nat, scale: real)
    requires a + ScaleBytes <= buf.Length
    modifies buf
    ensures LoadScale(buf[..], a) == scale
    ensures SameOutside(old(buf[..]), buf[..], a, a + ScaleBytes)
  {
    buf[a] := ScaleHead(scale);
    buf[a + 1], buf[a + 2], buf[a + 3] := ScaleTail, ScaleTail, ScaleTail;
  }

  /** A masked store of one block of integers. */
  method StoreBlock(buf: array<Cell>, base: nat, off: nat, cols: nat, lanes: seq<int>)
    requires off < cols && base + cols <= buf.Length
    modifies buf
    ensures forall x :: base + off <= x < base + Upto(off + |lanes|, cols) ==> buf[x] == Quant(lanes[x - base - off])
    ensures SameOutside(old(buf[..]), buf[..], base + off, base + Upto(off + |lanes|, cols))
  {
    forall x | base + off <= x < base + Upto(off + |lanes|, cols) {
      buf[x] := Quant(lanes[x - base - off]);
    }
  }

  /** The maximum of a row, found block by block with one maximum per lane. */
  method FindRowMax(x: seq<real>, block: nat) returns (rowMax: real)
    requires block > 0
    ensures rowMax == RowMax(x)
  {
    var colMaxes := seq(block, _ => 0.0);
    RowMaxIs(colMaxes, 0.0);
    var off := 0;
    while off < |x|
      invariant |colMaxes| == block && forall l :: 0 <= l < block ==> colMaxes[l] >= 0.0
      invariant RowMax(colMaxes) == RowMax(x[..Upto(off, |x|)])
    {
      var rowBlock := Block(x, off, block);
      LaneMaximaCombine(rowBlock, colMaxes);
      BlockExtendsMax(x, off, block);
      colMaxes := LaneMaxima(rowBlock, colMaxes);
      off := off + block;
    }
    assert x[..|x|] == x;
    rowMax := RowMax(colMaxes);
  }

  method QuantizeRow(x: seq<real>, buf: array<Cell>, a: nat, block: nat)
    requires block > 0 && a + ScaleBytes + |x| <= buf.Length
    modifies buf
    ensures RowAt(buf[..], a, |x|) == Quantized(x)
    ensures SameOutside(old(buf[..]), buf[..], a, a + ScaleBytes + |x|)
  {
    var rowMax := FindRowMax(x, block);
    var scale := Scale(rowMax);
    StoreScale(buf, a, scale);
    var off := 0;
    while off < |x|
      invariant SameOutside(old(buf[..]), buf[..], a, a + ScaleBytes + |x|)
      invariant LoadScale(buf[..], a) == scale
      invariant QuantsAt(buf[..], a + ScaleBytes, Upto(off, |x|), x, scale)
    {
      var rowBlock := Block(x, off, block);
      var quantized := seq(block, l requires 0 <= l < block => Quantize(rowBlock[l], scale));
      StoreBlock(buf, a + ScaleBytes, off, |x|, quantized);
      off := off + block;
    }
    WholeRow(buf[..], a, x);
  }

  lemma WholeRow(buf: seq<Cell>, a: nat, x: seq<real>)
    requires a + ScaleBytes + |x| <= |buf| && LoadScale(buf, a) == Scale(RowMax(x))
    requires QuantsAt(buf, a + ScaleBytes, |x|, x, Scale(RowMax(x)))
    ensures RowAt(buf, a, |x|) == Quantized(x)
  {
    var base := a + ScaleBytes;
    forall c | 0 <= c < |x|
      ensures RowAt(buf, a, |x|).quants[c] == Quantized(x).quants[c]
    {
      assert buf[base + c] == Quant(Quantize(x[base + c - base], Scale(RowMax(x))));
      assert RowAt(buf, a, |x|).quants[c] == LoadQuant(buf[base + c]);
      assert Quantized(x).quants[c] == Quantize(x[c], Scale(RowMax(x)));
    }
  }

  /** The first `n` values of a row are stored from `base` on. */
  ghost predicate QuantsAt(buf: seq<Cell>, base: nat, n: nat, x: seq<real>, scale: real) {
    && base + n <= |buf| && n <= |x|
    && forall y :: base <= y < base + n ==> buf[y] == Quant(Quantize(x[y - base], scale))
  }

  /** Divides by the stored scale as it is, so the row must have been written. */
  method DequantizeRow(buf: array<Cell>, a: nat, cols: nat, block: nat) returns (x: seq<real>)
    requires block > 0 && a + ScaleBytes + cols <= buf.Length
    requires LoadScale(buf[..], a) != 0.0
    ensures x == Values(RowAt(buf[..], a, cols))
  {
    var scale := LoadScale(buf[..], a);
    var row := RowAt(buf[..], a, cols);
    x := [];
    var off := 0;
    while off < cols
      invariant x == Values(row)[..Upto(off, cols)]
    {
      var end := Upto(off + block, cols);
      x := x + seq(end - off, l requires 0 <= l < end - off => row.quants[off + l] as real / scale);
      off := off + block;
    }
  }

  // ----- Reducing one row over all ranks, in place

  /** Every rank's copy of a row, `offset` bytes into its slice, is in bounds and clear of the other ranks' copies. */
  ghost predicate RowsFit(len: nat, offset: nat, n: nat, stride: nat, cols: nat) {
    && (forall j :: 0 <= j < n ==> Product(j, stride) + offset + ScaleBytes + cols <= len)
    && (forall j, k :: 0 <= j < k < n ==> Product(j, stride) + ScaleBytes + cols <= Product(k, stride))
  }

  function RankRows(buf: seq<Cell>, offset: nat, n: nat, stride: nat, cols: nat): (r: seq<Row>)
    requires RowsFit(|buf|, offset, n, stride, cols)
    ensures |r| == n && AllWide(r, cols)
  {
    seq(n, j requires 0 <= j < n => RowAt(buf, Product(j, stride) + offset, cols))
  }

  /** What the accumulator holds for column `c`: the sum over the ranks, and 0 past the end. */
  function Accumulated(rows: seq<Row>, cols: nat, c: nat): real
    requires AllWide(rows, cols)
  {
    if c < cols then Sum(Column(rows, cols, c)) else 0.0
  }

  function SumBlock(rows: seq<Row>, cols: nat, off: nat, block: nat): (r: seq<real>)
    requires AllWide(rows, cols)
    ensures |r| == block
  {
    seq(block, l requires 0 <= l < block => Accumulated(rows, cols, off + l))
  }

  lemma SumBlockIsBlock(rows: seq<Row>, cols: nat, off: nat, block: nat)
    requires AllWide(rows, cols)
    ensures SumBlock(rows, cols, off, block) == Block(Sums(rows, cols), off, block)
  {
    var sums := Sums(rows, cols);
    forall l | 0 <= l < block
      ensures SumBlock(rows, cols, off, block)[l] == Block(sums, off, block)[l]
    {
      assert SumBlock(rows, cols, off, block)[l] == Accumulated(rows, cols, off + l);
      assert off + l >= |sums| ==> Block(sums, off, block)[l] == 0.0;
      if off + l < cols {
        assert Block(sums, off, block)[l] == sums[off + l];
        assert sums[off + l] == Sum(Column(rows, cols, off + l));
        assert SumBlock(rows, cols, off, block)[l] == Sum(Column(rows, cols, off + l));
      }
    }
  }

  /** The part of `Accumulated` after the first `i` ranks in rotated order. */
  ghost function Partial(rows: seq<Row>, cols: nat, c: nat, start: nat, i: nat): real
    requires AllWide(rows, cols) && start < |rows| && i <= |rows|
  {
    if c < cols then Sum(Rotated(Column(rows, cols, c), start)[..i]) else 0.0
  }

  lemma PartialStep(rows: seq<Row>, cols: nat, c: nat, start: nat, i: nat)
    requires AllWide(rows, cols) && start < |rows| && i < |rows|
    ensures Partial(rows, cols, c, start, i + 1)
            == Partial(rows, cols, c, start, i)
               + (if c < cols then Value(rows[(i + start) % |rows|], c) else 0.0)
  {
    if c < cols {
      var rotated := Rotated(Column(rows, cols, c), start);
      assert rotated[..i + 1][..i] == rotated[..i];
    }
  }

  lemma PartialOfAll(rows: seq<Row>, cols: nat, c: nat, start: nat)
    requires AllWide(rows, cols) && start < |rows|
    ensures Partial(rows, cols, c, start, |rows|) == Accumulated(rows, cols, c)
  {
    if c < cols {
      var column := Column(rows, cols, c);
      assert Rotated(column, start)[..|rows|] == Rotated(column, start);
      SumIgnoresRotation(column, start);
    }
  }

  function AddBlock(acc: seq<real>, row: Row, cols: nat, off: nat): (r: seq<real>)
    requires |row.quants| == cols
    ensures |r| == |acc|
  {
    seq(|acc|, l requires 0 <= l < |acc| => acc[l] + (if off + l < cols then Value(row, off + l) else 0.0))
  }

  /** The accumulator after the first `i` ranks. */
  ghost predicate AccumulatedUpto(acc: seq<real>, rows: seq<Row>, cols: nat, off: nat, start: nat, i: nat)
    requires AllWide(rows, cols) && start < |rows| && i <= |rows|
  {
    forall l :: 0 <= l < |acc| ==> acc[l] == Partial(rows, cols, off + l, start, i)
  }

  lemma NothingAccumulated(acc: seq<real>, rows: seq<Row>, cols: nat, off: nat, start: nat)
    requires AllWide(rows, cols) && start < |rows| && forall l :: 0 <= l < |acc| ==> acc[l] == 0.0
    ensures AccumulatedUpto(acc, rows, cols, off, start, 0)
  {
  }

  lemma OneMoreAccumulated(acc: seq<real>, rows: seq<Row>, cols: nat, off: nat, start: nat, i: nat)
    requires AllWide(rows, cols) && start < |rows| && i < |rows| && AccumulatedUpto(acc, rows, cols, off, start, i)
    ensures AccumulatedUpto(AddBlock(acc, rows[(i + start) % |rows|], cols, off), rows, cols, off, start, i + 1)
  {
    hide Partial;
    var added := AddBlock(acc, rows[(i + start) % |rows|], cols, off);
    forall l | 0 <= l < |acc|
      ensures added[l] == Partial(rows, cols, off + l, start, i + 1)
    {
      PartialStep(rows, cols, off + l, start, i);
    }
  }

  lemma AllAccumulated(acc: seq<real>, rows: seq<Row>, cols: nat, off: nat, start: nat)
    requires AllWide(rows, cols) && start < |rows| && AccumulatedUpto(acc, rows, cols, off, start, |rows|)
    ensures acc == SumBlock(rows, cols, off, |acc|)
  {
    hide Partial;
    forall l | 0 <= l < |acc|
      ensures acc[l] == Accumulated(rows, cols, off + l)
    {
      PartialOfAll(rows, cols, off + l, start);
    }
  }

  /** Adds one block of all ranks' rows, beginning with rank `start`; a scale of 0 counts as 1. */
  method AccumulateBlock(buf: array<Cell>, offset: nat, n: nat, start: nat, stride: nat, cols: nat, off: nat,
                         block: nat)
    returns (acc: seq<real>)
    requires start < n && RowsFit(buf.Length, offset, n, stride, cols)
    ensures acc == SumBlock(RankRows(buf[..], offset, n, stride, cols), cols, off, block)
  {
    hide RowAt, AccumulatedUpto, SumBlock;
    ghost var rows := RankRows(buf[..], offset, n, stride, cols);
    acc := seq(block, _ => 0.0);
    NothingAccumulated(acc, rows, cols, off, start);
    for i := 0 to n
      invariant |acc| == block && AccumulatedUpto(acc, rows, cols, off, start, i)
    {
      var wrapped := (i + start) % n;
      var row := RowAt(buf[..], Product(wrapped, stride) + offset, cols);
      assert row == rows[wrapped];
      OneMoreAccumulated(acc, rows, cols, off, start, i);
      acc := AddBlock(acc, row, cols, off);
    }
    AllAccumulated(acc, rows, cols, off, start);
  }

  /** First pass: the maximum of the sums. */
  method FindReducedMax(buf: array<Cell>, offset: nat, n: nat, rank: nat, stride: nat, cols: nat, block: nat)
    returns (rowMax: real)
    requires block > 0 && rank < n && RowsFit(buf.Length, offset, n, stride, cols)
    ensures rowMax == RowMax(Sums(RankRows(buf[..], offset, n, stride, cols), cols))
  {
    hide Product;
    ghost var rows := RankRows(buf[..], offset, n, stride, cols);
    ghost var sums := Sums(rows, cols);
    rowMax := 0.0;
    var off := 0;
    while off < cols
      invariant rowMax == RowMax(sums[..Upto(off, cols)])
    {
      var acc := AccumulateBlock(buf, offset, n, rank, stride, cols, off, block);
      SumBlockIsBlock(rows, cols, off, block);
      BlockExtendsMax(sums, off, block);
      rowMax := Max(rowMax, RowMax(acc));
      off := off + block;
    }
    assert sums[..cols] == sums;
  }

  /** How far the second pass has come: the columns before `done` of the rank's own row are the result. */
  ghost predicate ReducedUpto(before: seq<Cell>, now: seq<Cell>, offset: nat, n: nat, rank: nat, stride: nat,
                              cols: nat, done: nat, scale: real, d: real)
    requires rank < n && done <= cols && d > 0.0 && RowsFit(|before|, offset, n, stride, cols)
  {
    var a := Product(rank, stride) + offset;
    var sums := Sums(RankRows(before, offset, n, stride, cols), cols);
    && SameOutside(before, now, a + ScaleBytes, a + ScaleBytes + done)
    && forall x :: a + ScaleBytes <= x < a + ScaleBytes + done ==>
         now[x] == Quant(QuantizeQuotient(sums[x - a - ScaleBytes], scale, d))
  }

  /** What is still to be read has not been overwritten. */
  lemma UnreadIsUntouched(before: seq<Cell>, now: seq<Cell>, offset: nat, n: nat, rank: nat, stride: nat, cols: nat,
                          done: nat, scale: real, d: real, c: nat)
    requires rank < n && done <= c < cols && d > 0.0 && RowsFit(|before|, offset, n, stride, cols)
    requires ReducedUpto(before, now, offset, n, rank, stride, cols, done, scale, d)
    ensures |now| == |before|
    ensures Column(RankRows(now, offset, n, stride, cols), cols, c)
            == Column(RankRows(before, offset, n, stride, cols), cols, c)
  {
    var rows, was := RankRows(now, offset, n, stride, cols), RankRows(before, offset, n, stride, cols);
    var a := Product(rank, stride) + offset;
    forall j | 0 <= j < n
      ensures Value(rows[j], c) == Value(was[j], c)
    {
      if j != rank {
        RowKept(before, now, a + ScaleBytes, a + ScaleBytes + done, Product(j, stride) + offset, cols);
      } else {
        assert rows[j].quants[c] == LoadQuant(now[a + ScaleBytes + c]);
      }
    }
  }

  lemma UnreadBlock(before: seq<Cell>, now: seq<Cell>, offset: nat, n: nat, rank: nat, stride: nat, cols: nat,
                    done: nat, scale: real, d: real, block: nat)
    requires rank < n && done <= cols && d > 0.0 && RowsFit(|before|, offset, n, stride, cols)
    requires ReducedUpto(before, now, offset, n, rank, stride, cols, done, scale, d)
    ensures |now| == |before|
    ensures SumBlock(RankRows(now, offset, n, stride, cols), cols, done, block)
            == Block(Sums(RankRows(before, offset, n, stride, cols), cols), done, block)
  {
    var rows, was := RankRows(now, offset, n, stride, cols), RankRows(before, offset, n, stride, cols);
    forall l | 0 <= l < block
      ensures SumBlock(rows, cols, done, block)[l] == SumBlock(was, cols, done, block)[l]
    {
      assert SumBlock(rows, cols, done, block)[l] == Accumulated(rows, cols, done + l);
      assert SumBlock(was, cols, done, block)[l] == Accumulated(was, cols, done + l);
      if done + l < cols {
        UnreadIsUntouched(before, now, offset, n, rank, stride, cols, done, scale, d, done + l);
      }
    }
    SumBlockIsBlock(was, cols, done, block);
  }

  lemma BlockWritten(before: seq<Cell>, now: seq<Cell>, after: seq<Cell>, offset: nat, n: nat, rank: nat, stride: nat,
                     cols: nat, done: nat, scale: real, d: real, block: nat, quantized: seq<int>)
    requires rank < n && done < cols && d > 0.0 && RowsFit(|before|, offset, n, stride, cols)
    requires ReducedUpto(before, now, offset, n, rank, stride, cols, done, scale, d)
    requires |quantized| == block
    requires var sums := Block(Sums(RankRows(before, offset, n, stride, cols), cols), done, block);
             forall l :: 0 <= l < block ==> quantized[l] == QuantizeQuotient(sums[l], scale, d)
    requires var base := Product(rank, stride) + offset + ScaleBytes;
             && SameOutside(now, after, base + done, base + Upto(done + block, cols))
             && forall x :: base + done <= x < base + Upto(done + block, cols) ==>
                  after[x] == Quant(quantized[x - base - done])
    ensures ReducedUpto(before, after, offset, n, rank, stride, cols, Upto(done + block, cols), scale, d)
  {
    hide RankRows, Sums, Product, QuantizeQuotient;
  }

  lemma RowFinished(before: seq<Cell>, now: seq<Cell>, after: seq<Cell>, offset: nat, n: nat, rank: nat, stride: nat,
                    cols: nat, scale: real, d: real)
    requires rank < n && d > 0.0 && RowsFit(|before|, offset, n, stride, cols)
    requires ReducedUpto(before, now, offset, n, rank, stride, cols, cols, scale, d)
    requires scale == Scale(RowMax(Sums(RankRows(before, offset, n, stride, cols), cols)) / d)
    requires SameOutside(now, after, Product(rank, stride) + offset, Product(rank, stride) + offset + ScaleBytes)
    requires LoadScale(after, Product(rank, stride) + offset) == scale
    ensures RowAt(after, Product(rank, stride) + offset, cols)
            == Reduced(RankRows(before, offset, n, stride, cols), cols, d)
  {
    var a := Product(rank, stride) + offset;
    var row, sums := RowAt(after, a, cols), Sums(RankRows(before, offset, n, stride, cols), cols);
    forall c | 0 <= c < cols
      ensures row.quants[c] == QuantizeQuotient(sums[c], scale, d)
    {
      assert row.quants[c] == LoadQuant(after[a + ScaleBytes + c]);
      assert now[a + ScaleBytes + c] == Quant(QuantizeQuotient(sums[a + ScaleBytes + c - a - ScaleBytes], scale, d));
    }
  }

  /**
   * The rank's own copy of the row is both an input and the output. It is overwritten a block at a time, and its
   * scale last, so what is read in each block is still the original.
   */
  method ReduceRow(buf: array<Cell>, offset: nat, n: nat, rank: nat, stride: nat, cols: nat, d: real, block: nat)
    requires block > 0 && rank < n && d > 0.0 && RowsFit(buf.Length, offset, n, stride, cols)
    modifies buf
    ensures RowAt(buf[..], Product(rank, stride) + offset, cols)
            == Reduced(RankRows(old(buf[..]), offset, n, stride, cols), cols, d)
    ensures SameOutside(old(buf[..]), buf[..], Product(rank, stride) + offset,
                        Product(rank, stride) + offset + ScaleBytes + cols)
  {
    hide RankRows, Sums, Product, QuantizeQuotient, Scale, RowMax;
    ghost var before := buf[..];
    var a := Product(rank, stride) + offset;
    var rowMax := FindReducedMax(buf, offset, n, rank, stride, cols, block);
    QuotientIsMagnitude(rowMax, d);
    var scale := Scale(rowMax / d);
    var off := 0;
    while off < cols
      invariant ReducedUpto(before, buf[..], offset, n, rank, stride, cols, Upto(off, cols), scale, d)
    {
      UnreadBlock(before, buf[..], offset, n, rank, stride, cols, off, scale, d, block);
      var acc := AccumulateBlock(buf, offset, n, rank, stride, cols, off, block);
      var quantized := seq(block, l requires 0 <= l < block => QuantizeQuotient(acc[l], scale, d));
      ghost var now := buf[..];
      StoreBlock(buf, a + ScaleBytes, off, cols, quantized);
      BlockWritten(before, now, buf[..], offset, n, rank, stride, cols, off, scale, d, block, quantized);
      off := off + block;
    }
    ghost var now := buf[..];
    StoreScale(buf, a, scale);
    RowFinished(before, now, buf[..], offset, n, rank, stride, cols, scale, d);
  }
}
