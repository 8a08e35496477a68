/** Quantized all-reduce and reduce-scatter of all ranks together, over ideal all-to-all and all-gather. */
module Collectives {

  import opened Layout
  import opened Quantization
  import opened Kernels
  import opened PackedBuffer

  datatype ReduceOp = SumOp | AvgOp | OtherOp

  datatype Outcome<T> = Done(value: T) | NotSupported | NoTensors

  /** Every rank brings tensors of the same shapes. */
  ghost predicate SameShapes(inputs: seq<seq<Tensor>>, shapes: seq<Shape>) {
    forall r :: 0 <= r < |inputs| ==> AllWellShaped(inputs[r]) && Shapes(inputs[r]) == shapes
  }

  /** Row `i` of tensor `t` at every rank. */
  function RowsOf(inputs: seq<seq<Tensor>>, shapes: seq<Shape>, t: nat, i: nat): (r: seq<seq<real>>)
    requires SameShapes(inputs, shapes) && t < |shapes| && i < shapes[t].rows
    ensures |r| == |inputs| && forall j :: 0 <= j < |r| ==> |r[j]| == shapes[t].cols
  {
    assert forall j :: 0 <= j < |inputs| ==> Shapes(inputs[j])[t] == shapes[t];
    seq(|inputs|, j requires 0 <= j < |inputs| => inputs[j][t].rows[i])
  }

  /** The exact result of one row: sums over the ranks, divided by `d`, up to what quantizing twice loses. */
  ghost predicate Accurate(out: seq<real>, xs: seq<seq<real>>, cols: nat, d: real)
    requires d > 0.0 && forall j :: 0 <= j < |xs| ==> |xs[j]| == cols
  {
    && |out| == cols
    && forall c :: 0 <= c < cols ==>
         Abs(out[c] - Sum(Across(xs, c)) / d) <= 2.0 / (127.0 * d) * Sum(Maxima(xs))
  }

  function ReducedRow(inputs: seq<seq<Tensor>>, shapes: seq<Shape>, t: nat, i: nat, d: real): (r: Row)
    requires SameShapes(inputs, shapes) && t < |shapes| && i < shapes[t].rows && d > 0.0
    ensures |r.quants| == shapes[t].cols
  {
    Reduced(QuantizedAll(RowsOf(inputs, shapes, t, i)), shapes[t].cols, d)
  }

  lemma ReducedRowIsAccurate(inputs: seq<seq<Tensor>>, shapes: seq<Shape>, t: nat, i: nat, d: real)
    requires SameShapes(inputs, shapes) && t < |shapes| && i < shapes[t].rows && d > 0.0
    ensures Accurate(Values(ReducedRow(inputs, shapes, t, i, d)), RowsOf(inputs, shapes, t, i), shapes[t].cols, d)
  {
    hide RowsOf, Reduced, Across, Maxima, Sum;
    var xs := RowsOf(inputs, shapes, t, i);
    forall c | 0 <= c < shapes[t].cols
      ensures Abs(Values(ReducedRow(inputs, shapes, t, i, d))[c] - Sum(Across(xs, c)) / d)
              <= 2.0 / (127.0 * d) * Sum(Maxima(xs))
    {
      RoundTripError(xs, shapes[t].cols, d, c);
    }
  }

  /** What the reduce operation asks of one row: the plain sum over the ranks or their mean, up to what quantizing twice
      loses. */
  ghost predicate Answers(op: ReduceOp, out: seq<real>, xs: seq<seq<real>>, cols: nat)
    requires |xs| > 0 && forall j :: 0 <= j < |xs| ==> |xs[j]| == cols
  {
    var n := |xs| as real;
    && |out| == cols
    && (op.SumOp? ==> forall c :: 0 <= c < cols ==>
          Abs(out[c] - Sum(Across(xs, c))) <= 2.0 / 127.0 * Sum(Maxima(xs)))
    && (op.AvgOp? ==> forall c :: 0 <= c < cols ==>
          Abs(out[c] - Sum(Across(xs, c)) / n) <= 2.0 / (127.0 * n) * Sum(Maxima(xs)))
  }

  lemma AccurateAnswers(op: ReduceOp, out: seq<real>, xs: seq<seq<real>>, cols: nat)
    requires |xs| > 0 && forall j :: 0 <= j < |xs| ==> |xs[j]| == cols
    requires !op.OtherOp? && Accurate(out, xs, cols, Factor(|xs|, op.AvgOp?))
    ensures Answers(op, out, xs, cols)
  {
    hide Abs, Sum, Across, Maxima;
    assert forall x: real :: OverOne(x) == x;
    assert 2.0 / (127.0 * 1.0) == 2.0 / 127.0;
  }

  function OverOne(x: real): real {
    x / 1.0
  }

  // ----- Ideal exchanges

  function Join(chunks: seq<seq<Cell>>): seq<Cell> {
    if chunks == [] then [] else Join(chunks[..|chunks| - 1]) + chunks[|chunks| - 1]
  }

  ghost predicate AllOfSize(chunks: seq<seq<Cell>>, bytes: nat) {
    forall j :: 0 <= j < |chunks| ==> |chunks[j]| == bytes
  }

  lemma {:induction false} JoinLength(chunks: seq<seq<Cell>>, bytes: nat)
    requires AllOfSize(chunks, bytes)
    ensures |Join(chunks)| == Product(|chunks|, bytes)
  {
    hide Product;
    ProductStep(0, bytes);
    if chunks != [] {
      JoinLength(chunks[..|chunks| - 1], bytes);
      ProductStep(|chunks| - 1, bytes);
    }
  }

  lemma {:induction false} JoinAt(chunks: seq<seq<Cell>>, bytes: nat, j: nat, y: nat)
    requires AllOfSize(chunks, bytes) && j < |chunks| && y < bytes
    ensures |Join(chunks)| == Product(|chunks|, bytes)
    ensures Product(j, bytes) + bytes <= Product(|chunks|, bytes)
    ensures Join(chunks)[Product(j, bytes) + y] == chunks[j][y]
  {
    hide Product;
    JoinLength(chunks, bytes);
    ProductGrows(j, |chunks|, bytes);
    JoinLength(chunks[..|chunks| - 1], bytes);
    if j < |chunks| - 1 {
      JoinAt(chunks[..|chunks| - 1], bytes, j, y);
    }
  }

  /** The buffer seen as one chunk per rank. */
  function Chunk(buf: seq<Cell>, n: nat, bytes: nat, r: nat): (c: seq<Cell>)
    requires r < n && |buf| == Product(n, bytes)
    ensures |c| == bytes
  {
    ProductGrows(r, n, bytes);
    buf[Product(r, bytes)..Product(r, bytes) + bytes]
  }

  lemma ChunkAt(buf: seq<Cell>, n: nat, bytes: nat, r: nat, y: nat)
    requires r < n && |buf| == Product(n, bytes) && y < bytes
    ensures Product(r, bytes) + bytes <= |buf|
    ensures Chunk(buf, n, bytes, r)[y] == buf[Product(r, bytes) + y]
  {
    ProductGrows(r, n, bytes);
  }

  /** What rank `r` receives: chunk `r` of every rank. */
  function AllToAll(bufs: seq<seq<Cell>>, bytes: nat, r: nat): (out: seq<Cell>)
    requires AllOfSize(bufs, Product(|bufs|, bytes)) && r < |bufs|
    ensures |out| == Product(|bufs|, bytes)
  {
    var chunks := seq(|bufs|, j requires 0 <= j < |bufs| => Chunk(bufs[j], |bufs|, bytes, r));
    JoinLength(chunks, bytes);
    Join(chunks)
  }

  /** What every rank receives: each rank's own chunk. */
  function AllGather(bufs: seq<seq<Cell>>, bytes: nat): (out: seq<Cell>)
    requires AllOfSize(bufs, Product(|bufs|, bytes))
    ensures |out| == Product(|bufs|, bytes)
  {
    var chunks := seq(|bufs|, j requires 0 <= j < |bufs| => Chunk(bufs[j], |bufs|, bytes, j));
    JoinLength(chunks, bytes);
    Join(chunks)
  }

  lemma AllToAllAt(bufs: seq<seq<Cell>>, bytes: nat, r: nat, j: nat, y: nat)
    requires AllOfSize(bufs, Product(|bufs|, bytes)) && r < |bufs| && j < |bufs| && y < bytes
    ensures Product(j, bytes) + bytes <= Product(|bufs|, bytes) && Product(r, bytes) + bytes <= Product(|bufs|, bytes)
    ensures AllToAll(bufs, bytes, r)[Product(j, bytes) + y] == bufs[j][Product(r, bytes) + y]
  {
    var chunks := seq(|bufs|, j requires 0 <= j < |bufs| => Chunk(bufs[j], |bufs|, bytes, r));
    JoinAt(chunks, bytes, j, y);
    ChunkAt(bufs[j], |bufs|, bytes, r, y);
  }

  lemma AllGatherAt(bufs: seq<seq<Cell>>, bytes: nat, j: nat, y: nat)
    requires AllOfSize(bufs, Product(|bufs|, bytes)) && j < |bufs| && y < bytes
    ensures Product(j, bytes) + bytes <= Product(|bufs|, bytes)
    ensures AllGather(bufs, bytes)[Product(j, bytes) + y] == bufs[j][Product(j, bytes) + y]
  {
    var chunks := seq(|bufs|, j requires 0 <= j < |bufs| => Chunk(bufs[j], |bufs|, bytes, j));
    JoinAt(chunks, bytes, j, y);
    ChunkAt(bufs[j], |bufs|, bytes, j, y);
  }

  // ----- How rows travel

  predicate SameCell(x: seq<Cell>, a: nat, y: seq<Cell>, b: nat, i: nat) {
    a + i < |x| && b + i < |y| && x[a + i] == y[b + i]
  }

  lemma RowMoved(x: seq<Cell>, a: nat, y: seq<Cell>, b: nat, cols: nat)
    requires a + ScaleBytes + cols <= |x| && b + ScaleBytes + cols <= |y|
    requires forall i :: 0 <= i < ScaleBytes + cols ==> SameCell(x, a, y, b, i)
    ensures RowAt(x, a, cols) == RowAt(y, b, cols)
  {
    assert SameCell(x, a, y, b, 0) && SameCell(x, a, y, b, 1) && SameCell(x, a, y, b, 2) && SameCell(x, a, y, b, 3);
    forall c | 0 <= c < cols
      ensures RowAt(x, a, cols).quants[c] == RowAt(y, b, cols).quants[c]
    {
      assert SameCell(x, a, y, b, ScaleBytes + c);
    }
  }

  /** Where a slot is within its rank's chunk. */
  function Inner(shapes: seq<Shape>, group: nat, s: Slot): nat
    requires group > 0 && IsSlot(shapes, group, s)
  {
    Offset(shapes, group, s.t) + Product(s.k, RowBytes(shapes[s.t].cols))
  }

  lemma InnerFits(shapes: seq<Shape>, group: nat, s: Slot)
    requires group > 0 && IsSlot(shapes, group, s)
    ensures Address(shapes, group, s) == Product(s.rank, SliceBytes(shapes, group)) + Inner(shapes, group, s)
    ensures Inner(shapes, group, s) + ScaleBytes + shapes[s.t].cols <= SliceBytes(shapes, group)
  {
    SlotWithinSlice(shapes, group, s);
    SlotFits(shapes, group, s);
  }

  ghost predicate AreBuffers(bufs: seq<seq<Cell>>, shapes: seq<Shape>) {
    |bufs| > 0 && AllOfSize(bufs, Product(|bufs|, SliceBytes(shapes, |bufs|)))
  }

  lemma AllToAllMoves(bufs: seq<seq<Cell>>, shapes: seq<Shape>, r: nat, s: Slot)
    requires AreBuffers(bufs, shapes) && r < |bufs| && IsSlot(shapes, |bufs|, s)
    ensures SlotRow(AllToAll(bufs, SliceBytes(shapes, |bufs|), r), shapes, |bufs|, s)
            == SlotRow(bufs[s.rank], shapes, |bufs|, Slot(r, s.t, s.k))
  {
    hide RowAt, Product, AllToAll, SliceBytes, Inner, Address, Offset;
    var bytes, there := SliceBytes(shapes, |bufs|), Slot(r, s.t, s.k);
    var out := AllToAll(bufs, bytes, r);
    InnerFits(shapes, |bufs|, s);
    InnerFits(shapes, |bufs|, there);
    SameInner(shapes, |bufs|, s, there);
    SlotFits(shapes, |bufs|, s);
    SlotFits(shapes, |bufs|, there);
    var a, b := Address(shapes, |bufs|, s), Address(shapes, |bufs|, there);
    forall i | 0 <= i < ScaleBytes + shapes[s.t].cols
      ensures SameCell(out, a, bufs[s.rank], b, i)
    {
      AllToAllAt(bufs, bytes, r, s.rank, Inner(shapes, |bufs|, s) + i);
    }
    RowMoved(out, a, bufs[s.rank], b, shapes[s.t].cols);
  }

  lemma SameInner(shapes: seq<Shape>, group: nat, s: Slot, there: Slot)
    requires group > 0 && IsSlot(shapes, group, s) && IsSlot(shapes, group, there) && s.t == there.t && s.k == there.k
    ensures Inner(shapes, group, s) == Inner(shapes, group, there)
  {
  }

  lemma AllGatherMoves(bufs: seq<seq<Cell>>, shapes: seq<Shape>, s: Slot)
    requires AreBuffers(bufs, shapes) && IsSlot(shapes, |bufs|, s)
    ensures SlotRow(AllGather(bufs, SliceBytes(shapes, |bufs|)), shapes, |bufs|, s)
            == SlotRow(bufs[s.rank], shapes, |bufs|, s)
  {
    hide RowAt, Product, AllGather, SliceBytes, Inner, Address, Offset;
    var bytes := SliceBytes(shapes, |bufs|);
    var out := AllGather(bufs, bytes);
    InnerFits(shapes, |bufs|, s);
    SlotFits(shapes, |bufs|, s);
    var a := Address(shapes, |bufs|, s);
    forall i | 0 <= i < ScaleBytes + shapes[s.t].cols
      ensures SameCell(out, a, bufs[s.rank], a, i)
    {
      AllGatherAt(bufs, bytes, s.rank, Inner(shapes, |bufs|, s) + i);
    }
    RowMoved(out, a, bufs[s.rank], a, shapes[s.t].cols);
  }

  /** A rank's own chunk, read alone with the slice's shapes, has the same rows. */
  lemma ChunkMoves(buf: seq<Cell>, shapes: seq<Shape>, group: nat, s: Slot)
    requires group > 0 && IsBuffer(buf, shapes, group) && IsSlot(shapes, group, s)
    ensures var alone := SliceShapes(shapes, group);
            var chunk := Chunk(buf, group, SliceBytes(shapes, group), s.rank);
            && IsBuffer(chunk, alone, 1)
            && IsSlot(alone, 1, Slot(0, s.t, s.k))
            && SlotRow(chunk, alone, 1, Slot(0, s.t, s.k)) == SlotRow(buf, shapes, group, s)
  {
    hide RowAt, Chunk, SliceBytes, Address, Offset;
    var bytes, alone, there := SliceBytes(shapes, group), SliceShapes(shapes, group), Slot(0, s.t, s.k);
    var chunk := Chunk(buf, group, bytes, s.rank);
    SliceDecodesAlone(shapes, group, s);
    SlotFits(alone, 1, there);
    SlotFits(shapes, group, s);
    InnerFits(shapes, group, s);
    var a, b := Address(alone, 1, there), Address(shapes, group, s);
    forall i | 0 <= i < ScaleBytes + shapes[s.t].cols
      ensures SameCell(chunk, a, buf, b, i)
    {
      ChunkAt(buf, group, bytes, s.rank, a + i);
    }
    RowMoved(chunk, a, buf, b, shapes[s.t].cols);
  }

  // ----- Quantize, exchange, reduce

  /** What the owner of a slot has after reducing: the row of all ranks, or zeros for a padding row. */
  ghost function OwnerRow(inputs: seq<seq<Tensor>>, shapes: seq<Shape>, s: Slot, d: real): Row
    requires |inputs| > 0 && SameShapes(inputs, shapes) && IsSlot(shapes, |inputs|, s) && d > 0.0
  {
    var i := s.rank * SliceRows(shapes[s.t].rows, |inputs|) + s.k;
    if i < shapes[s.t].rows then
      ReducedRow(inputs, shapes, s.t, i, d)
    else
      Row(1.0, seq(shapes[s.t].cols, _ => 0))
  }

  ghost predicate OwnsReduced(buf: seq<Cell>, inputs: seq<seq<Tensor>>, shapes: seq<Shape>, r: nat, d: real)
    requires |inputs| > 0 && SameShapes(inputs, shapes) && d > 0.0
  {
    && IsBuffer(buf, shapes, |inputs|)
    && forall s :: IsSlot(shapes, |inputs|, s) && s.rank == r ==>
         SlotRow(buf, shapes, |inputs|, s) == OwnerRow(inputs, shapes, s, d)
  }

  ghost predicate AllQuantized(bufs: seq<seq<Cell>>, inputs: seq<seq<Tensor>>, shapes: seq<Shape>)
    requires |inputs| > 0 && SameShapes(inputs, shapes)
  {
    |bufs| == |inputs| && forall r :: 0 <= r < |bufs| ==> Holds(bufs[r], inputs[r], |inputs|, {})
  }

  lemma QuantizedAreBuffers(bufs: seq<seq<Cell>>, inputs: seq<seq<Tensor>>, shapes: seq<Shape>)
    requires |inputs| > 0 && SameShapes(inputs, shapes) && AllQuantized(bufs, inputs, shapes)
    ensures AreBuffers(bufs, shapes)
  {
    forall r | 0 <= r < |bufs|
      ensures |bufs[r]| == Product(|bufs|, SliceBytes(shapes, |bufs|))
    {
      assert Holds(bufs[r], inputs[r], |inputs|, {});
    }
  }

  ghost predicate AreCopies(inputs: seq<seq<Tensor>>, shapes: seq<Shape>, s: Slot, rows: seq<Row>)
    requires |inputs| > 0 && SameShapes(inputs, shapes) && IsSlot(shapes, |inputs|, s)
  {
    var i := s.rank * SliceRows(shapes[s.t].rows, |inputs|) + s.k;
    && (i < shapes[s.t].rows ==> rows == QuantizedAll(RowsOf(inputs, shapes, s.t, i)))
    && (i >= shapes[s.t].rows ==> forall j :: 0 <= j < |rows| ==> rows[j] == ZeroRow(shapes[s.t].cols))
  }

  /** After the all-to-all, rank `r` has every rank's copy of the rows it owns. */
  lemma CopiesReceived(bufs: seq<seq<Cell>>, inputs: seq<seq<Tensor>>, shapes: seq<Shape>, r: nat, s: Slot)
    requires |inputs| > 0 && SameShapes(inputs, shapes) && AllQuantized(bufs, inputs, shapes)
    requires AreBuffers(bufs, shapes) && IsSlot(shapes, |inputs|, s) && s.rank == r
    ensures AreCopies(inputs, shapes, s,
                      Copies(AllToAll(bufs, SliceBytes(shapes, |inputs|), r), shapes, |inputs|, s.t, s.k))
  {
    var got := Copies(AllToAll(bufs, SliceBytes(shapes, |inputs|), r), shapes, |inputs|, s.t, s.k);
    forall j | 0 <= j < |inputs|
      ensures got[j] == Stored(inputs[j], |inputs|, {}, s)
    {
      CopyReceived(bufs, inputs, shapes, s, j);
    }
    StoredAcross(inputs, shapes, s, got);
  }

  lemma CopyReceived(bufs: seq<seq<Cell>>, inputs: seq<seq<Tensor>>, shapes: seq<Shape>, s: Slot, j: nat)
    requires |inputs| > 0 && SameShapes(inputs, shapes) && AllQuantized(bufs, inputs, shapes)
    requires j < |inputs| && IsSlot(shapes, |inputs|, s)
    ensures AreBuffers(bufs, shapes)
    ensures SlotRow(AllToAll(bufs, SliceBytes(shapes, |inputs|), s.rank), shapes, |inputs|, Slot(j, s.t, s.k))
            == Stored(inputs[j], |inputs|, {}, s)
  {
    hide SlotRow, AllToAll, SliceBytes, Stored;
    QuantizedAreBuffers(bufs, inputs, shapes);
    AllToAllMoves(bufs, shapes, s.rank, Slot(j, s.t, s.k));
    assert Holds(bufs[j], inputs[j], |inputs|, {});
    HoldsAt(bufs[j], inputs[j], |inputs|, s);
  }

  lemma HoldsAt(buf: seq<Cell>, xs: seq<Tensor>, group: nat, s: Slot)
    requires group > 0 && AllWellShaped(xs) && Holds(buf, xs, group, {}) && IsSlot(Shapes(xs), group, s)
    ensures SlotRow(buf, Shapes(xs), group, s) == Stored(xs, group, {}, s)
  {
  }

  lemma StoredAcross(inputs: seq<seq<Tensor>>, shapes: seq<Shape>, s: Slot, got: seq<Row>)
    requires |inputs| > 0 && SameShapes(inputs, shapes) && IsSlot(shapes, |inputs|, s) && |got| == |inputs|
    requires forall j :: 0 <= j < |inputs| ==> got[j] == Stored(inputs[j], |inputs|, {}, s)
    ensures AreCopies(inputs, shapes, s, got)
  {
    hide Quantized;
    forall j | 0 <= j < |inputs|
      ensures inputs[j][s.t].shape == shapes[s.t]
    {
      assert Shapes(inputs[j])[s.t] == shapes[s.t];
    }
    var i := s.rank * SliceRows(shapes[s.t].rows, |inputs|) + s.k;
    if i < shapes[s.t].rows {
      forall j | 0 <= j < |inputs|
        ensures got[j] == QuantizedAll(RowsOf(inputs, shapes, s.t, i))[j]
      {
        assert got[j] == Stored(inputs[j], |inputs|, {}, s);
      }
    }
  }

  /** So what it then computes is the reduction of the original rows. */
  lemma OwnerReduces(bufs: seq<seq<Cell>>, inputs: seq<seq<Tensor>>, shapes: seq<Shape>, r: nat, after: seq<Cell>,
                     d: real)
    requires |inputs| > 0 && SameShapes(inputs, shapes) && AllQuantized(bufs, inputs, shapes)
    requires AreBuffers(bufs, shapes)
    requires r < |inputs| && d > 0.0
    requires ReducedBuffer(AllToAll(bufs, SliceBytes(shapes, |inputs|), r), after, shapes, |inputs|, r, d, {})
    ensures OwnsReduced(after, inputs, shapes, r, d)
  {
    var before := AllToAll(bufs, SliceBytes(shapes, |inputs|), r);
    forall s | IsSlot(shapes, |inputs|, s) && s.rank == r
      ensures SlotRow(after, shapes, |inputs|, s) == OwnerRow(inputs, shapes, s, d)
    {
      var got := Copies(before, shapes, |inputs|, s.t, s.k);
      CopiesReceived(bufs, inputs, shapes, r, s);
      ReducedAt(before, after, shapes, |inputs|, s, d);
      var i := r * SliceRows(shapes[s.t].rows, |inputs|) + s.k;
      if i >= shapes[s.t].rows {
        PaddingReducesToZero(got, shapes[s.t].cols, d);
      }
    }
  }

  lemma ReducedAt(before: seq<Cell>, after: seq<Cell>, shapes: seq<Shape>, group: nat, s: Slot, d: real)
    requires group > 0 && d > 0.0 && IsBuffer(before, shapes, group) && IsSlot(shapes, group, s)
    requires ReducedBuffer(before, after, shapes, group, s.rank, d, {})
    ensures SlotRow(after, shapes, group, s) == Reduced(Copies(before, shapes, group, s.t, s.k), shapes[s.t].cols, d)
  {
  }

  /** The steps the two collectives share, for every rank. */
  method ExchangeAndReduce(inputs: seq<seq<Tensor>>, ghost shapes: seq<Shape>, average: bool, block: nat)
    returns (reduced: seq<seq<Cell>>)
    requires |inputs| > 0 && block > 0 && SameShapes(inputs, shapes)
    ensures |reduced| == |inputs|
    ensures forall r :: 0 <= r < |reduced| ==>
              OwnsReduced(reduced[r], inputs, shapes, r, Factor(|inputs|, average))
  {
    hide OwnsReduced, Holds, ReducedBuffer, AllToAll, SliceBytes, SlotRow;
    var n := |inputs|;
    var bufs := [];
    for r := 0 to n
      invariant |bufs| == r
      invariant forall j :: 0 <= j < r ==> Holds(bufs[j], inputs[j], n, {})
    {
      var buf := QuantizeInto(inputs[r], n, block);
      bufs := bufs + [buf[..]];
    }
    assert AllQuantized(bufs, inputs, shapes);
    QuantizedAreBuffers(bufs, inputs, shapes);
    reduced := [];
    for r := 0 to n
      invariant |reduced| == r
      invariant forall j :: 0 <= j < r ==> OwnsReduced(reduced[j], inputs, shapes, j, Factor(n, average))
    {
      var received := AllToAll(bufs, SliceBytes(Shapes(inputs[r]), n), r);
      var buf := new Cell[|received|](x requires 0 <= x < |received| => received[x]);
      assert buf[..] == received;
      ReduceIn(Shapes(inputs[r]), buf, n, r, average, block);
      OwnerReduces(bufs, inputs, shapes, r, buf[..], Factor(n, average));
      reduced := reduced + [buf[..]];
    }
  }

  // ----- All-reduce

  /** Every rank ends with the same tensors, each row the reduction of the ranks' rows. */
  ghost predicate IsAllReduced(inputs: seq<seq<Tensor>>, shapes: seq<Shape>, d: real, output: seq<Tensor>)
    requires SameShapes(inputs, shapes) && d > 0.0
  {
    && |output| == |shapes|
    && forall t :: 0 <= t < |shapes| ==> IsReducedTensor(inputs, shapes, d, t, output[t])
  }

  ghost predicate IsReducedTensor(inputs: seq<seq<Tensor>>, shapes: seq<Shape>, d: real, t: nat, x: Tensor)
    requires SameShapes(inputs, shapes) && d > 0.0 && t < |shapes|
  {
    && x.shape == shapes[t] && |x.rows| == shapes[t].rows
    && forall i :: 0 <= i < |x.rows| ==> x.rows[i] == Values(ReducedRow(inputs, shapes, t, i, d))
  }

  ghost predicate AllOwnReduced(bufs: seq<seq<Cell>>, inputs: seq<seq<Tensor>>, shapes: seq<Shape>, d: real)
    requires |inputs| > 0 && SameShapes(inputs, shapes) && d > 0.0
  {
    |bufs| == |inputs| && forall r :: 0 <= r < |bufs| ==> OwnsReduced(bufs[r], inputs, shapes, r, d)
  }

  lemma OwnersAreBuffers(bufs: seq<seq<Cell>>, inputs: seq<seq<Tensor>>, shapes: seq<Shape>, d: real)
    requires |inputs| > 0 && SameShapes(inputs, shapes) && d > 0.0 && AllOwnReduced(bufs, inputs, shapes, d)
    ensures AreBuffers(bufs, shapes)
  {
    forall r | 0 <= r < |bufs|
      ensures |bufs[r]| == Product(|bufs|, SliceBytes(shapes, |bufs|))
    {
      assert OwnsReduced(bufs[r], inputs, shapes, r, d);
    }
  }

  /** The gathered buffer holds every row's reduction where dequantizing looks for it. */
  lemma GatheredRow(bufs: seq<seq<Cell>>, inputs: seq<seq<Tensor>>, shapes: seq<Shape>, d: real, t: nat, i: nat)
    requires |inputs| > 0 && SameShapes(inputs, shapes) && d > 0.0 && AllOwnReduced(bufs, inputs, shapes, d)
    requires AreBuffers(bufs, shapes) && t < |shapes| && i < shapes[t].rows
    ensures RowOf(AllGather(bufs, SliceBytes(shapes, |inputs|)), shapes, |inputs|, t, i)
            == ReducedRow(inputs, shapes, t, i, d)
  {
    hide AllGather, SlotRow, ReducedRow;
    var s := SlotOfRow(shapes, |inputs|, t, i);
    RowsHaveSlots(shapes, |inputs|, t, i);
    AllGatherMoves(bufs, shapes, s);
    OwnerAt(bufs[s.rank], inputs, shapes, s, d);
  }

  lemma OwnerAt(buf: seq<Cell>, inputs: seq<seq<Tensor>>, shapes: seq<Shape>, s: Slot, d: real)
    requires |inputs| > 0 && SameShapes(inputs, shapes) && d > 0.0 && IsSlot(shapes, |inputs|, s)
    requires OwnsReduced(buf, inputs, shapes, s.rank, d)
    ensures SlotRow(buf, shapes, |inputs|, s) == OwnerRow(inputs, shapes, s, d)
  {
  }

  lemma GatheredIsDequantizable(bufs: seq<seq<Cell>>, inputs: seq<seq<Tensor>>, shapes: seq<Shape>, d: real)
    requires |inputs| > 0 && SameShapes(inputs, shapes) && d > 0.0 && AllOwnReduced(bufs, inputs, shapes, d)
    requires AreBuffers(bufs, shapes)
    ensures Dequantizable(AllGather(bufs, SliceBytes(shapes, |inputs|)), shapes, |inputs|)
  {
    hide AllGather, RowOf;
    forall t, i | 0 <= t < |shapes| && 0 <= i < shapes[t].rows
      ensures RowOf(AllGather(bufs, SliceBytes(shapes, |inputs|)), shapes, |inputs|, t, i).scale != 0.0
    {
      GatheredRow(bufs, inputs, shapes, d, t, i);
    }
  }

  lemma DecodedIsReduced(bufs: seq<seq<Cell>>, inputs: seq<seq<Tensor>>, shapes: seq<Shape>, d: real,
                         output: seq<Tensor>)
    requires |inputs| > 0 && SameShapes(inputs, shapes) && d > 0.0 && AllOwnReduced(bufs, inputs, shapes, d)
    requires AreBuffers(bufs, shapes) && |output| == |shapes|
    requires forall t :: 0 <= t < |output| ==>
               IsDecoded(AllGather(bufs, SliceBytes(shapes, |inputs|)), shapes, |inputs|, t, output[t])
    ensures IsAllReduced(inputs, shapes, d, output)
  {
    hide AllGather, RowOf, ReducedRow;
    var gathered := AllGather(bufs, SliceBytes(shapes, |inputs|));
    forall t, i | 0 <= t < |shapes| && 0 <= i < shapes[t].rows
      ensures RowOf(gathered, shapes, |inputs|, t, i) == ReducedRow(inputs, shapes, t, i, d)
    {
      GatheredRow(bufs, inputs, shapes, d, t, i);
    }
    forall t | 0 <= t < |shapes|
      ensures IsReducedTensor(inputs, shapes, d, t, output[t])
    {
      assert IsDecoded(gathered, shapes, |inputs|, t, output[t]);
    }
  }

  /** Every row of every tensor answers the reduce operation. */
  ghost predicate AllAnswered(inputs: seq<seq<Tensor>>, shapes: seq<Shape>, op: ReduceOp, output: seq<Tensor>)
    requires |inputs| > 0 && SameShapes(inputs, shapes)
  {
    && |output| == |shapes|
    && forall t, i :: 0 <= t < |shapes| && 0 <= i < shapes[t].rows ==>
         i < |output[t].rows| && Answers(op, output[t].rows[i], RowsOf(inputs, shapes, t, i), shapes[t].cols)
  }

  lemma AllReducedAnswers(inputs: seq<seq<Tensor>>, shapes: seq<Shape>, op: ReduceOp, output: seq<Tensor>)
    requires |inputs| > 0 && SameShapes(inputs, shapes) && !op.OtherOp?
    requires IsAllReduced(inputs, shapes, Factor(|inputs|, op.AvgOp?), output)
    ensures AllAnswered(inputs, shapes, op, output)
  {
    hide Accurate, Answers, RowsOf, Factor;
    forall t, i | 0 <= t < |shapes| && 0 <= i < shapes[t].rows
      ensures i < |output[t].rows| && Answers(op, output[t].rows[i], RowsOf(inputs, shapes, t, i), shapes[t].cols)
    {
      AllReduceIsAccurate(inputs, shapes, Factor(|inputs|, op.AvgOp?), output, t, i);
      AccurateAnswers(op, output[t].rows[i], RowsOf(inputs, shapes, t, i), shapes[t].cols);
    }
  }

  method AllreduceQuantized(inputs: seq<seq<Tensor>>, op: ReduceOp, block: nat)
    returns (outcome: Outcome<seq<seq<Tensor>>>)
    requires |inputs| > 0 && block > 0 && SameShapes(inputs, Shapes(inputs[0]))
    ensures outcome.NotSupported? <==> op.OtherOp?
    ensures outcome.NoTensors? <==> !op.OtherOp? && inputs[0] == []
    ensures outcome.Done? ==>
              && |outcome.value| == |inputs|
              && forall r :: 0 <= r < |inputs| ==>
                   && IsAllReduced(inputs, Shapes(inputs[0]), Factor(|inputs|, op.AvgOp?), outcome.value[r])
                   && AllAnswered(inputs, Shapes(inputs[0]), op, outcome.value[r])
  {
    hide OwnsReduced, AllGather, SliceBytes, Dequantizable, AllAnswered;
    if op.OtherOp? {
      return NotSupported;
    } else if inputs[0] == [] {
      return NoTensors;
    }
    var shapes, n := Shapes(inputs[0]), |inputs|;
    ghost var d := Factor(n, op.AvgOp?);
    var reduced := ExchangeAndReduce(inputs, shapes, op.AvgOp?, block);
    assert AllOwnReduced(reduced, inputs, shapes, d);
    OwnersAreBuffers(reduced, inputs, shapes, d);
    GatheredIsDequantizable(reduced, inputs, shapes, d);
    var gathered := AllGather(reduced, SliceBytes(shapes, n));
    var outputs := [];
    for r := 0 to n
      invariant |outputs| == r
      invariant forall j :: 0 <= j < r ==>
                  IsAllReduced(inputs, shapes, d, outputs[j]) && AllAnswered(inputs, shapes, op, outputs[j])
    {
      var buf := new Cell[|gathered|](x requires 0 <= x < |gathered| => gathered[x]);
      assert buf[..] == gathered;
      var output := DequantizeFrom(shapes, buf, n, block);
      DecodedIsReduced(reduced, inputs, shapes, d, output);
      AllReducedAnswers(inputs, shapes, op, output);
      outputs := outputs + [output];
    }
    outcome := Done(outputs);
  }

  /** All ranks hold the same tensors. */
  lemma AllRanksAgree(inputs: seq<seq<Tensor>>, shapes: seq<Shape>, d: real, one: seq<Tensor>, other: seq<Tensor>)
    requires SameShapes(inputs, shapes) && d > 0.0
    requires IsAllReduced(inputs, shapes, d, one) && IsAllReduced(inputs, shapes, d, other)
    ensures one == other
  {
    hide ReducedRow;
    forall t | 0 <= t < |shapes|
      ensures one[t] == other[t]
    {
      assert IsReducedTensor(inputs, shapes, d, t, one[t]) && IsReducedTensor(inputs, shapes, d, t, other[t]);
      assert one[t].rows == other[t].rows;
    }
  }

  /** Each element is within `2 / (127 d)` times the sum of the ranks' row maxima of the exact sum over `d`. */
  lemma AllReduceIsAccurate(inputs: seq<seq<Tensor>>, shapes: seq<Shape>, d: real, output: seq<Tensor>, t: nat, i: nat)
    requires SameShapes(inputs, shapes) && d > 0.0 && IsAllReduced(inputs, shapes, d, output)
    requires t < |shapes| && i < shapes[t].rows
    ensures i < |output[t].rows|
    ensures Accurate(output[t].rows[i], RowsOf(inputs, shapes, t, i), shapes[t].cols, d)
  {
    assert IsReducedTensor(inputs, shapes, d, t, output[t]);
    ReducedRowIsAccurate(inputs, shapes, t, i, d);
  }

  // ----- Reduce-scatter

  /** Rank `r` ends with its slice of every tensor; rows past the end are zeros. */
  ghost predicate IsScattered(inputs: seq<seq<Tensor>>, shapes: seq<Shape>, d: real, r: nat, output: seq<Tensor>)
    requires SameShapes(inputs, shapes) && d > 0.0 && r < |inputs|
  {
    && |output| == |shapes|
    && forall t :: 0 <= t < |shapes| ==> IsScatteredTensor(inputs, shapes, d, r, t, output[t])
  }

  ghost predicate IsScatteredTensor(inputs: seq<seq<Tensor>>, shapes: seq<Shape>, d: real, r: nat, t: nat, x: Tensor)
    requires SameShapes(inputs, shapes) && d > 0.0 && r < |inputs| && t < |shapes|
  {
    var rows := SliceRows(shapes[t].rows, |inputs|);
    && x.shape == Shape(rows, shapes[t].cols) && |x.rows| == rows
    && forall k :: 0 <= k < rows ==>
         x.rows[k] == Values(OwnerRow(inputs, shapes, Slot(r, t, k), d))
  }

  lemma ChunkRow(buf: seq<Cell>, inputs: seq<seq<Tensor>>, shapes: seq<Shape>, d: real, r: nat, t: nat, k: nat)
    requires |inputs| > 0 && SameShapes(inputs, shapes) && d > 0.0 && OwnsReduced(buf, inputs, shapes, r, d)
    requires IsSlot(shapes, |inputs|, Slot(r, t, k))
    ensures var alone := SliceShapes(shapes, |inputs|);
            var chunk := Chunk(buf, |inputs|, SliceBytes(shapes, |inputs|), r);
            && IsBuffer(chunk, alone, 1) && t < |alone| && k < alone[t].rows
            && RowOf(chunk, alone, 1, t, k) == OwnerRow(inputs, shapes, Slot(r, t, k), d)
  {
    hide Chunk, SlotRow, OwnerRow, SliceBytes, Address;
    ChunkMoves(buf, shapes, |inputs|, Slot(r, t, k));
    SliceDecodesAlone(shapes, |inputs|, Slot(r, t, k));
    OwnerAt(buf, inputs, shapes, Slot(r, t, k), d);
  }

  lemma ChunkIsBuffer(buf: seq<Cell>, shapes: seq<Shape>, group: nat, r: nat)
    requires r < group && IsBuffer(buf, shapes, group)
    ensures IsBuffer(Chunk(buf, group, SliceBytes(shapes, group), r), SliceShapes(shapes, group), 1)
  {
    SliceOffsets(shapes, group, |shapes|);
  }

  lemma OwnerScale(inputs: seq<seq<Tensor>>, shapes: seq<Shape>, s: Slot, d: real)
    requires |inputs| > 0 && SameShapes(inputs, shapes) && IsSlot(shapes, |inputs|, s) && d > 0.0
    ensures OwnerRow(inputs, shapes, s, d).scale != 0.0
  {
  }

  lemma ChunkIsDequantizable(buf: seq<Cell>, inputs: seq<seq<Tensor>>, shapes: seq<Shape>, d: real, r: nat)
    requires SameShapes(inputs, shapes) && d > 0.0 && r < |inputs| && OwnsReduced(buf, inputs, shapes, r, d)
    ensures var chunk := Chunk(buf, |inputs|, SliceBytes(shapes, |inputs|), r);
            && IsBuffer(chunk, SliceShapes(shapes, |inputs|), 1)
            && Dequantizable(chunk, SliceShapes(shapes, |inputs|), 1)
  {
    hide Chunk, RowOf, OwnerRow, SliceBytes;
    var alone := SliceShapes(shapes, |inputs|);
    var chunk := Chunk(buf, |inputs|, SliceBytes(shapes, |inputs|), r);
    ChunkIsBuffer(buf, shapes, |inputs|, r);
    forall t, k | 0 <= t < |alone| && 0 <= k < alone[t].rows
      ensures RowOf(chunk, alone, 1, t, k).scale != 0.0
    {
      ChunkRow(buf, inputs, shapes, d, r, t, k);
      OwnerScale(inputs, shapes, Slot(r, t, k), d);
    }
  }

  lemma ChunkDecodes(buf: seq<Cell>, inputs: seq<seq<Tensor>>, shapes: seq<Shape>, d: real, r: nat, output: seq<Tensor>)
    requires SameShapes(inputs, shapes) && d > 0.0 && r < |inputs| && OwnsReduced(buf, inputs, shapes, r, d)
    requires |output| == |shapes|
    requires IsBuffer(Chunk(buf, |inputs|, SliceBytes(shapes, |inputs|), r), SliceShapes(shapes, |inputs|), 1)
    requires forall t :: 0 <= t < |output| ==>
               IsDecoded(Chunk(buf, |inputs|, SliceBytes(shapes, |inputs|), r), SliceShapes(shapes, |inputs|), 1, t,
                         output[t])
    ensures IsScattered(inputs, shapes, d, r, output)
  {
    hide Chunk, RowOf, OwnerRow, SliceBytes, SliceRows;
    var alone := SliceShapes(shapes, |inputs|);
    var chunk := Chunk(buf, |inputs|, SliceBytes(shapes, |inputs|), r);
    forall t | 0 <= t < |shapes|
      ensures IsScatteredTensor(inputs, shapes, d, r, t, output[t])
    {
      assert IsDecoded(chunk, alone, 1, t, output[t]);
      forall k | 0 <= k < SliceRows(shapes[t].rows, |inputs|)
        ensures output[t].rows[k] == Values(OwnerRow(inputs, shapes, Slot(r, t, k), d))
      {
        ChunkRow(buf, inputs, shapes, d, r, t, k);
      }
    }
  }

  /** Every row that rank `r` owns answers the reduce operation. */
  ghost predicate OwnAnswered(inputs: seq<seq<Tensor>>, shapes: seq<Shape>, op: ReduceOp, r: nat, output: seq<Tensor>)
    requires |inputs| > 0 && SameShapes(inputs, shapes)
  {
    && |output| == |shapes|
    && forall t, k :: 0 <= t < |shapes| && 0 <= k < SliceRows(shapes[t].rows, |inputs|) ==>
         OwnRowAnswered(inputs, shapes, op, r, t, k, output[t].rows)
  }

  ghost predicate OwnRowAnswered(inputs: seq<seq<Tensor>>, shapes: seq<Shape>, op: ReduceOp, r: nat, t: nat, k: nat,
                                 rows: seq<seq<real>>)
    requires |inputs| > 0 && SameShapes(inputs, shapes) && t < |shapes|
  {
    var i := r * SliceRows(shapes[t].rows, |inputs|) + k;
    k < |rows| && (i < shapes[t].rows ==> Answers(op, rows[k], RowsOf(inputs, shapes, t, i), shapes[t].cols))
  }

  lemma ScatteredAnswers(inputs: seq<seq<Tensor>>, shapes: seq<Shape>, op: ReduceOp, r: nat, output: seq<Tensor>)
    requires r < |inputs| && SameShapes(inputs, shapes) && !op.OtherOp?
    requires IsScattered(inputs, shapes, Factor(|inputs|, op.AvgOp?), r, output)
    ensures OwnAnswered(inputs, shapes, op, r, output)
  {
    hide Accurate, Answers, RowsOf, Factor, SliceRows;
    forall t, k | 0 <= t < |shapes| && 0 <= k < SliceRows(shapes[t].rows, |inputs|)
      ensures OwnRowAnswered(inputs, shapes, op, r, t, k, output[t].rows)
    {
      ScatterIsAccurate(inputs, shapes, Factor(|inputs|, op.AvgOp?), r, output, t, k);
      var i := r * SliceRows(shapes[t].rows, |inputs|) + k;
      if i < shapes[t].rows {
        AccurateAnswers(op, output[t].rows[k], RowsOf(inputs, shapes, t, i), shapes[t].cols);
      }
    }
  }

  method ReduceScatterQuantized(inputs: seq<seq<Tensor>>, op: ReduceOp, block: nat)
    returns (outcome: Outcome<seq<seq<Tensor>>>)
    requires |inputs| > 0 && block > 0 && SameShapes(inputs, Shapes(inputs[0]))
    ensures outcome.NotSupported? <==> op.OtherOp?
    ensures outcome.NoTensors? <==> !op.OtherOp? && inputs[0] == []
    ensures outcome.Done? ==>
              && |outcome.value| == |inputs|
              && forall r :: 0 <= r < |inputs| ==>
                   && IsScattered(inputs, Shapes(inputs[0]), Factor(|inputs|, op.AvgOp?), r, outcome.value[r])
                   && OwnAnswered(inputs, Shapes(inputs[0]), op, r, outcome.value[r])
  {
    hide OwnsReduced, Chunk, SliceBytes, Dequantizable, SliceRows, IsDecoded, OwnAnswered;
    if op.OtherOp? {
      return NotSupported;
    } else if inputs[0] == [] {
      return NoTensors;
    }
    var shapes, n := Shapes(inputs[0]), |inputs|;
    ghost var d := Factor(n, op.AvgOp?);
    var padded := GetPaddedSizes(shapes, n);
    var reduced := ExchangeAndReduce(inputs, shapes, op.AvgOp?, block);
    var outputs := [];
    for r := 0 to n
      invariant |outputs| == r
      invariant forall j :: 0 <= j < r ==>
                  IsScattered(inputs, shapes, d, j, outputs[j]) && OwnAnswered(inputs, shapes, op, j, outputs[j])
    {
      ChunkIsDequantizable(reduced[r], inputs, shapes, d, r);
      OwnerIsBuffer(reduced[r], inputs, shapes, d, r);
      var chunk := Chunk(reduced[r], n, SliceBytes(shapes, n), r);
      var outShapes := seq(|padded|, t requires 0 <= t < |padded| => Shape(padded[t].rows / n, padded[t].cols));
      assert outShapes == SliceShapes(shapes, n);
      var buf := new Cell[|chunk|](x requires 0 <= x < |chunk| => chunk[x]);
      assert buf[..] == chunk;
      var output := DequantizeFrom(outShapes, buf, 1, block);
      ChunkDecodes(reduced[r], inputs, shapes, d, r, output);
      ScatteredAnswers(inputs, shapes, op, r, output);
      outputs := outputs + [output];
    }
    outcome := Done(outputs);
  }

  lemma OwnerIsBuffer(buf: seq<Cell>, inputs: seq<seq<Tensor>>, shapes: seq<Shape>, d: real, r: nat)
    requires |inputs| > 0 && SameShapes(inputs, shapes) && d > 0.0 && OwnsReduced(buf, inputs, shapes, r, d)
    ensures IsBuffer(buf, shapes, |inputs|)
  {
  }

  /** Scattered rows are as accurate as all-reduced ones, and padding rows are zero. */
  lemma ScatterIsAccurate(inputs: seq<seq<Tensor>>, shapes: seq<Shape>, d: real, r: nat, output: seq<Tensor>, t: nat,
                          k: nat)
    requires SameShapes(inputs, shapes) && d > 0.0 && r < |inputs| && IsScattered(inputs, shapes, d, r, output)
    requires t < |shapes| && k < SliceRows(shapes[t].rows, |inputs|)
    ensures k < |output[t].rows|
    ensures var i := r * SliceRows(shapes[t].rows, |inputs|) + k;
            if i < shapes[t].rows then
              Accurate(output[t].rows[k], RowsOf(inputs, shapes, t, i), shapes[t].cols, d)
            else
              output[t].rows[k] == seq(shapes[t].cols, _ => 0.0)
  {
    hide SliceRows, ReducedRow;
    assert IsScatteredTensor(inputs, shapes, d, r, t, output[t]);
    var i := r * SliceRows(shapes[t].rows, |inputs|) + k;
    if i < shapes[t].rows {
      ReducedRowIsAccurate(inputs, shapes, t, i, d);
    }
  }
}
