/** Launching the row kernels over every tensor: quantize into, reduce within, and dequantize from a packed buffer. */
module PackedBuffer {

  import opened Arithmetic
  import opened Layout
  import opened Quantization
  import opened Kernels

  datatype Tensor = Tensor(shape: Shape, rows: seq<seq<real>>)

  ghost predicate WellShaped(x: Tensor) {
    |x.rows| == x.shape.rows && forall i :: 0 <= i < |x.rows| ==> |x.rows[i]| == x.shape.cols
  }

  ghost predicate AllWellShaped(xs: seq<Tensor>) {
    forall t :: 0 <= t < |xs| ==> WellShaped(xs[t])
  }

  function Shapes(xs: seq<Tensor>): (r: seq<Shape>)
    ensures |r| == |xs|
  {
    seq(|xs|, t requires 0 <= t < |xs| => xs[t].shape)
  }

  predicate IsBuffer(buf: seq<Cell>, shapes: seq<Shape>, group: nat)
    requires group > 0
  {
    |buf| == Product(group, SliceBytes(shapes, group))
  }

  lemma SlotFits(shapes: seq<Shape>, group: nat, s: Slot)
    requires group > 0 && IsSlot(shapes, group, s)
    ensures Address(shapes, group, s) + ScaleBytes + shapes[s.t].cols <= Product(group, SliceBytes(shapes, group))
    ensures ScaleBytes + shapes[s.t].cols <= SlotBytes(shapes, s)
  {
    hide Address, RowBytes, SliceBytes;
    SlotsAreInBounds(shapes, group, s);
    Layout.RowFits(shapes[s.t].cols);
  }

  /** The row held by a slot. */
  function SlotRow(buf: seq<Cell>, shapes: seq<Shape>, group: nat, s: Slot): (r: Row)
    requires group > 0 && IsSlot(shapes, group, s) && IsBuffer(buf, shapes, group)
    ensures |r.quants| == shapes[s.t].cols
  {
    SlotFits(shapes, group, s);
    RowAt(buf, Address(shapes, group, s), shapes[s.t].cols)
  }

  /** Writing within one slot leaves the row of every other slot as it was. */
  lemma OtherSlotsKept(before: seq<Cell>, after: seq<Cell>, shapes: seq<Shape>, group: nat, s: Slot, other: Slot)
    requires group > 0 && IsSlot(shapes, group, s) && IsSlot(shapes, group, other) && other != s
    requires IsBuffer(before, shapes, group)
    requires SameOutside(before, after, Address(shapes, group, s),
                         Address(shapes, group, s) + ScaleBytes + shapes[s.t].cols)
    ensures IsBuffer(after, shapes, group)
    ensures SlotRow(after, shapes, group, other) == SlotRow(before, shapes, group, other)
  {
    hide Address, RowBytes, RowAt, SlotBytes, Product;
    SlotFits(shapes, group, s);
    SlotFits(shapes, group, other);
    SlotsAreDisjoint(shapes, group, s, other);
    RowKept(before, after, Address(shapes, group, s), Address(shapes, group, s) + ScaleBytes + shapes[s.t].cols,
            Address(shapes, group, other), shapes[other.t].cols);
  }

  // ----- Quantizing

  /** What a slot holds once every program but the pending ones has run. */
  ghost function Stored(xs: seq<Tensor>, group: nat, pending: set<(nat, nat)>, s: Slot): Row
    requires group > 0 && IsSlot(Shapes(xs), group, s) && AllWellShaped(xs)
  {
    var i := s.rank * SliceRows(xs[s.t].shape.rows, group) + s.k;
    if i < xs[s.t].shape.rows && (i, s.t) !in pending then
      Quantized(xs[s.t].rows[i])
    else
      ZeroRow(xs[s.t].shape.cols)
  }

  ghost predicate Holds(buf: seq<Cell>, xs: seq<Tensor>, group: nat, pending: set<(nat, nat)>)
    requires group > 0 && AllWellShaped(xs)
  {
    && IsBuffer(buf, Shapes(xs), group)
    && forall s :: IsSlot(Shapes(xs), group, s) ==>
         SlotRow(buf, Shapes(xs), group, s) == Stored(xs, group, pending, s)
  }

  /** The programs of a launch. */
  function Grid(rows: nat, tensors: nat): set<(nat, nat)> {
    set i: nat, t: nat | 0 <= i < rows && 0 <= t < tensors :: (i, t)
  }

  lemma BlankBuffer(buf: seq<Cell>, xs: seq<Tensor>, group: nat, maxRows: nat)
    requires group > 0 && AllWellShaped(xs) && IsBuffer(buf, Shapes(xs), group)
    requires forall x :: 0 <= x < |buf| ==> buf[x] == Zero
    requires GridCovers(Shapes(xs), group, |xs|, maxRows)
    ensures Holds(buf, xs, group, Grid(maxRows, |xs|))
  {
    hide Address, ZeroRow, RowAt, Stored;
    forall s | IsSlot(Shapes(xs), group, s)
      ensures SlotRow(buf, Shapes(xs), group, s) == Stored(xs, group, Grid(maxRows, |xs|), s)
    {
      SlotFits(Shapes(xs), group, s);
      BlankRow(buf, Address(Shapes(xs), group, s), Shapes(xs)[s.t].cols);
      PendingRow(xs, group, maxRows, s);
    }
  }

  lemma BlankRow(buf: seq<Cell>, a: nat, cols: nat)
    requires a + ScaleBytes + cols <= |buf| && forall x :: 0 <= x < |buf| ==> buf[x] == Zero
    ensures RowAt(buf, a, cols) == ZeroRow(cols)
  {
    forall c | 0 <= c < cols
      ensures RowAt(buf, a, cols).quants[c] == 0
    {
      assert RowAt(buf, a, cols).quants[c] == LoadQuant(buf[a + ScaleBytes + c]);
    }
  }

  lemma PendingRow(xs: seq<Tensor>, group: nat, maxRows: nat, s: Slot)
    requires group > 0 && AllWellShaped(xs) && IsSlot(Shapes(xs), group, s)
    requires GridCovers(Shapes(xs), group, |xs|, maxRows)
    ensures Stored(xs, group, Grid(maxRows, |xs|), s) == ZeroRow(xs[s.t].shape.cols)
  {
    hide SliceRows, Spans;
    assert Shapes(xs)[s.t].rows <= maxRows;
  }

  /** One program: row `i` of tensor `t`, or nothing if the tensor has fewer rows. */
  method QuantizeProgram(xs: seq<Tensor>, offsets: seq<nat>, buf: array<Cell>, perRank: nat, group: nat, i: nat, t: nat,
                         block: nat)
    requires group > 0 && block > 0 && AllWellShaped(xs) && t < |xs| && IsBuffer(buf[..], Shapes(xs), group)
    requires perRank == SliceBytes(Shapes(xs), group)
    requires |offsets| == |xs| && offsets[t] == Offset(Shapes(xs), group, t)
    modifies buf
    ensures i >= xs[t].shape.rows ==> buf[..] == old(buf[..])
    ensures i < xs[t].shape.rows ==>
              var s := SlotOfRow(Shapes(xs), group, t, i);
              && IsSlot(Shapes(xs), group, s)
              && SameOutside(old(buf[..]), buf[..], Address(Shapes(xs), group, s),
                             Address(Shapes(xs), group, s) + ScaleBytes + xs[t].shape.cols)
              && IsBuffer(buf[..], Shapes(xs), group)
              && SlotRow(buf[..], Shapes(xs), group, s) == Quantized(xs[t].rows[i])
  {
    if i < xs[t].shape.rows {
      ghost var s := SlotOfRow(Shapes(xs), group, t, i);
      RowsHaveSlots(Shapes(xs), group, t, i);
      SlotFits(Shapes(xs), group, s);
      SliceIsNotEmpty(xs[t].shape.rows, group);
      var slice := CeilDiv(xs[t].shape.rows, group);
      var rowBytes := (CeilDiv(xs[t].shape.cols, ScaleBytes) + 1) * ScaleBytes;
      var a := Product(i / slice, perRank) + offsets[t] + Product(i % slice, rowBytes);
      assert a == Address(Shapes(xs), group, s);
      QuantizeRow(xs[t].rows[i], buf, a, block);
    }
  }

  lemma ProgramDone(before: seq<Cell>, after: seq<Cell>, xs: seq<Tensor>, group: nat, pending: set<(nat, nat)>, i: nat,
                    t: nat)
    requires group > 0 && AllWellShaped(xs) && t < |xs| && Holds(before, xs, group, pending)
    requires i >= xs[t].shape.rows ==> after == before
    requires i < xs[t].shape.rows ==>
               var s := SlotOfRow(Shapes(xs), group, t, i);
               && IsSlot(Shapes(xs), group, s)
               && SameOutside(before, after, Address(Shapes(xs), group, s),
                              Address(Shapes(xs), group, s) + ScaleBytes + xs[t].shape.cols)
               && IsBuffer(after, Shapes(xs), group)
               && SlotRow(after, Shapes(xs), group, s) == Quantized(xs[t].rows[i])
    ensures Holds(after, xs, group, pending - {(i, t)})
  {
    hide Address, SlotRow;
    forall s | IsSlot(Shapes(xs), group, s)
      ensures SlotRow(after, Shapes(xs), group, s) == Stored(xs, group, pending - {(i, t)}, s)
    {
      SlotsOfSlice(Shapes(xs), group, s);
      if i < xs[t].shape.rows {
        RowsHaveSlots(Shapes(xs), group, t, i);
        if s != SlotOfRow(Shapes(xs), group, t, i) {
          OtherSlotsKept(before, after, Shapes(xs), group, SlotOfRow(Shapes(xs), group, t, i), s);
        }
      }
    }
  }

  /** The programs run in any order, into a zeroed buffer. */
  method QuantizeInto(xs: seq<Tensor>, group: nat, block: nat) returns (buf: array<Cell>)
    requires group > 0 && block > 0 && AllWellShaped(xs)
    ensures fresh(buf) && Holds(buf[..], xs, group, {})
  {
    hide Holds, GridCovers;
    var offsets, outputSize, maxRows := PrepareLayout(Shapes(xs), group);
    buf := new Cell[outputSize](_ => Zero);
    QuotientOfProduct(group, SliceBytes(Shapes(xs), group));
    var perRank := outputSize / group;
    var pending := Grid(maxRows, |xs|);
    BlankBuffer(buf[..], xs, group, maxRows);
    while pending != {}
      invariant pending <= Grid(maxRows, |xs|)
      invariant Holds(buf[..], xs, group, pending)
      decreases |pending|
    {
      var p :| p in pending;
      ghost var before := buf[..];
      QuantizeProgram(xs, offsets, buf, perRank, group, p.0, p.1, block);
      ProgramDone(before, buf[..], xs, group, pending, p.0, p.1);
      pending := pending - {p};
    }
  }

  // ----- Reducing

  /** Every rank's copy of row `k` of tensor `t`. */
  function Copies(buf: seq<Cell>, shapes: seq<Shape>, group: nat, t: nat, k: nat): (r: seq<Row>)
    requires group > 0 && IsBuffer(buf, shapes, group) && IsSlot(shapes, group, Slot(0, t, k))
    ensures |r| == group && AllWide(r, shapes[t].cols)
  {
    seq(group, j requires 0 <= j < group => SlotRow(buf, shapes, group, Slot(j, t, k)))
  }

  /** What a slot holds once every program but the pending ones has reduced its row. */
  ghost function AfterReduce(before: seq<Cell>, shapes: seq<Shape>, group: nat, rank: nat, d: real,
                             pending: set<(nat, nat)>, s: Slot): Row
    requires group > 0 && d > 0.0 && IsBuffer(before, shapes, group) && IsSlot(shapes, group, s)
  {
    if s.rank == rank && (s.k, s.t) !in pending then
      Reduced(Copies(before, shapes, group, s.t, s.k), shapes[s.t].cols, d)
    else
      SlotRow(before, shapes, group, s)
  }

  ghost predicate ReducedBuffer(before: seq<Cell>, after: seq<Cell>, shapes: seq<Shape>, group: nat, rank: nat, d: real,
                                pending: set<(nat, nat)>)
    requires group > 0 && d > 0.0 && IsBuffer(before, shapes, group)
  {
    && IsBuffer(after, shapes, group)
    && forall s :: IsSlot(shapes, group, s) ==>
         SlotRow(after, shapes, group, s) == AfterReduce(before, shapes, group, rank, d, pending, s)
  }

  /** The copies of a row, one stride apart, are the slots of the row. */
  lemma CopiesAreStrided(buf: seq<Cell>, shapes: seq<Shape>, group: nat, t: nat, k: nat)
    requires group > 0 && IsBuffer(buf, shapes, group) && IsSlot(shapes, group, Slot(0, t, k))
    ensures var offset := Offset(shapes, group, t) + Product(k, RowBytes(shapes[t].cols));
            && RowsFit(|buf|, offset, group, SliceBytes(shapes, group), shapes[t].cols)
            && RankRows(buf, offset, group, SliceBytes(shapes, group), shapes[t].cols)
               == Copies(buf, shapes, group, t, k)
  {
    var offset := Offset(shapes, group, t) + Product(k, RowBytes(shapes[t].cols));
    var stride := SliceBytes(shapes, group);
    forall j | 0 <= j < group
      ensures Product(j, stride) + offset == Address(shapes, group, Slot(j, t, k))
      ensures Product(j, stride) + offset + ScaleBytes + shapes[t].cols <= |buf|
    {
      SlotFits(shapes, group, Slot(j, t, k));
    }
    forall i, j | 0 <= i < j < group
      ensures Product(i, stride) + ScaleBytes + shapes[t].cols <= Product(j, stride)
    {
      SlotWithinSlice(shapes, group, Slot(i, t, k));
      SlotFits(shapes, group, Slot(i, t, k));
      NextMultiple(i, j, stride);
    }
  }

  /** One program of rank `rank`: row `k` of tensor `t` within a slice, padding rows included. */
  method ReduceProgram(shapes: seq<Shape>, offsets: seq<nat>, buf: array<Cell>, perRank: nat, group: nat, rank: nat,
                       d: real, k: nat, t: nat, block: nat)
    requires rank < group && block > 0 && d > 0.0 && t < |shapes| && IsBuffer(buf[..], shapes, group)
    requires perRank == SliceBytes(shapes, group)
    requires |offsets| == |shapes| && offsets[t] == Offset(shapes, group, t)
    modifies buf
    ensures k >= SliceRows(shapes[t].rows, group) ==> buf[..] == old(buf[..])
    ensures k < SliceRows(shapes[t].rows, group) ==>
              ProgramReduced(old(buf[..]), buf[..], shapes, group, Slot(rank, t, k), d)
  {
    hide Reduced, RowAt, Product;
    if k < CeilDiv(shapes[t].rows, group) {
      var rowBytes := (CeilDiv(shapes[t].cols, ScaleBytes) + 1) * ScaleBytes;
      var offset := offsets[t] + Product(k, rowBytes);
      CopiesAreStrided(buf[..], shapes, group, t, k);
      assert Product(rank, perRank) + offset == Address(shapes, group, Slot(rank, t, k));
      ReduceRow(buf, offset, group, rank, perRank, shapes[t].cols, d, block);
    }
  }

  ghost predicate ProgramReduced(before: seq<Cell>, after: seq<Cell>, shapes: seq<Shape>, group: nat, s: Slot, d: real)
    requires group > 0 && d > 0.0 && IsSlot(shapes, group, s) && IsBuffer(before, shapes, group)
  {
    && SameOutside(before, after, Address(shapes, group, s),
                   Address(shapes, group, s) + ScaleBytes + shapes[s.t].cols)
    && IsBuffer(after, shapes, group)
    && SlotRow(after, shapes, group, s)
       == Reduced(Copies(before, shapes, group, s.t, s.k), shapes[s.t].cols, d)
  }

  /** Programs do not disturb one another: no other program reads or writes the row a program reads. */
  lemma ReduceProgramDone(start: seq<Cell>, before: seq<Cell>, after: seq<Cell>, shapes: seq<Shape>, group: nat,
                          rank: nat, d: real, pending: set<(nat, nat)>, k: nat, t: nat)
    requires rank < group && d > 0.0 && t < |shapes| && IsBuffer(start, shapes, group) && (k, t) in pending
    requires ReducedBuffer(start, before, shapes, group, rank, d, pending)
    requires k >= SliceRows(shapes[t].rows, group) ==> after == before
    requires k < SliceRows(shapes[t].rows, group) ==>
               ProgramReduced(before, after, shapes, group, Slot(rank, t, k), d)
    ensures ReducedBuffer(start, after, shapes, group, rank, d, pending - {(k, t)})
  {
    hide Address, SlotRow, Reduced;
    forall s | IsSlot(shapes, group, s)
      ensures SlotRow(after, shapes, group, s) == AfterReduce(start, shapes, group, rank, d, pending - {(k, t)}, s)
    {
      if k < SliceRows(shapes[t].rows, group) {
        if s != Slot(rank, t, k) {
          OtherSlotsKept(before, after, shapes, group, Slot(rank, t, k), s);
        } else {
          CopiesPending(start, before, shapes, group, rank, d, pending, k, t);
        }
      }
    }
  }

  lemma CopiesPending(start: seq<Cell>, before: seq<Cell>, shapes: seq<Shape>, group: nat, rank: nat, d: real,
                      pending: set<(nat, nat)>, k: nat, t: nat)
    requires group > 0 && d > 0.0 && IsBuffer(start, shapes, group) && IsSlot(shapes, group, Slot(0, t, k))
    requires ReducedBuffer(start, before, shapes, group, rank, d, pending) && (k, t) in pending
    ensures Copies(before, shapes, group, t, k) == Copies(start, shapes, group, t, k)
  {
    hide Address, Reduced;
    forall j | 0 <= j < group
      ensures Copies(before, shapes, group, t, k)[j] == Copies(start, shapes, group, t, k)[j]
    {
      var s := Slot(j, t, k);
      assert IsSlot(shapes, group, s);
      assert SlotRow(before, shapes, group, s) == AfterReduce(start, shapes, group, rank, d, pending, s);
    }
  }

  function Factor(group: nat, average: bool): (d: real)
    requires group > 0
    ensures d > 0.0
  {
    if average then group as real else 1.0
  }

  /** In any order of the programs, each row is reduced from the original copies. */
  method ReduceIn(shapes: seq<Shape>, buf: array<Cell>, group: nat, rank: nat, average: bool, block: nat)
    requires rank < group && block > 0 && IsBuffer(buf[..], shapes, group)
    modifies buf
    ensures ReducedBuffer(old(buf[..]), buf[..], shapes, group, rank, Factor(group, average), {})
  {
    hide GridCovers, ReducedBuffer, AfterReduce;
    var offsets, outputSize, maxRows := PrepareLayout(shapes, group);
    QuotientOfProduct(group, SliceBytes(shapes, group));
    var perRank := outputSize / group;
    var d := Factor(group, average);
    var pending := Grid(maxRows / group, |shapes|);
    ghost var start := buf[..];
    ghost var reach := maxRows / group;
    NothingReducedYet(start, shapes, group, rank, d, maxRows);
    while pending != {}
      invariant pending <= Grid(reach, |shapes|)
      invariant ReducedBuffer(start, buf[..], shapes, group, rank, d, pending)
      invariant IsBuffer(buf[..], shapes, group)
      decreases |pending|
    {
      var p :| p in pending;
      ghost var before := buf[..];
      ReduceProgram(shapes, offsets, buf, perRank, group, rank, d, p.0, p.1, block);
      ReduceProgramDone(start, before, buf[..], shapes, group, rank, d, pending, p.0, p.1);
      pending := pending - {p};
    }
  }

  lemma NothingReducedYet(buf: seq<Cell>, shapes: seq<Shape>, group: nat, rank: nat, d: real, maxRows: nat)
    requires group > 0 && d > 0.0 && IsBuffer(buf, shapes, group) && GridCovers(shapes, group, |shapes|, maxRows)
    ensures ReducedBuffer(buf, buf, shapes, group, rank, d, Grid(maxRows / group, |shapes|))
  {
    hide Reduced, SlotRow;
    forall s | IsSlot(shapes, group, s)
      ensures (s.k, s.t) in Grid(maxRows / group, |shapes|)
    {
      assert Spans(maxRows, group, SliceRows(shapes[s.t].rows, group));
    }
  }

  // ----- Dequantizing

  ghost predicate Dequantizable(buf: seq<Cell>, shapes: seq<Shape>, group: nat)
    requires group > 0 && IsBuffer(buf, shapes, group)
  {
    forall t, i :: 0 <= t < |shapes| && 0 <= i < shapes[t].rows ==> RowOf(buf, shapes, group, t, i).scale != 0.0
  }

  /** The row stored for row `i` of tensor `t`. */
  function RowOf(buf: seq<Cell>, shapes: seq<Shape>, group: nat, t: nat, i: nat): (r: Row)
    requires group > 0 && IsBuffer(buf, shapes, group) && t < |shapes| && i < shapes[t].rows
    ensures |r.quants| == shapes[t].cols
  {
    RowsHaveSlots(shapes, group, t, i);
    SlotRow(buf, shapes, group, SlotOfRow(shapes, group, t, i))
  }

  method DequantizeProgram(shapes: seq<Shape>, offsets: seq<nat>, buf: array<Cell>, perRank: nat, group: nat, i: nat,
                           t: nat, block: nat)
    returns (x: seq<real>)
    requires group > 0 && block > 0 && IsBuffer(buf[..], shapes, group) && t < |shapes| && i < shapes[t].rows
    requires perRank == SliceBytes(shapes, group)
    requires |offsets| == |shapes| && offsets[t] == Offset(shapes, group, t)
    requires RowOf(buf[..], shapes, group, t, i).scale != 0.0
    ensures x == Values(RowOf(buf[..], shapes, group, t, i))
  {
    ghost var s := SlotOfRow(shapes, group, t, i);
    RowsHaveSlots(shapes, group, t, i);
    SlotFits(shapes, group, s);
    SliceIsNotEmpty(shapes[t].rows, group);
    var slice := CeilDiv(shapes[t].rows, group);
    var rowBytes := (CeilDiv(shapes[t].cols, ScaleBytes) + 1) * ScaleBytes;
    var a := Product(i / slice, perRank) + offsets[t] + Product(i % slice, rowBytes);
    assert a == Address(shapes, group, s);
    x := DequantizeRow(buf, a, shapes[t].cols, block);
  }

  method DequantizeFrom(shapes: seq<Shape>, buf: array<Cell>, group: nat, block: nat) returns (xs: seq<Tensor>)
    requires group > 0 && block > 0 && IsBuffer(buf[..], shapes, group) && Dequantizable(buf[..], shapes, group)
    ensures |xs| == |shapes|
    ensures forall t :: 0 <= t < |xs| ==> IsDecoded(buf[..], shapes, group, t, xs[t])
  {
    hide GridCovers, RowOf, IsBuffer;
    var offsets, outputSize, maxRows := PrepareLayout(shapes, group);
    QuotientOfProduct(group, SliceBytes(shapes, group));
    var perRank := outputSize / group;
    xs := [];
    for t := 0 to |shapes|
      invariant |xs| == t
      invariant forall u :: 0 <= u < t ==> IsDecoded(buf[..], shapes, group, u, xs[u])
    {
      var rows := [];
      for i := 0 to shapes[t].rows
        invariant |rows| == i
        invariant forall h :: 0 <= h < i ==> rows[h] == Values(RowOf(buf[..], shapes, group, t, h))
      {
        var x := DequantizeProgram(shapes, offsets, buf, perRank, group, i, t, block);
        rows := rows + [x];
      }
      xs := xs + [Tensor(shapes[t], rows)];
    }
  }

  ghost predicate IsDecoded(buf: seq<Cell>, shapes: seq<Shape>, group: nat, t: nat, x: Tensor)
    requires group > 0 && IsBuffer(buf, shapes, group) && t < |shapes|
  {
    && x.shape == shapes[t] && |x.rows| == shapes[t].rows
    && forall i :: 0 <= i < |x.rows| ==> x.rows[i] == Values(RowOf(buf, shapes, group, t, i))
  }
}
