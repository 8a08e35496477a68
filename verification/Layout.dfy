/** Where scales and quantized rows lie in the packed buffer of the quantized collectives. */
module Layout {

  import opened Arithmetic

  /** A two-dimensional tensor; a one-dimensional one counts as a single column. */
  datatype Shape = Shape(rows: nat, cols: nat)

  const ScaleBytes: nat := 4

  function CeilDiv(a: nat, b: nat): nat
    requires b > 0
  {
    (a + b - 1) / b
  }

  /** A scale, then one byte per column, padded to whole scales. */
  function RowBytes(cols: nat): nat {
    (CeilDiv(cols, ScaleBytes) + 1) * ScaleBytes
  }

  /** How many rows of a tensor one rank is responsible for. */
  function SliceRows(rows: nat, group: nat): nat
    requires group > 0
  {
    CeilDiv(rows, group)
  }

  function TensorBytes(s: Shape, group: nat): nat
    requires group > 0
  {
    Product(SliceRows(s.rows, group), RowBytes(s.cols))
  }

  /** Where tensor `t` starts in each rank's slice. */
  function Offset(shapes: seq<Shape>, group: nat, t: nat): nat
    requires group > 0 && t <= |shapes|
  {
    if t == 0 then 0 else Offset(shapes, group, t - 1) + TensorBytes(shapes[t - 1], group)
  }

  function SliceBytes(shapes: seq<Shape>, group: nat): nat
    requires group > 0
  {
    Offset(shapes, group, |shapes|)
  }

  /** The position of one row: of rank `rank`'s slice, tensor `t`, row `k` of the slice. */
  datatype Slot = Slot(rank: nat, t: nat, k: nat)

  predicate IsSlot(shapes: seq<Shape>, group: nat, s: Slot)
    requires group > 0
  {
    s.rank < group && s.t < |shapes| && s.k < SliceRows(shapes[s.t].rows, group)
  }

  function Address(shapes: seq<Shape>, group: nat, s: Slot): nat
    requires group > 0 && IsSlot(shapes, group, s)
  {
    At(s.rank, SliceBytes(shapes, group), Offset(shapes, group, s.t), s.k, RowBytes(shapes[s.t].cols))
  }

  /** Row `k` of a tensor at `offset` in slice `rank`. */
  function At(rank: nat, sliceBytes: nat, offset: nat, k: nat, rowBytes: nat): nat {
    Product(rank, sliceBytes) + offset + Product(k, rowBytes)
  }

  function Product(a: nat, b: nat): nat {
    a * b
  }

  function SlotBytes(shapes: seq<Shape>, s: Slot): nat
    requires s.t < |shapes|
  {
    RowBytes(shapes[s.t].cols)
  }

  /** The slot that the kernels address for row `i` of tensor `t`. */
  function SlotOfRow(shapes: seq<Shape>, group: nat, t: nat, i: nat): Slot
    requires group > 0 && t < |shapes| && i < shapes[t].rows
  {
    SliceIsNotEmpty(shapes[t].rows, group);
    var n := SliceRows(shapes[t].rows, group);
    Slot(i / n, t, i % n)
  }

  // ----- Rounding up

  lemma CeilDivCovers(a: nat, b: nat)
    requires b > 0
    ensures a <= CeilDiv(a, b) * b < a + b
  {
    Divided(a + b - 1, b);
  }

  lemma SliceIsNotEmpty(rows: nat, group: nat)
    requires group > 0 && rows > 0
    ensures SliceRows(rows, group) > 0
  {
    CeilDivCovers(rows, group);
  }

  /** A row takes the least multiple of four bytes that holds a scale and a byte per column. */
  lemma RowFits(cols: nat)
    ensures 4 + cols <= RowBytes(cols) < 8 + cols
    ensures RowBytes(cols) % 4 == 0
  {
    CeilDivCovers(cols, ScaleBytes);
  }

  // ----- The layout computed with running offsets

  method PrepareLayout(shapes: seq<Shape>, group: nat)
    returns (offsets: seq<nat>, outputSize: nat, maxRows: nat)
    requires group > 0
    ensures |offsets| == |shapes|
    ensures forall t :: 0 <= t < |shapes| ==> offsets[t] == Offset(shapes, group, t)
    ensures outputSize == Product(group, SliceBytes(shapes, group))
    ensures GridCovers(shapes, group, |shapes|, maxRows)
  {
    hide SliceRows, Product, RowBytes, TensorBytes, Spans, GridCovers, Offset;
    OffsetSteps(shapes, group);
    offsets, outputSize, maxRows := [], 0, 0;
    GridOfNone(shapes, group);
    var perRank := 0;
    ProductWithZero(group);
    for t := 0 to |shapes|
      invariant |offsets| == t
      invariant forall u :: 0 <= u < t ==> offsets[u] == Offset(shapes, group, u)
      invariant perRank == Offset(shapes, group, t)
      invariant outputSize == Product(group, perRank)
      invariant GridCovers(shapes, group, t, maxRows)
    {
      var padded, paddedBytes, tensorBytes := PaddedTensor(shapes[t], group);
      GridGrows(shapes, group, t, maxRows, padded);
      maxRows := if padded > maxRows then padded else maxRows;
      Distribute(group, perRank, tensorBytes);
      offsets := offsets + [perRank];
      perRank := perRank + tensorBytes;
      outputSize := outputSize + paddedBytes;
    }
  }

  predicate Spans(maxRows: nat, group: nat, slice: nat)
    requires group > 0
  {
    slice <= maxRows / group
  }

  lemma OffsetSteps(shapes: seq<Shape>, group: nat)
    requires group > 0
    ensures Offset(shapes, group, 0) == 0
    ensures forall t :: 0 <= t < |shapes| ==>
              Offset(shapes, group, t + 1) == Offset(shapes, group, t) + TensorBytes(shapes[t], group)
  {
  }

  /** A launch over `maxRows` rows, or over `maxRows / group` slice rows, reaches every row of the first `n` tensors. */
  ghost predicate GridCovers(shapes: seq<Shape>, group: nat, n: nat, maxRows: nat)
    requires group > 0 && n <= |shapes|
  {
    forall t :: 0 <= t < n ==> Spans(maxRows, group, SliceRows(shapes[t].rows, group)) && shapes[t].rows <= maxRows
  }

  lemma GridOfNone(shapes: seq<Shape>, group: nat)
    requires group > 0
    ensures GridCovers(shapes, group, 0, 0)
  {
  }

  lemma GridGrows(shapes: seq<Shape>, group: nat, t: nat, maxRows: nat, padded: nat)
    requires group > 0 && t < |shapes| && GridCovers(shapes, group, t, maxRows)
    requires shapes[t].rows <= padded && Spans(padded, group, SliceRows(shapes[t].rows, group))
    ensures GridCovers(shapes, group, t + 1, if padded > maxRows then padded else maxRows)
  {
    hide SliceRows, Spans;
    var larger := if padded > maxRows then padded else maxRows;
    forall u | 0 <= u < t
      ensures Spans(larger, group, SliceRows(shapes[u].rows, group))
    {
      SpansMore(maxRows, larger, group, SliceRows(shapes[u].rows, group));
    }
    SpansMore(padded, larger, group, SliceRows(shapes[t].rows, group));
  }

  /** One tensor's rows and bytes once every rank has as many of them. */
  method PaddedTensor(s: Shape, group: nat) returns (padded: nat, paddedBytes: nat, perRank: nat)
    requires group > 0
    ensures s.rows <= padded && Spans(padded, group, SliceRows(s.rows, group))
    ensures paddedBytes == Product(group, TensorBytes(s, group)) && perRank == TensorBytes(s, group)
  {
    var slice := CeilDiv(s.rows, group);
    padded := slice * group;
    paddedBytes := padded * (CeilDiv(s.cols, ScaleBytes) + 1) * ScaleBytes;
    CeilDivCovers(s.rows, group);
    DivideBy(padded, group, slice, 0);
    WholeSlices(slice, group, CeilDiv(s.cols, ScaleBytes) + 1);
    QuotientOfProduct(group, TensorBytes(s, group));
    perRank := paddedBytes / group;
  }

  lemma WholeSlices(slice: nat, group: nat, units: nat)
    ensures slice * group * units * ScaleBytes == Product(group, Product(slice, units * ScaleBytes))
  {
    assert slice * group * units * ScaleBytes == (slice * group) * (units * ScaleBytes);
  }

  /** So the kernels' size per rank, `outputSize / group`, is the size of one slice. */
  lemma QuotientOfProduct(n: nat, q: nat)
    requires n > 0
    ensures Product(n, q) / n == q
  {
    DivideBy(n * q, n, q, 0);
  }

  lemma Distribute(n: nat, a: nat, b: nat)
    ensures Product(n, a + b) == Product(n, a) + Product(n, b)
  {
  }

  lemma ProductWithZero(n: nat)
    ensures Product(n, 0) == 0
  {
  }

  lemma SpansMore(a: nat, b: nat, n: nat, slice: nat)
    requires n > 0 && a <= b && Spans(a, n, slice)
    ensures Spans(b, n, slice)
  {
    Divided(a, n);
    Divided(b, n);
    if a / n > b / n {
      NextMultiple(b / n, a / n, n);
    }
  }

  method GetPaddedSizes(shapes: seq<Shape>, group: nat) returns (padded: seq<Shape>)
    requires group > 0
    ensures |padded| == |shapes|
    ensures forall t :: 0 <= t < |shapes| ==>
              && padded[t].cols == shapes[t].cols && shapes[t].rows <= padded[t].rows < shapes[t].rows + group
              && padded[t].rows % group == 0
              && padded[t].rows / group == SliceRows(shapes[t].rows, group)
  {
    padded := [];
    for t := 0 to |shapes|
      invariant |padded| == t
      invariant forall u :: 0 <= u < t ==>
                  && padded[u].cols == shapes[u].cols && shapes[u].rows <= padded[u].rows < shapes[u].rows + group
                  && padded[u].rows % group == 0
                  && padded[u].rows / group == SliceRows(shapes[u].rows, group)
    {
      var slice := CeilDiv(shapes[t].rows, group);
      CeilDivCovers(shapes[t].rows, group);
      DivideBy(slice * group, group, slice, 0);
      padded := padded + [Shape(slice * group, shapes[t].cols)];
    }
  }

  // ----- Slots are aligned, in bounds, disjoint, and leave no gap

  lemma {:induction false} OffsetsGrow(shapes: seq<Shape>, group: nat, a: nat, b: nat)
    requires group > 0 && a < b <= |shapes|
    ensures Offset(shapes, group, a) + TensorBytes(shapes[a], group) <= Offset(shapes, group, b)
    decreases b
  {
    if a + 1 < b {
      OffsetsGrow(shapes, group, a, b - 1);
    }
  }

  lemma {:induction false} OffsetsAreAligned(shapes: seq<Shape>, group: nat, t: nat)
    requires group > 0 && t <= |shapes|
    ensures Offset(shapes, group, t) % ScaleBytes == 0
  {
    hide Product, SliceRows, RowBytes;
    if t > 0 {
      OffsetsAreAligned(shapes, group, t - 1);
      TensorIsAligned(shapes[t - 1], group);
    }
  }

  lemma TensorIsAligned(s: Shape, group: nat)
    requires group > 0
    ensures TensorBytes(s, group) % ScaleBytes == 0
  {
    hide Product, SliceRows, RowBytes;
    RowFits(s.cols);
    MultipleIsAligned(SliceRows(s.rows, group), RowBytes(s.cols));
  }

  lemma MultipleIsAligned(a: nat, b: nat)
    requires b % ScaleBytes == 0
    ensures Product(a, b) % ScaleBytes == 0
  {
    var q := b / ScaleBytes;
    assert b == q * ScaleBytes;
    assert a * b == (a * q) * ScaleBytes;
    DivideBy(a * b, ScaleBytes, a * q, 0);
  }

  lemma SlotsAreAligned(shapes: seq<Shape>, group: nat, s: Slot)
    requires group > 0 && IsSlot(shapes, group, s)
    ensures Address(shapes, group, s) % ScaleBytes == 0
  {
    hide Offset, RowBytes, SliceRows, Product;
    OffsetsAreAligned(shapes, group, |shapes|);
    OffsetsAreAligned(shapes, group, s.t);
    MultipleIsAligned(s.rank, SliceBytes(shapes, group));
    RowFits(shapes[s.t].cols);
    MultipleIsAligned(s.k, RowBytes(shapes[s.t].cols));
  }

  /** A slot lies within its tensor's part of its rank's slice. */
  lemma SlotWithinSlice(shapes: seq<Shape>, group: nat, s: Slot)
    requires group > 0 && IsSlot(shapes, group, s)
    ensures var inSlice := Address(shapes, group, s) - Product(s.rank, SliceBytes(shapes, group));
            && Offset(shapes, group, s.t) <= inSlice
            && inSlice + SlotBytes(shapes, s) <= Offset(shapes, group, s.t) + TensorBytes(shapes[s.t], group)
            && inSlice + SlotBytes(shapes, s) <= SliceBytes(shapes, group)
  {
    OffsetsGrow(shapes, group, s.t, |shapes|);
    NextMultiple(s.k, SliceRows(shapes[s.t].rows, group), RowBytes(shapes[s.t].cols));
  }

  lemma SlotsAreInBounds(shapes: seq<Shape>, group: nat, s: Slot)
    requires group > 0 && IsSlot(shapes, group, s)
    ensures Product(s.rank, SliceBytes(shapes, group)) <= Address(shapes, group, s)
    ensures Address(shapes, group, s) + SlotBytes(shapes, s) <= Product(s.rank + 1, SliceBytes(shapes, group))
    ensures Address(shapes, group, s) + SlotBytes(shapes, s) <= Product(group, SliceBytes(shapes, group))
  {
    hide Product, SliceBytes, Offset, RowBytes, SliceRows;
    var bytes := SliceBytes(shapes, group);
    SlotWithinSlice(shapes, group, s);
    ProductStep(s.rank, bytes);
    ProductGrows(s.rank, group, bytes);
  }

  lemma ProductStep(n: nat, bytes: nat)
    ensures Product(0, bytes) == 0
    ensures Product(n + 1, bytes) == Product(n, bytes) + bytes
  {
  }

  lemma ProductGrows(j: nat, n: nat, bytes: nat)
    requires j < n
    ensures Product(j, bytes) + bytes <= Product(n, bytes)
  {
    NextMultiple(j, n, bytes);
  }

  ghost predicate Apart(shapes: seq<Shape>, group: nat, a: Slot, b: Slot)
    requires group > 0 && IsSlot(shapes, group, a) && IsSlot(shapes, group, b)
  {
    || Address(shapes, group, a) + SlotBytes(shapes, a) <= Address(shapes, group, b)
    || Address(shapes, group, b) + SlotBytes(shapes, b) <= Address(shapes, group, a)
  }

  lemma SlotsAreDisjoint(shapes: seq<Shape>, group: nat, a: Slot, b: Slot)
    requires group > 0 && IsSlot(shapes, group, a) && IsSlot(shapes, group, b) && a != b
    ensures Apart(shapes, group, a, b)
  {
    if a.rank != b.rank {
      SlotWithinSlice(shapes, group, a);
      SlotWithinSlice(shapes, group, b);
      if a.rank < b.rank {
        NextMultiple(a.rank, b.rank, SliceBytes(shapes, group));
      } else {
        NextMultiple(b.rank, a.rank, SliceBytes(shapes, group));
      }
    } else if a.t != b.t {
      SlotWithinSlice(shapes, group, a);
      SlotWithinSlice(shapes, group, b);
      if a.t < b.t {
        OffsetsGrow(shapes, group, a.t, b.t);
      } else {
        OffsetsGrow(shapes, group, b.t, a.t);
      }
    } else {
      if a.k < b.k {
        NextMultiple(a.k, b.k, RowBytes(shapes[a.t].cols));
      } else {
        NextMultiple(b.k, a.k, RowBytes(shapes[a.t].cols));
      }
    }
  }

  lemma {:induction false} TensorOfByte(shapes: seq<Shape>, group: nat, n: nat, y: nat) returns (t: nat)
    requires group > 0 && n <= |shapes| && y < Offset(shapes, group, n)
    ensures t < n && Offset(shapes, group, t) <= y < Offset(shapes, group, t) + TensorBytes(shapes[t], group)
  {
    if y >= Offset(shapes, group, n - 1) {
      t := n - 1;
    } else {
      t := TensorOfByte(shapes, group, n - 1, y);
    }
  }

  lemma PositionOfByte(x: nat, b: nat, offset: nat, n: nat, w: nat)
    requires b > 0 && offset <= x % b < offset + Product(n, w)
    ensures w > 0 && (x % b - offset) / w < n
    ensures var start := At(x / b, b, offset, (x % b - offset) / w, w); start <= x < start + w
  {
    var z := x % b - offset;
    Quotient(z, n, w);
    Divided(z, w);
    Divided(x, b);
  }

  ghost predicate InSlot(shapes: seq<Shape>, group: nat, s: Slot, x: nat)
    requires group > 0
  {
    IsSlot(shapes, group, s) && Address(shapes, group, s) <= x < Address(shapes, group, s) + SlotBytes(shapes, s)
  }

  /** Every byte of the buffer is in some slot, padding rows included. */
  lemma SlotsLeaveNoGap(shapes: seq<Shape>, group: nat, x: nat)
    requires group > 0 && x < group * SliceBytes(shapes, group)
    ensures exists s :: InSlot(shapes, group, s, x)
  {
    hide Offset, RowBytes, SliceRows, Product, At;
    var b := SliceBytes(shapes, group);
    Quotient(x, group, b);
    var t := TensorOfByte(shapes, group, |shapes|, x % b);
    var z := x % b - Offset(shapes, group, t);
    var w := RowBytes(shapes[t].cols);
    PositionOfByte(x, b, Offset(shapes, group, t), SliceRows(shapes[t].rows, group), w);
    assert InSlot(shapes, group, Slot(x / b, t, z / w), x);
  }

  /** Each row has a slot of its own; a slot that belongs to no row is a padding row. */
  lemma RowsHaveSlots(shapes: seq<Shape>, group: nat, t: nat, i: nat)
    requires group > 0 && t < |shapes| && i < shapes[t].rows
    ensures IsSlot(shapes, group, SlotOfRow(shapes, group, t, i))
    ensures var s := SlotOfRow(shapes, group, t, i);
            i == s.rank * SliceRows(shapes[t].rows, group) + s.k
  {
    var n := SliceRows(shapes[t].rows, group);
    SliceIsNotEmpty(shapes[t].rows, group);
    CeilDivCovers(shapes[t].rows, group);
    Divided(i, n);
    assert n * group == group * n;
    Quotient(i, group, n);
  }

  /** No two rows share a slot. */
  lemma SlotsOfRowsAreDistinct(shapes: seq<Shape>, group: nat, t: nat, i: nat, u: nat, j: nat)
    requires group > 0 && t < |shapes| && u < |shapes| && i < shapes[t].rows && j < shapes[u].rows
    requires t != u || i != j
    ensures SlotOfRow(shapes, group, t, i) != SlotOfRow(shapes, group, u, j)
  {
    RowsHaveSlots(shapes, group, t, i);
    RowsHaveSlots(shapes, group, u, j);
  }

  /** The row a slot stands for, if it is not padding. */
  lemma SlotsOfSlice(shapes: seq<Shape>, group: nat, s: Slot)
    requires group > 0 && IsSlot(shapes, group, s)
    ensures var i := s.rank * SliceRows(shapes[s.t].rows, group) + s.k;
            i < shapes[s.t].rows ==> SlotOfRow(shapes, group, s.t, i) == s
  {
    var n := SliceRows(shapes[s.t].rows, group);
    DivideBy(s.rank * n + s.k, n, s.rank, s.k);
  }

  // ----- One rank's slice, read on its own

  function SliceShapes(shapes: seq<Shape>, group: nat): (r: seq<Shape>)
    requires group > 0
    ensures |r| == |shapes|
  {
    seq(|shapes|, t requires 0 <= t < |shapes| => Shape(SliceRows(shapes[t].rows, group), shapes[t].cols))
  }

  lemma {:induction false} SliceOffsets(shapes: seq<Shape>, group: nat, t: nat)
    requires group > 0 && t <= |shapes|
    ensures Offset(SliceShapes(shapes, group), 1, t) == Offset(shapes, group, t)
  {
    if t > 0 {
      SliceOffsets(shapes, group, t - 1);
      assert SliceRows(SliceRows(shapes[t - 1].rows, group), 1) == SliceRows(shapes[t - 1].rows, group);
    }
  }

  /** Re-read with group size 1 and the row counts of a slice, every row is where it was in the slice. */
  lemma SliceDecodesAlone(shapes: seq<Shape>, group: nat, s: Slot)
    requires group > 0 && IsSlot(shapes, group, s)
    ensures var alone := SliceShapes(shapes, group);
            && SliceBytes(alone, 1) == SliceBytes(shapes, group)
            && s.k < alone[s.t].rows
            && SlotOfRow(alone, 1, s.t, s.k) == Slot(0, s.t, s.k)
            && IsSlot(alone, 1, Slot(0, s.t, s.k))
            && s.rank * SliceBytes(shapes, group) + Address(alone, 1, Slot(0, s.t, s.k))
               == Address(shapes, group, s)
  {
    SliceOffsets(shapes, group, |shapes|);
    SliceOffsets(shapes, group, s.t);
    var n := SliceRows(shapes[s.t].rows, group);
    assert SliceRows(n, 1) == n;
    DivideBy(s.k, n, 0, s.k);
  }
}
