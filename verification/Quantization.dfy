/** One row's arithmetic in the quantized collectives, over the reals with the int8 limit. */
module Quantization {

  import opened Arithmetic

  const Limit: real := 127.0

  function Abs(x: real): (r: real)
    ensures r >= 0.0 && (r == x || r == -x)
  {
    if x < 0.0 then -x else x
  }

  function Max(a: real, b: real): real {
    if a < b then b else a
  }

  /** Conversion to an integer type drops the fraction. */
  function Truncate(x: real): int {
    if x >= 0.0 then x.Floor else -((-x).Floor)
  }

  /** The largest magnitude in a row, and 0 for an empty one. */
  function RowMax(x: seq<real>): (m: real)
    ensures m >= 0.0
  {
    if x == [] then 0.0 else Max(RowMax(x[..|x| - 1]), Abs(x[|x| - 1]))
  }

  /** The limit divided by the maximum; infinity, for an all-zero row, becomes 1. */
  function Scale(rowMax: real): (s: real)
    requires rowMax >= 0.0
    ensures s > 0.0
  {
    if rowMax == 0.0 then 1.0 else Limit / rowMax
  }

  /** A row as it is stored: a scale and one small integer per column. */
  datatype Row = Row(scale: real, quants: seq<int>)

  function Quantize(x: real, scale: real): int {
    Truncate(Times(x, scale))
  }

  function Times(a: real, b: real): real {
    a * b
  }

  function Over(a: real, b: real): real
    requires b != 0.0
  {
    a / b
  }

  function Quantized(x: seq<real>): Row {
    var scale := Scale(RowMax(x));
    Row(scale, seq(|x|, c requires 0 <= c < |x| => Quantize(x[c], scale)))
  }

  /** Padding rows are never written, so their scale reads 0; 1 is used instead. */
  function Divisor(scale: real): (s: real)
    ensures s != 0.0 && (scale == 0.0 ==> s == 1.0) && (scale != 0.0 ==> s == scale)
  {
    if scale == 0.0 then 1.0 else scale
  }

  function Dequantize(q: int, scale: real): real {
    q as real / Divisor(scale)
  }

  function Value(row: Row, c: nat): real
    requires c < |row.quants|
  {
    Dequantize(row.quants[c], row.scale)
  }

  function Values(row: Row): seq<real> {
    seq(|row.quants|, c requires 0 <= c < |row.quants| => Value(row, c))
  }

  function Sum(x: seq<real>): real {
    if x == [] then 0.0 else Sum(x[..|x| - 1]) + x[|x| - 1]
  }

  ghost predicate AllWide(rows: seq<Row>, cols: nat) {
    forall j :: 0 <= j < |rows| ==> |rows[j].quants| == cols
  }

  /** Column `c` of all the rows, dequantized. */
  function Column(rows: seq<Row>, cols: nat, c: nat): seq<real>
    requires AllWide(rows, cols) && c < cols
  {
    seq(|rows|, j requires 0 <= j < |rows| => Value(rows[j], c))
  }

  function Sums(rows: seq<Row>, cols: nat): (r: seq<real>)
    requires AllWide(rows, cols)
    ensures |r| == cols
  {
    seq(cols, c requires 0 <= c < cols => Sum(Column(rows, cols, c)))
  }

  function QuantizeQuotient(sum: real, scale: real, d: real): int
    requires d > 0.0
  {
    Truncate(Over(Times(sum, scale), d))
  }

  /** The rows of all ranks dequantized, added, divided and quantized again. */
  function Reduced(rows: seq<Row>, cols: nat, d: real): (r: Row)
    requires AllWide(rows, cols) && d > 0.0
    ensures |r.quants| == cols
  {
    var sums := Sums(rows, cols);
    var scale := Scale(RowMax(sums) / d);
    Row(scale, seq(cols, c requires 0 <= c < cols => QuantizeQuotient(sums[c], scale, d)))
  }

  function ZeroRow(cols: nat): Row {
    Row(0.0, seq(cols, _ => 0))
  }

  // ----- The maximum and the sum

  lemma {:induction false} RowMaxBounds(x: seq<real>, c: nat)
    requires c < |x|
    ensures Abs(x[c]) <= RowMax(x)
  {
    if c < |x| - 1 {
      RowMaxBounds(x[..|x| - 1], c);
    }
  }

  lemma {:induction false} RowMaxIsReached(x: seq<real>)
    ensures RowMax(x) == 0.0 || exists c :: 0 <= c < |x| && Abs(x[c]) == RowMax(x)
  {
    if x != [] {
      var y := x[..|x| - 1];
      RowMaxIsReached(y);
      if RowMax(x) == RowMax(y) != 0.0 {
        var c :| 0 <= c < |y| && Abs(y[c]) == RowMax(y);
        assert Abs(x[c]) == RowMax(x);
      } else if RowMax(x) != 0.0 {
        assert Abs(x[|x| - 1]) == RowMax(x);
      }
    }
  }

  /** A bound on every magnitude bounds the maximum. */
  lemma {:induction false} RowMaxIsLeast(x: seq<real>, m: real)
    requires m >= 0.0 && forall c :: 0 <= c < |x| ==> Abs(x[c]) <= m
    ensures RowMax(x) <= m
  {
    RowMaxIsReached(x);
  }

  lemma {:induction false} SumIsMonotonic(x: seq<real>, y: seq<real>)
    requires |x| == |y| && forall j :: 0 <= j < |x| ==> x[j] <= y[j]
    ensures Sum(x) <= Sum(y)
  {
    if x != [] {
      SumIsMonotonic(x[..|x| - 1], y[..|y| - 1]);
    }
  }

  lemma {:induction false} SumOfMagnitudes(x: seq<real>, m: seq<real>)
    requires |x| == |m| && forall j :: 0 <= j < |x| ==> Abs(x[j]) <= m[j]
    ensures Abs(Sum(x)) <= Sum(m)
  {
    if x != [] {
      SumOfMagnitudes(x[..|x| - 1], m[..|m| - 1]);
    }
  }

  /** Terms that differ by at most `m[j] / 127` give sums that differ by at most `Sum(m) / 127`. */
  lemma {:induction false} SumOfErrors(x: seq<real>, y: seq<real>, m: seq<real>)
    requires |x| == |y| == |m|
    requires forall j :: 0 <= j < |x| ==> Abs(x[j] - y[j]) <= m[j] / 127.0
    ensures Abs(Sum(x) - Sum(y)) <= Sum(m) / 127.0
  {
    if x != [] {
      SumOfErrors(x[..|x| - 1], y[..|y| - 1], m[..|m| - 1]);
      assert (Sum(m[..|m| - 1]) + m[|m| - 1]) / 127.0 == Sum(m[..|m| - 1]) / 127.0 + m[|m| - 1] / 127.0;
    }
  }

  lemma {:induction false} SumOfConcatenation(x: seq<real>, y: seq<real>)
    ensures Sum(x + y) == Sum(x) + Sum(y)
  {
    if y == [] {
      assert x + y == x;
    } else {
      SumOfConcatenation(x, y[..|y| - 1]);
      assert (x + y)[..|x + y| - 1] == x + y[..|y| - 1];
    }
  }

  /** The order in which a rank walks over the others: itself first, then round. */
  function Rotated(x: seq<real>, start: nat): (r: seq<real>)
    requires start < |x|
    ensures |r| == |x|
  {
    seq(|x|, j requires 0 <= j < |x| => x[(j + start) % |x|])
  }

  lemma RotatedAt(x: seq<real>, start: nat, j: nat)
    requires start < |x| && j < |x|
    ensures Rotated(x, start)[j] == if j < |x| - start then x[start + j] else x[j - (|x| - start)]
  {
    Wrap(j + start, |x|);
  }

  /** Starting the addition at one's own rank changes nothing. */
  lemma SumIgnoresRotation(x: seq<real>, start: nat)
    requires start < |x|
    ensures Sum(Rotated(x, start)) == Sum(x)
  {
    hide Rotated;
    forall j | 0 <= j < |x|
      ensures Rotated(x, start)[j] == (x[start..] + x[..start])[j]
    {
      RotatedAt(x, start, j);
    }
    assert Rotated(x, start) == x[start..] + x[..start];
    SumOfConcatenation(x[start..], x[..start]);
    SumOfConcatenation(x[..start], x[start..]);
    assert x[..start] + x[start..] == x;
  }

  // ----- What one quantization loses

  lemma TruncateError(y: real)
    ensures Abs(Truncate(y) as real - y) < 1.0
    ensures Abs(Truncate(y) as real) <= Abs(y)
  {
  }

  lemma QuantizeError(y: real, s: real)
    ensures Abs(Quantize(y, s) as real - y * s) < 1.0
    ensures Abs(Quantize(y, s) as real) <= Abs(y * s)
  {
    TruncateError(y * s);
  }

  lemma DivideBack(q: real, y: real, s: real)
    requires s > 0.0
    ensures q / s - y == (q - y * s) / s
  {
  }

  lemma DividedMagnitude(a: real, b: real, s: real)
    requires s > 0.0 && Abs(a) <= b
    ensures Abs(a / s) <= b / s
  {
    assert a / s == a * (1.0 / s) && b / s == b * (1.0 / s);
    Grows(a, b, 1.0 / s);
    Grows(-a, b, 1.0 / s);
  }

  lemma Grows(a: real, b: real, s: real)
    requires a <= b && s > 0.0
    ensures a * s <= b * s
  {
  }

  lemma ProductMagnitude(a: real, s: real)
    requires s > 0.0
    ensures Abs(a * s) == Abs(a) * s
  {
    if a < 0.0 {
      Grows(a, 0.0, s);
    } else {
      Grows(0.0, a, s);
    }
  }

  /** Quantizing one value against a maximum: the integer fits in 8 bits, and little is lost. */
  lemma OneValue(y: real, rowMax: real)
    requires Abs(y) <= rowMax
    ensures var q := Quantize(y, Scale(rowMax));
            && -127 <= q <= 127
            && Abs(Dequantize(q, Scale(rowMax)) - y) <= rowMax / 127.0
            && Abs(Dequantize(q, Scale(rowMax))) <= Abs(y)
  {
    hide Quantize;
    QuantizeError(y, Scale(rowMax));
    if rowMax == 0.0 {
      assert y == 0.0;
    } else {
      OneInteger(Quantize(y, Scale(rowMax)), y, rowMax, Scale(rowMax));
    }
  }

  lemma OneInteger(q: int, y: real, m: real, s: real)
    requires Abs(y) <= m && m > 0.0 && s == 127.0 / m
    requires Abs(q as real - y * s) < 1.0 && Abs(q as real) <= Abs(y * s)
    ensures -127 <= q <= 127
    ensures Abs(Dequantize(q, s) - y) <= m / 127.0
    ensures Abs(Dequantize(q, s)) <= Abs(y)
  {
    WithinLimit(Abs(y), m);
    ScaledMagnitude(y, m, s);
    FitsInByte(q);
    TruncatedQuotient(q as real, y, s);
  }

  lemma ScaledMagnitude(y: real, m: real, s: real)
    requires Abs(y) <= m && m > 0.0 && s == 127.0 / m
    ensures Abs(y * s) == Abs(y) * s <= 127.0
  {
    WithinLimit(Abs(y), m);
    ProductMagnitude(y, s);
  }

  lemma FitsInByte(q: int)
    ensures Abs(q as real) <= 127.0 ==> -127 <= q <= 127
  {
  }

  lemma TruncatedQuotient(q: real, y: real, s: real)
    requires s > 0.0 && Abs(q - y * s) < 1.0 && Abs(q) <= Abs(y) * s
    ensures Abs(q / s - y) <= 1.0 / s
    ensures Abs(q / s) <= Abs(y)
  {
    DivideBack(q, y, s);
    DividedMagnitude(q - y * s, 1.0, s);
    DividedMagnitude(q, Abs(y) * s, s);
    assert (Abs(y) * s) / s == Abs(y);
  }

  lemma WithinLimit(y: real, m: real)
    requires 0.0 <= y <= m && m > 0.0
    ensures y * (127.0 / m) <= 127.0
    ensures 1.0 / (127.0 / m) == m / 127.0
  {
    Grows(y, m, 127.0 / m);
    assert m * (127.0 / m) == 127.0;
  }

  /** A quantized row fits in int8 and is within `RowMax / 127` of the original, and never larger. */
  lemma QuantizedError(x: seq<real>, c: nat)
    requires c < |x|
    ensures -127 <= Quantized(x).quants[c] <= 127
    ensures Abs(Value(Quantized(x), c) - x[c]) <= RowMax(x) / 127.0
    ensures Abs(Value(Quantized(x), c)) <= Abs(x[c])
  {
    RowMaxBounds(x, c);
    OneValue(x[c], RowMax(x));
  }

  /** A row's largest value is stored as the largest integer, by the scale. */
  lemma LargestIsStoredAs127(x: seq<real>, c: nat)
    requires c < |x| && Abs(x[c]) == RowMax(x) > 0.0
    ensures Quantized(x).scale == 127.0 / RowMax(x)
    ensures Quantized(x).quants[c] == if x[c] > 0.0 then 127 else -127
  {
    hide Quantize;
    QuantizeLargest(x[c], RowMax(x));
  }

  lemma QuantizeLargest(y: real, m: real)
    requires m > 0.0 && Abs(y) == m
    ensures Quantize(y, 127.0 / m) == if y > 0.0 then 127 else -127
  {
    hide Truncate;
    TimesOver(m);
    assert Times(y, 127.0 / m) == if y > 0.0 then 127.0 else -127.0;
    TruncateError(127.0);
    TruncateError(-127.0);
  }

  lemma TimesOver(m: real)
    requires m > 0.0
    ensures Times(m, 127.0 / m) == 127.0 && Times(-m, 127.0 / m) == -127.0
  {
    var s := 127.0 / m;
    assert s * m == 127.0;
  }

  /** The second quantization divides after scaling, which is the same as quantizing the quotient. */
  lemma ReducedError(rows: seq<Row>, cols: nat, d: real, c: nat)
    requires AllWide(rows, cols) && d > 0.0 && c < cols
    ensures -127 <= Reduced(rows, cols, d).quants[c] <= 127
    ensures Abs(Value(Reduced(rows, cols, d), c) - Sums(rows, cols)[c] / d) <= RowMax(Sums(rows, cols)) / d / 127.0
  {
    hide Quantize, Sum, RowMax, Abs;
    var sums := Sums(rows, cols);
    var m := RowMax(sums);
    RowMaxBounds(sums, c);
    DividedMagnitude(sums[c], m, d);
    QuotientIsMagnitude(m, d);
    OneValue(sums[c] / d, m / d);
    ScaleThenDivide(sums[c], Scale(m / d), d);
    var row := Reduced(rows, cols, d);
    assert row.scale == Scale(m / d) && row.quants[c] == QuantizeQuotient(sums[c], Scale(m / d), d);
  }

  lemma ScaleThenDivide(a: real, s: real, d: real)
    requires d > 0.0
    ensures QuantizeQuotient(a, s, d) == Quantize(a / d, s)
  {
    Reassociate(a, s, d);
  }

  lemma Reassociate(a: real, s: real, d: real)
    requires d > 0.0
    ensures Over(Times(a, s), d) == Times(a / d, s)
  {
    var t := a / d;
    var u := t * s;
    assert a == t * d;
    assert a * s == u * d by {
      assert (t * d) * s == (t * s) * d;
    }
    CancelFactor(u, d);
  }

  lemma CancelFactor(u: real, d: real)
    requires d > 0.0
    ensures u * d / d == u
  {
  }

  lemma QuotientIsMagnitude(m: real, d: real)
    requires m >= 0.0 && d > 0.0
    ensures m / d >= 0.0
  {
  }

  /** One exact column, and the maxima of the rows. */
  function Across(xs: seq<seq<real>>, c: nat): seq<real>
    requires forall j :: 0 <= j < |xs| ==> c < |xs[j]|
  {
    seq(|xs|, j requires 0 <= j < |xs| => xs[j][c])
  }

  function Maxima(xs: seq<seq<real>>): seq<real> {
    seq(|xs|, j requires 0 <= j < |xs| => RowMax(xs[j]))
  }

  function QuantizedAll(xs: seq<seq<real>>): (r: seq<Row>)
    ensures |r| == |xs| && forall j :: 0 <= j < |r| ==> |r[j].quants| == |xs[j]|
  {
    seq(|xs|, j requires 0 <= j < |xs| => Quantized(xs[j]))
  }

  lemma TermError(xs: seq<seq<real>>, cols: nat, c: nat, j: nat)
    requires c < cols && j < |xs| && forall j :: 0 <= j < |xs| ==> |xs[j]| == cols
    ensures AllWide(QuantizedAll(xs), cols)
    ensures var term := Column(QuantizedAll(xs), cols, c)[j];
            && Abs(term - Across(xs, c)[j]) <= Maxima(xs)[j] / 127.0
            && Abs(term) <= Maxima(xs)[j]
  {
    QuantizedError(xs[j], c);
    RowMaxBounds(xs[j], c);
  }

  lemma ColumnError(xs: seq<seq<real>>, cols: nat, c: nat)
    requires c < cols && forall j :: 0 <= j < |xs| ==> |xs[j]| == cols
    ensures AllWide(QuantizedAll(xs), cols)
    ensures var column := Column(QuantizedAll(xs), cols, c);
            && Abs(Sum(column) - Sum(Across(xs, c))) <= Sum(Maxima(xs)) / 127.0
            && Abs(Sum(column)) <= Sum(Maxima(xs))
  {
    hide Value, RowMax, Abs, Quantized;
    var column := Column(QuantizedAll(xs), cols, c);
    forall j | 0 <= j < |xs|
      ensures Abs(column[j] - Across(xs, c)[j]) <= Maxima(xs)[j] / 127.0
      ensures Abs(column[j]) <= Maxima(xs)[j]
    {
      TermError(xs, cols, c, j);
    }
    SumOfErrors(column, Across(xs, c), Maxima(xs));
    SumOfMagnitudes(column, Maxima(xs));
  }

  lemma {:induction false} MaximaAddUp(xs: seq<seq<real>>, cols: nat)
    requires forall j :: 0 <= j < |xs| ==> |xs[j]| == cols
    ensures AllWide(QuantizedAll(xs), cols)
    ensures RowMax(Sums(QuantizedAll(xs), cols)) <= Sum(Maxima(xs))
  {
    var sums := Sums(QuantizedAll(xs), cols);
    forall c | 0 <= c < |sums|
      ensures Abs(sums[c]) <= Sum(Maxima(xs))
    {
      ColumnError(xs, cols, c);
    }
    MaximaAreMagnitudes(xs);
    RowMaxIsLeast(sums, Sum(Maxima(xs)));
  }

  lemma MaximaAreMagnitudes(xs: seq<seq<real>>)
    ensures Sum(Maxima(xs)) >= 0.0
  {
    var zero := seq(|xs|, _ => 0.0);
    SumIsMonotonic(zero, Maxima(xs));
    SumOfZeros(zero);
  }

  lemma {:induction false} SumOfZeros(x: seq<real>)
    requires forall j :: 0 <= j < |x| ==> x[j] == 0.0
    ensures Sum(x) == 0.0
  {
    if x != [] {
      SumOfZeros(x[..|x| - 1]);
    }
  }

  /**
   * Quantize, reduce, quantize: each element of the result is within `2 / (127 d)` times the sum of the rows'
   * maxima of the exact quotient.
   */
  lemma RoundTripError(xs: seq<seq<real>>, cols: nat, d: real, c: nat)
    requires c < cols && d > 0.0 && forall j :: 0 <= j < |xs| ==> |xs[j]| == cols
    ensures AllWide(QuantizedAll(xs), cols)
    ensures Abs(Value(Reduced(QuantizedAll(xs), cols, d), c) - Sum(Across(xs, c)) / d)
            <= 2.0 / (127.0 * d) * Sum(Maxima(xs))
  {
    hide Reduced, Sum, Value, Maxima, Across, RowMax, Abs;
    ColumnError(xs, cols, c);
    MaximaAddUp(xs, cols);
    var rows := QuantizedAll(xs);
    ReducedError(rows, cols, d, c);
    TwoErrors(Value(Reduced(rows, cols, d), c), Sums(rows, cols)[c], Sum(Across(xs, c)), RowMax(Sums(rows, cols)),
              Sum(Maxima(xs)), d);
  }

  lemma TwoErrors(out: real, sum: real, exact: real, m: real, total: real, d: real)
    requires d > 0.0 && 0.0 <= m <= total
    requires Abs(out - sum / d) <= m / d / 127.0 && Abs(sum - exact) <= total / 127.0
    ensures Abs(out - exact / d) <= 2.0 / (127.0 * d) * total
  {
    DividedMagnitude(sum - exact, total / 127.0, d);
    DividedMagnitude(m, total, d);
    assert (sum - exact) / d == sum / d - exact / d;
    TwiceOver(total, d);
  }

  lemma TwiceOver(total: real, d: real)
    requires d > 0.0
    ensures total / d / 127.0 + total / 127.0 / d == 2.0 / (127.0 * d) * total
  {
    var u := 1.0 / (127.0 * d);
    assert total / d / 127.0 == total * u by { OverBoth(total, d, 127.0); }
    assert total / 127.0 / d == total * u by { OverBoth(total, 127.0, d); }
    assert 2.0 / (127.0 * d) == 2.0 * u;
  }

  lemma OverBoth(a: real, p: real, q: real)
    requires p > 0.0 && q > 0.0
    ensures a / p / q == a * (1.0 / (q * p)) == a * (1.0 / (p * q))
  {
    assert (a * (1.0 / (p * q))) * q * p == a;
  }

  /** Rows that were never written reduce to zeros, with a scale that can be divided by. */
  lemma PaddingReducesToZero(rows: seq<Row>, cols: nat, d: real)
    requires d > 0.0 && forall j :: 0 <= j < |rows| ==> rows[j] == ZeroRow(cols)
    ensures AllWide(rows, cols) && Reduced(rows, cols, d) == Row(1.0, seq(cols, _ => 0))
  {
    var sums := Sums(rows, cols);
    forall c | 0 <= c < cols
      ensures sums[c] == 0.0
    {
      SumOfZeros(Column(rows, cols, c));
    }
    RowMaxIsLeast(sums, 0.0);
    assert 0.0 / d == 0.0;
    assert Reduced(rows, cols, d).quants == seq(cols, _ => 0);
  }
}
