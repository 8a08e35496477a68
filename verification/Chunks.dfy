/** Splitting a checkpoint's values into chunks for parallel fetching, and merging them back. */
module Chunks {

  /** Every `step`-th element of `values`, from `start` on. */
  function Strided<T>(values: seq<T>, start: nat, step: nat): seq<T>
    requires step > 0
    decreases if start < |values| then |values| - start else 0
  {
    if start >= |values| then [] else [values[start]] + Strided(values, start + step, step)
  }

  function SplitChunks<T>(values: seq<T>, numChunks: nat): (chunks: seq<seq<T>>)
    ensures |chunks| == numChunks
  {
    seq(numChunks, i requires 0 <= i < numChunks => Strided(values, i, numChunks))
  }

  /** Element `j` of chunk `c`, where there is one, is element `c + j * n` of the list. */
  lemma {:induction false} StridedAt<T>(values: seq<T>, start: nat, step: nat, j: nat)
    requires step > 0
    ensures j < |Strided(values, start, step)| <==> start + j * step < |values|
    ensures j < |Strided(values, start, step)| ==> Strided(values, start, step)[j] == values[start + j * step]
    decreases j
  {
    if j == 0 {
      assert start + 0 * step == start;
    } else if start < |values| {
      StridedAt(values, start + step, step, j - 1);
      assert start + step + (j - 1) * step == start + j * step;
    } else {
      assert j * step >= 0;
    }
  }

  function MaxLength<T>(chunks: seq<seq<T>>): (m: nat)
    ensures forall c :: 0 <= c < |chunks| ==> |chunks[c]| <= m
  {
    if chunks == [] then 0 else
      var m := MaxLength(chunks[..|chunks| - 1]);
      var last := |chunks[|chunks| - 1]|;
      assert forall c :: 0 <= c < |chunks| - 1 ==> chunks[c] == chunks[..|chunks| - 1][c];
      if last > m then last else m
  }

  /** How many elements come before element `i` of chunk `c` when the chunks came from splitting `size` elements. */
  function Position(size: nat, numChunks: nat, i: nat, c: nat): nat {
    var p := i * numChunks + c;
    if p < size then p else size
  }

  /** The chunks' elements row by row: all rows before `i`, and row `i` up to chunk `c`. */
  function MergedUpto<T>(chunks: seq<seq<T>>, i: nat, c: nat): seq<T>
    requires c <= |chunks|
    decreases i, c
  {
    if c > 0 then
      MergedUpto(chunks, i, c - 1) + (if i < |chunks[c - 1]| then [chunks[c - 1][i]] else [])
    else if i > 0 then
      MergedUpto(chunks, i - 1, |chunks|)
    else
      []
  }

  function Merged<T>(chunks: seq<seq<T>>): seq<T> {
    MergedUpto(chunks, MaxLength(chunks), 0)
  }

  method MergeChunks<T>(chunks: seq<seq<T>>) returns (merged: seq<T>)
    requires |chunks| > 0
    ensures merged == Merged(chunks)
  {
    var maxLength := MaxLength(chunks);
    merged := [];
    for i := 0 to maxLength
      invariant merged == MergedUpto(chunks, i, 0)
    {
      for c := 0 to |chunks|
        invariant merged == MergedUpto(chunks, i, c)
      {
        if i < |chunks[c]| {
          merged := merged + [chunks[c][i]];
        }
      }
    }
  }

  lemma {:induction false} MergedIsPrefix<T>(values: seq<T>, n: nat, i: nat, c: nat)
    requires n > 0 && c <= n
    ensures MergedUpto(SplitChunks(values, n), i, c) == values[..Position(|values|, n, i, c)]
    decreases i, c
  {
    if c > 0 {
      MergedIsPrefix(values, n, i, c - 1);
      StridedAt(values, c - 1, n, i);
      NextPosition(|values|, n, i, c - 1);
    } else if i > 0 {
      MergedIsPrefix(values, n, i - 1, n);
      NextRow(|values|, n, i - 1);
    }
  }

  /** Merging the chunks of any list gives the list, for every number of chunks. */
  lemma SplitThenMerge<T>(values: seq<T>, n: nat)
    requires n > 0
    ensures Merged(SplitChunks(values, n)) == values
  {
    var chunks := SplitChunks(values, n);
    MergedIsPrefix(values, n, MaxLength(chunks), 0);
    AllMerged(values, n, MaxLength(chunks));
  }

  lemma NextPosition(size: nat, n: nat, i: nat, c: nat)
    requires c < n
    ensures Position(size, n, i, c + 1) == Position(size, n, i, c) + (if c + i * n < size then 1 else 0)
    ensures c + i * n < size ==> Position(size, n, i, c) == c + i * n
  {
  }

  lemma NextRow(size: nat, n: nat, i: nat)
    ensures Position(size, n, i, n) == Position(size, n, i + 1, 0)
  {
    assert i * n + n == (i + 1) * n + 0;
  }

  lemma AllMerged<T>(values: seq<T>, n: nat, m: nat)
    requires n > 0 && forall c :: 0 <= c < n ==> |SplitChunks(values, n)[c]| <= m
    ensures Position(|values|, n, m, 0) == |values|
    ensures values[..|values|] == values
  {
    assert |SplitChunks(values, n)[0]| <= m;
    StridedAt(values, 0, n, m);
  }
}
