/**
 * The iterators of src/matrix/iter.rs. They walk a flat row-major slice
 * `entries` in which cell (i, j) of a matrix with COLS columns sits at offset
 * `i * COLS + j` (`Matrices.Flatten`). `RowIter` steps `index` by 1 from
 * `COLS * i` to `end = COLS * (i + 1) - 1`; `ColIter` steps it by COLS from `j`
 * to `end = (ROWS - 1) * COLS + j`. Each class exposes, as a ghost function,
 * the items it has still to yield; `next` yields the first of them.
 */
module Iters {
  import opened Wrappers
  import opened Matrices

  /** Offset `j + k * cols` lies inside a `rows * cols` buffer. */
  lemma StrideBound(j: nat, k: nat, cols: nat, rows: nat)
    requires j < cols && k < rows
    ensures j + k * cols < rows * cols
  {
    calc {
      j + k * cols;
    <
      cols + k * cols;
    ==
      (k + 1) * cols;
    <= { MulMonotone(k + 1, rows, cols); }
      rows * cols;
    }
  }

  lemma MulMonotone(x: nat, y: nat, c: nat)
    requires x <= y
    ensures x * c <= y * c
  {
  }

  /** The k-th entry of column j, k = 0 .. rows - 1, read with stride `cols`. */
  function Strided(s: seq<int>, j: nat, cols: nat, rows: nat): (r: seq<int>)
    requires j < cols && rows * cols <= |s|
    ensures |r| == rows
    ensures forall k :: 0 <= k < rows ==> j + k * cols < |s| && r[k] == s[j + k * cols]
  {
    var r := seq(rows, k requires 0 <= k < rows => StrideBound(j, k, cols, rows); s[j + k * cols]);
    assert forall k :: 0 <= k < rows ==> j + k * cols < |s| && r[k] == s[j + k * cols] by {
      forall k | 0 <= k < rows
        ensures j + k * cols < |s| && r[k] == s[j + k * cols]
      {
        StrideBound(j, k, cols, rows);
      }
    }
    r
  }

  /** Row i of the nested rows is the slice `[n * i, n * (i + 1))` of the row-major layout. */
  lemma FlattenRow(a: Matrix, m: nat, n: nat, i: nat)
    requires Shaped(a, m, n) && i < m
    ensures n * (i + 1) <= |Flatten(a, m, n)|
    ensures Flatten(a, m, n)[n * i .. n * (i + 1)] == Row(a, m, n, i).value
  {
    MulMonotone(i + 1, m, n);
    var s := Flatten(a, m, n);
    forall c | 0 <= c < n
      ensures s[n * i + c] == a.rows[i][c]
    {
      FlattenIndex(a, m, n, i, c);
    }
  }

  /** Column j of the nested rows is the stride-n walk from offset j of the row-major layout. */
  lemma FlattenCol(a: Matrix, m: nat, n: nat, j: nat)
    requires Shaped(a, m, n) && j < n
    ensures Strided(Flatten(a, m, n), j, n, m) == Col(a, m, n, j).value
  {
    var s := Flatten(a, m, n);
    forall k | 0 <= k < m
      ensures s[j + k * n] == a.rows[k][j]
    {
      FlattenIndex(a, m, n, k, j);
    }
  }

  /**
   * The row-major iterator over all cells (`Matrix::iter`, used but not shown
   * by the core): it yields `entries[pos]` and moves on until the slice ends.
   */
  class Iter {
    const entries: seq<int>
    var pos: nat

    ghost predicate Valid()
      reads this
    {
      pos <= |entries|
    }

    /** The items still to come. */
    ghost function Remaining(): seq<int>
      reads this
      requires Valid()
    {
      entries[pos..]
    }

    constructor (entries: seq<int>)
      ensures Valid() && this.entries == entries && pos == 0
      ensures Remaining() == entries
    {
      this.entries := entries;
      pos := 0;
    }

    /** Yields the next item, or `None` for good once all have been yielded. */
    method Next() returns (r: Option<int>)
      requires Valid()
      modifies this
      ensures Valid()
      ensures r.Some? <==> old(pos) < |entries|
      ensures r.Some? ==> r.value == entries[old(pos)] && pos == old(pos) + 1
      ensures r.Some? ==> old(Remaining()) == [r.value] + Remaining()
      ensures r.None? ==> pos == old(pos) && Remaining() == []
    {
      if pos < |entries| {
        r := Some(entries[pos]);
        pos := pos + 1;
      } else {
        r := None;
      }
    }
  }

  /** `RowIter<'a, T, COLS>`: the entries of one row. */
  class RowIter {
    const entries: seq<int>
    const cols: nat
    const end: nat
    var index: nat

    /**
     * `end` is in the slice (so every read is in bounds) and `index` has not
     * run past `end + 1`.
     */
    ghost predicate Valid()
      reads this
    {
      end < |entries| && index <= end + 1
    }

    ghost function Remaining(): seq<int>
      reads this
      requires Valid()
    {
      entries[index .. end + 1]
    }

    /**
     * `RowIter::new(entries, i)`. `COLS * (i + 1) - 1` underflows `usize` when
     * COLS is 0, hence `cols >= 1`; the caller `iter_row` only passes an i below
     * ROWS over a ROWS * COLS slice, hence the bound on `entries`.
     */
    constructor (entries: seq<int>, cols: nat, i: nat)
      requires cols >= 1 && cols * (i + 1) <= |entries|
      ensures Valid() && this.entries == entries && this.cols == cols
      ensures index == cols * i && end == cols * (i + 1) - 1
      ensures Remaining() == entries[cols * i .. cols * (i + 1)]
    {
      this.entries, this.cols := entries, cols;
      index := cols * i;
      end := cols * (i + 1) - 1;
    }

    /** `next`: the entry at `index` while `index <= end`, then `None` on every call. */
    method Next() returns (r: Option<int>)
      requires Valid()
      modifies this
      ensures Valid()
      ensures r.Some? <==> old(index) <= end
      ensures r.Some? ==> r.value == entries[old(index)] && index == old(index) + 1
      ensures r.Some? ==> old(Remaining()) == [r.value] + Remaining()
      ensures r.None? ==> index == old(index) && Remaining() == []
    {
      if index <= end {
        var idx := index;
        index := index + 1;
        r := Some(entries[idx]);
      } else {
        r := None;
      }
    }
  }

  /** `ColIter<'a, T, ROWS, COLS>`: the entries of one column. */
  class ColIter {
    const entries: seq<int>
    const rows: nat
    const cols: nat
    const end: nat
    var index: nat
    /** The column being walked, and how many of its entries have been yielded. */
    ghost const col: nat
    ghost var taken: nat

    ghost predicate Valid()
      reads this
    {
      col < cols && rows * cols <= |entries| && rows >= 1
      && end == (rows - 1) * cols + col
      && taken <= rows && index == col + taken * cols
    }

    ghost function Remaining(): seq<int>
      reads this
      requires Valid()
    {
      Strided(entries, col, cols, rows)[taken..]
    }

    /**
     * `ColIter::new(entries, j)`. `(ROWS - 1) * COLS + j` underflows `usize`
     * when ROWS is 0, hence `rows >= 1`; the caller `iter_col` only passes a j
     * below COLS over a ROWS * COLS slice.
     */
    constructor (entries: seq<int>, rows: nat, cols: nat, j: nat)
      requires rows >= 1 && j < cols && rows * cols <= |entries|
      ensures Valid() && this.entries == entries && this.rows == rows && this.cols == cols
      ensures index == j && end == (rows - 1) * cols + j
      ensures Remaining() == Strided(entries, j, cols, rows)
    {
      this.entries, this.rows, this.cols := entries, rows, cols;
      index := j;
      end := (rows - 1) * cols + j;
      col := j;
      taken := 0;
    }

    /** `next`: the entry at `index`, stepping by COLS, while `index <= end`; then `None`. */
    method Next() returns (r: Option<int>)
      requires Valid()
      modifies this
      ensures Valid()
      ensures r.Some? <==> old(index) <= end
      ensures r.Some? ==> r.value == entries[old(index)] && index == old(index) + cols
      ensures r.Some? ==> old(Remaining()) == [r.value] + Remaining()
      ensures r.None? ==> index == old(index) && Remaining() == []
    {
      PastEnd(rows, cols, col, taken);
      if index <= end {
        StrideBound(col, taken, cols, rows);
        var idx := index;
        index := index + cols;
        taken := taken + 1;
        r := Some(entries[idx]);
      } else {
        r := None;
      }
    }

    /** `index <= end` exactly while fewer than `rows` entries have been taken. */
    static lemma PastEnd(rows: nat, cols: nat, j: nat, taken: nat)
      requires rows >= 1 && cols >= 1 && taken <= rows
      ensures j + taken * cols <= (rows - 1) * cols + j <==> taken < rows
    {
      if taken < rows {
        MulMonotone(taken, rows - 1, cols);
      } else {
        assert rows * cols == (rows - 1) * cols + cols;
      }
    }
  }

  /** The test `iter_row` on the 5x3 matrix numbered 1 to 15: row 2 is 7, 8, 9, then `None` twice. */
  method IterRowTest() {
    var entries := [1, 2, 3, 4, 5, 6, 7, 8, 9, 10, 11, 12, 13, 14, 15];
    var it := new RowIter(entries, 3, 2);
    var x := it.Next();
    assert x == Some(7);
    x := it.Next();
    assert x == Some(8);
    x := it.Next();
    assert x == Some(9);
    x := it.Next();
    assert x == None;
    x := it.Next();
    assert x == None;
  }

  /** The test `iter_col` on the same matrix: column 1 is 2, 5, 8, 11, 14, then `None` twice. */
  method IterColTest() {
    var entries := [1, 2, 3, 4, 5, 6, 7, 8, 9, 10, 11, 12, 13, 14, 15];
    var it := new ColIter(entries, 5, 3, 1);
    var x := it.Next();
    assert x == Some(2);
    x := it.Next();
    assert x == Some(5);
    x := it.Next();
    assert x == Some(8);
    x := it.Next();
    assert x == Some(11);
    x := it.Next();
    assert x == Some(14);
    x := it.Next();
    assert x == None;
    x := it.Next();
    assert x == None;
  }
}
