/**
 * `Cursor` of src/matrix/iter/cursor.rs: a wrapper around the row-major
 * iterator that tags every item with its coordinates (i, j). The coordinates
 * are kept in two fields that every `next` advances, wrapping `j` at N,
 * whether or not the wrapped iterator still has an item; `size_hint` reports
 * `N * (M - i) - j`.
 */
module Cursors {
  import opened Wrappers
  import opened Matrices
  import opened Iters

  /** The cursor's coordinate fields (i, j). */
  datatype Pos = Pos(i: nat, j: nat)

  /**
   * The fields after one call to `next`: `j` is first wrapped to 0 with `i`
   * moving to the next row if it has reached N, then incremented. Each call
   * moves the row-major offset `i * n + j` on by one.
   */
  function Advance(p: Pos, n: nat): (q: Pos)
    ensures q.i * n + q.j == p.i * n + p.j + 1
    ensures q.i == p.i + 1 <==> p.j == n
    ensures q.j >= 1
  {
    if p.j == n then Pos(p.i + 1, 1) else Pos(p.i, p.j + 1)
  }

  /** The coordinates `next` reports when called with the fields at `p`. */
  function Reported(p: Pos, n: nat): (q: Pos)
    ensures q.i * n + q.j + 1 == Advance(p, n).i * n + Advance(p, n).j
  {
    if p.j == n then Pos(p.i + 1, 0) else p
  }

  /** The fields after `calls` calls to `next` on a fresh cursor. */
  function PosAfter(n: nat, calls: nat): Pos
  {
    if calls == 0 then Pos(0, 0) else Advance(PosAfter(n, calls - 1), n)
  }

  /**
   * After c calls the fields point at row-major offset c, with j in 1..n once
   * a call has been made (n >= 1).
   */
  lemma {:induction false} PosAfterOffset(n: nat, c: nat)
    ensures PosAfter(n, c).i * n + PosAfter(n, c).j == c
    ensures n >= 1 && c >= 1 ==> 1 <= PosAfter(n, c).j <= n
  {
    if c > 0 {
      PosAfterOffset(n, c - 1);
    }
  }

  /** The k-th item (from 0) is reported at the coordinates of offset k, in row-major order. */
  lemma ReportedCoordinates(n: nat, k: nat)
    requires n >= 1
    ensures Reported(PosAfter(n, k), n).i * n + Reported(PosAfter(n, k), n).j == k
    ensures Reported(PosAfter(n, k), n).j < n
  {
    PosAfterOffset(n, k);
  }

  /** `size_hint`'s formula `N * (M - i) - j`, over the integers. */
  function SizeFormula(m: nat, n: nat, p: Pos): int
  {
    n * (m - p.i) - p.j
  }

  /** After c calls the formula is M * N - c: the count of items left while c <= M * N. */
  lemma SizeFormulaCounts(m: nat, n: nat, c: nat)
    ensures SizeFormula(m, n, PosAfter(n, c)) == m * n - c
  {
    PosAfterOffset(n, c);
    var p := PosAfter(n, c);
    assert n * (m - p.i) == m * n - p.i * n;
  }

  /**
   * The test `cursor` on a 3x2 matrix: after the seventh call (the first
   * that returns `None`) the formula is -1, which `usize` cannot hold, where
   * the test expects `len()` to be 0.
   */
  lemma SizeHintUnderflows()
    ensures SizeFormula(3, 2, PosAfter(2, 6)) == 0
    ensures PosAfter(2, 7) == Pos(3, 1)
    ensures SizeFormula(3, 2, PosAfter(2, 7)) == -1
  {
    assert PosAfter(2, 1) == Pos(0, 1);
    assert PosAfter(2, 2) == Pos(0, 2);
    assert PosAfter(2, 3) == Pos(1, 1);
    assert PosAfter(2, 4) == Pos(1, 2);
    assert PosAfter(2, 5) == Pos(2, 1);
    assert PosAfter(2, 6) == Pos(2, 2);
  }

  function Min(x: nat, y: nat): nat
  {
    if x <= y then x else y
  }

  /** `Cursor<I, M, N>` over the row-major iterator of an M x N matrix. */
  class Cursor {
    const m: nat
    const n: nat
    const iter: Iter
    var i: nat
    var j: nat
    /** How many times `next` has been called. */
    ghost var calls: nat

    ghost predicate Valid()
      reads this, iter
    {
      iter.Valid() && |iter.entries| == m * n
      && Pos(i, j) == PosAfter(n, calls)
      && iter.pos == Min(calls, m * n)
    }

    /** `Cursor::new(iter)`, as `cursor()` calls it on a fresh iterator. */
    constructor (iter: Iter, m: nat, n: nat)
      requires iter.Valid() && iter.pos == 0 && |iter.entries| == m * n
      ensures Valid() && this.iter == iter && this.m == m && this.n == n
      ensures i == 0 && j == 0 && calls == 0
    {
      this.iter, this.m, this.n := iter, m, n;
      i, j := 0, 0;
      calls := 0;
    }

    /**
     * `next`: the wrapped iterator's next item tagged with its coordinates,
     * `None` exactly when the wrapped iterator returns `None`. The k-th item
     * (from 0) is the entry at row-major offset k and carries (i, j) with
     * `i * N + j == k` and `j < N`.
     */
    method Next() returns (r: Option<(nat, nat, int)>)
      requires Valid()
      modifies this, iter
      ensures Valid() && calls == old(calls) + 1
      ensures Pos(i, j) == Advance(Pos(old(i), old(j)), n)
      ensures r.Some? <==> old(iter.pos) < |iter.entries|
      ensures r.Some? <==> old(calls) < m * n
      ensures r.Some? ==> r.value.2 == iter.entries[old(calls)]
      ensures r.Some? ==> r.value.0 * n + r.value.1 == old(calls) && r.value.1 < n
      ensures r.None? ==> iter.Remaining() == []
    {
      PosAfterOffset(n, calls);
      if j == n {
        i := i + 1;
        j := 0;
      }
      var col := j;
      j := j + 1;
      var x := iter.Next();
      calls := calls + 1;
      match x
      case Some(v) => r := Some((i, col, v));
      case None => r := None;
    }

    /**
     * `size_hint` as written: `N * (M - i) - j` for both bounds. It stays a
     * `usize` only while at most M * N calls have been made; it then equals
     * the number of items left.
     */
    method SizeHint() returns (lower: nat, upper: Option<nat>)
      requires Valid() && calls <= m * n
      ensures lower == m * n - calls == |iter.Remaining()|
      ensures upper == Some(lower)
    {
      SizeFormulaCounts(m, n, calls);
      var size := n * (m - i) - j;
      lower, upper := size, Some(size);
    }

    /**
     * `len` as the test expects it: the number of items the wrapped iterator
     * has left, which is 0, not an underflow, once it is exhausted.
     */
    method Len() returns (len: nat)
      requires Valid()
      ensures len == |iter.Remaining()|
      ensures len == m * n - Min(calls, m * n)
    {
      SizeFormulaCounts(m, n, calls);
      var size := n * (m - i) - j;
      len := if size < 0 then 0 else size;
    }
  }

  /** The row-major layout of the test matrix `[[1, 2], [3, 4], [5, 6]]`. */
  lemma CursorTestLayout()
    ensures Flatten(WithRows([[1, 2], [3, 4], [5, 6]]), 3, 2) == [1, 2, 3, 4, 5, 6]
  {
    var a := WithRows([[1, 2], [3, 4], [5, 6]]);
    assert Flatten(Matrix(a.rows[1..][1..][1..]), 0, 2) == [];
    assert Flatten(Matrix(a.rows[1..][1..]), 1, 2) == [5, 6];
    assert Flatten(Matrix(a.rows[1..]), 2, 2) == [3, 4, 5, 6];
  }

  /** The test `cursor` on `Matrix::from_rows([[1, 2], [3, 4], [5, 6]])`, with `len` as corrected. */
  method CursorTest() {
    CursorTestLayout();
    CursorTestSteps(Flatten(WithRows([[1, 2], [3, 4], [5, 6]]), 3, 2));
  }

  /** The calls and assertions of the test `cursor`, over the row-major layout of its matrix. */
  method CursorTestSteps(entries: seq<int>)
    requires entries == [1, 2, 3, 4, 5, 6]
  {
    var it := new Iter(entries);
    var c := new Cursor(it, 3, 2);
    var len := c.Len();
    assert len == 6;
    var r := c.Next();
    assert r == Some((0, 0, 1));
    len := c.Len();
    assert len == 5;
    r := c.Next();
    assert r == Some((0, 1, 2));
    len := c.Len();
    assert len == 4;
    r := c.Next();
    assert r == Some((1, 0, 3));
    len := c.Len();
    assert len == 3;
    r := c.Next();
    assert r == Some((1, 1, 4));
    len := c.Len();
    assert len == 2;
    r := c.Next();
    assert r == Some((2, 0, 5));
    len := c.Len();
    assert len == 1;
    r := c.Next();
    assert r == Some((2, 1, 6));
    len := c.Len();
    assert len == 0;
    r := c.Next();
    assert r == None;
    len := c.Len();
    assert len == 0;
    r := c.Next();
    assert r == None;
    len := c.Len();
    assert len == 0;
    r := c.Next();
    assert r == None;
  }
}
