/**
 * A matrix updated in place. The nested rows `[[T; N]; M]` become an `array2`;
 * the mutable accessors of src/matrix.rs (`row_mut`, `col_mut`, `get_mut`) and
 * the in-place operators of src/matrix/ops.rs (`IndexMut`, `AddAssign`,
 * `SubAssign`, `scale_mut`, and the `map_mut` they are built on) are methods that
 * modify the cells and nothing else. A write through a mutable view is modelled
 * by an `update` function the caller passes: each cell the view exposes is
 * replaced by `update` applied to its old value.
 */
module Grids {
  import opened Wrappers
  import opened Matrices
  import opened Ops

  class Grid {
    const m: nat
    const n: nat
    const cells: array2<int>

    /** The buffer has the shape the const generics fix. */
    ghost predicate Valid() {
      cells.Length0 == m && cells.Length1 == n
    }

    /** The matrix value the buffer holds. */
    ghost function Value(): (a: Matrix)
      reads cells
      requires Valid()
      ensures Shaped(a, m, n)
      ensures forall i, j :: 0 <= i < m && 0 <= j < n ==> a.rows[i][j] == cells[i, j]
    {
      Matrix(seq(m, i requires 0 <= i < m reads cells =>
        seq(n, j requires 0 <= j < n reads cells => cells[i, j])))
    }

    /** `Matrix::with_rows(rows)`: the buffer holds the rows as given. */
    constructor (rows: seq<seq<int>>, m: nat, n: nat)
      requires Shaped(WithRows(rows), m, n)
      ensures this.m == m && this.n == n && Valid() && fresh(cells)
      ensures Value() == WithRows(rows)
    {
      this.m, this.n := m, n;
      cells := new int[m, n]((i, j) requires 0 <= i < m && 0 <= j < n => rows[i][j]);
      new;
      CellwiseEqual(Value(), WithRows(rows), m, n);
    }

    /**
     * `map_mut(f)`: every cell (i, j) is replaced by `f(i, j, cell)`, row by
     * row; the result is the matrix `map` would build from the old one.
     */
    method MapMut(f: (nat, nat, int) --> int)
      requires Valid()
      requires forall i: nat, j: nat, x: int :: i < m && j < n ==> f.requires(i, j, x)
      modifies cells
      ensures Value() == Map(old(Value()), m, n, f)
    {
      ghost var before := Value();
      for i := 0 to m
        invariant forall r, c :: 0 <= r < m && 0 <= c < n ==>
          var x: int := before.rows[r][c]; cells[r, c] == if r < i then f(r, c, x) else x
      {
        for j := 0 to n
          invariant forall r, c :: 0 <= r < m && 0 <= c < n ==>
            var x: int := before.rows[r][c]; cells[r, c] == if r < i || (r == i && c < j) then f(r, c, x) else x
        {
          var x: int := cells[i, j];
          cells[i, j] := f(i, j, x);
        }
      }
      CellwiseEqual(Value(), Map(before, m, n, f), m, n);
    }

    /** `AddAssign`: `self += rhs` leaves `self` equal to what `self + rhs` returns. */
    method AddAssign(rhs: Matrix)
      requires Valid() && Shaped(rhs, m, n)
      modifies cells
      ensures Value() == Add(old(Value()), rhs, m, n)
    {
      ghost var before := Value();
      MapMut((i: nat, j: nat, x: int) requires i < m && j < n => x + rhs.rows[i][j]);
      CellwiseEqual(Value(), Add(before, rhs, m, n), m, n);
    }

    /** `SubAssign`: `self -= rhs` leaves `self` equal to what `self - rhs` returns. */
    method SubAssign(rhs: Matrix)
      requires Valid() && Shaped(rhs, m, n)
      modifies cells
      ensures Value() == Sub(old(Value()), rhs, m, n)
    {
      ghost var before := Value();
      MapMut((i: nat, j: nat, x: int) requires i < m && j < n => x - rhs.rows[i][j]);
      CellwiseEqual(Value(), Sub(before, rhs, m, n), m, n);
    }

    /** `scale_mut(factor)`: leaves `self` equal to what `scale(factor)` returns. */
    method ScaleMut(factor: int)
      requires Valid()
      modifies cells
      ensures Value() == Scale(old(Value()), m, n, factor)
    {
      ghost var before := Value();
      MapMut((i: nat, j: nat, x: int) => x * factor);
      CellwiseEqual(Value(), Scale(before, m, n, factor), m, n);
    }

    /**
     * `row_mut(i)` followed by a write through each of its N references. The
     * view is `None` exactly when `row(i)` is, and otherwise exposes the cells
     * of `row(i)`; only row i changes.
     */
    method RowMut(i: nat, update: (nat, int) -> int) returns (view: Option<seq<int>>)
      requires Valid()
      modifies cells
      ensures view == Row(old(Value()), m, n, i)
      ensures forall r, c :: 0 <= r < m && 0 <= c < n ==>
        cells[r, c] == if r == i then update(c, old(cells[r, c])) else old(cells[r, c])
    {
      if i >= m {
        return None;
      }
      ghost var before := Value();
      view := Some(seq(n, c requires 0 <= c < n && i < m reads cells => cells[i, c]));
      assert view.value == before.rows[i];
      for c := 0 to n
        invariant forall r, c' :: 0 <= r < m && 0 <= c' < n ==>
          cells[r, c'] == if r == i && c' < c then update(c', old(cells[r, c'])) else old(cells[r, c'])
      {
        cells[i, c] := update(c, cells[i, c]);
      }
    }

    /**
     * `col_mut(j)` followed by a write through each of its M references. The
     * view is `None` exactly when `col(j)` is, and otherwise exposes the cells
     * of `col(j)`; only column j changes.
     */
    method ColMut(j: nat, update: (nat, int) -> int) returns (view: Option<seq<int>>)
      requires Valid()
      modifies cells
      ensures view == Col(old(Value()), m, n, j)
      ensures forall r, c :: 0 <= r < m && 0 <= c < n ==>
        cells[r, c] == if c == j then update(r, old(cells[r, c])) else old(cells[r, c])
    {
      if j >= n {
        return None;
      }
      ghost var before := Value();
      view := Some(seq(m, r requires 0 <= r < m && j < n reads cells => cells[r, j]));
      assert view.value == Col(before, m, n, j).value;
      for r := 0 to m
        invariant forall r', c :: 0 <= r' < m && 0 <= c < n ==>
          cells[r', c] == if c == j && r' < r then update(r', old(cells[r', c])) else old(cells[r', c])
      {
        cells[r, j] := update(r, cells[r, j]);
      }
    }

    /**
     * `get_mut(i, j)` followed by a write through the reference. The view is
     * `None` exactly when `get(i, j)` is; only cell (i, j) changes.
     */
    method GetMut(i: nat, j: nat, update: int -> int) returns (view: Option<int>)
      requires Valid()
      modifies cells
      ensures view == Get(old(Value()), m, n, i, j)
      ensures forall r, c :: 0 <= r < m && 0 <= c < n ==>
        cells[r, c] == if r == i && c == j then update(old(cells[r, c])) else old(cells[r, c])
    {
      if i < m && j < n {
        view := Some(cells[i, j]);
        cells[i, j] := update(cells[i, j]);
      } else {
        view := None;
      }
    }

    /**
     * `IndexMut<(usize, usize)>::index_mut` followed by a write: the panic of
     * `index` on an out-of-range index, otherwise the same write as `get_mut`.
     */
    method IndexMut(i: nat, j: nat, update: int -> int) returns (r: Result<int, IndexError>)
      requires Valid()
      modifies cells
      ensures r == Index(old(Value()), m, n, i, j)
      ensures forall r', c :: 0 <= r' < m && 0 <= c < n ==>
        cells[r', c] == if r' == i && c == j then update(old(cells[r', c])) else old(cells[r', c])
    {
      var view := GetMut(i, j, update);
      match view
      case Some(x) => r := Ok(x);
      case None => r := Err(OutOfBounds(m, n, i, j));
    }
  }
}
