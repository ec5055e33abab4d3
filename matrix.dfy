/**
 * The matrix value of src/matrix.rs: `Matrix<T, M, N>` wraps the nested rows
 * `[[T; N]; M]`. The const generics M and N become the parameters `m`, `n` of
 * every member, and `Shaped(a, m, n)` is what the type system guarantees of the
 * rows. Entries are unbounded integers.
 */
module Matrices {
  import opened Wrappers
  import Identity

  /** `Matrix<T, M, N>`: `rows[i][j]` is cell (i, j). */
  datatype Matrix = Matrix(rows: seq<seq<int>>)

  /** What the type `[[T; N]; M]` guarantees: M rows of N entries each. */
  predicate Shaped(a: Matrix, m: nat, n: nat) {
    |a.rows| == m && forall i :: 0 <= i < m ==> |a.rows[i]| == n
  }

  /**
   * The additive identity of the entry type. Every integer instance of `IdAdd`
   * returns the same value (Identity.IdentitiesAgree), so `i32`, the type of the
   * source's own tests, stands for all of them.
   */
  const Zero: int := Identity.IdAdd(Identity.I32)

  /** The multiplicative identity of the entry type, as for `Zero`. */
  const One: int := Identity.IdMul(Identity.I32)

  /** `Matrix::with_rows`: the rows are stored as given. */
  function WithRows(rows: seq<seq<int>>): Matrix {
    Matrix(rows)
  }

  /** `get(i, j)`: the cell, or `None` when either index is past the shape. */
  function Get(a: Matrix, m: nat, n: nat, i: nat, j: nat): (r: Option<int>)
    requires Shaped(a, m, n)
    ensures r.Some? <==> i < m && j < n
    ensures r.Some? ==> r.value == a.rows[i][j]
  {
    if i < |a.rows| && j < |a.rows[i]| then Some(a.rows[i][j]) else None
  }

  /** `row(i)`: the N cells of row i in column order, or `None` when i >= M. */
  function Row(a: Matrix, m: nat, n: nat, i: nat): (r: Option<seq<int>>)
    requires Shaped(a, m, n)
    ensures r.None? <==> i >= m
    ensures r.Some? ==> |r.value| == n && forall j :: 0 <= j < n ==> Get(a, m, n, i, j) == Some(r.value[j])
  {
    if i < |a.rows| then Some(a.rows[i]) else None
  }

  /** `col(j)`: cells (0, j) .. (M-1, j) in row order, or `None` when j >= N. */
  function Col(a: Matrix, m: nat, n: nat, j: nat): (r: Option<seq<int>>)
    requires Shaped(a, m, n)
    ensures r.None? <==> j >= n
    ensures r.Some? ==> |r.value| == m && forall i :: 0 <= i < m ==> Get(a, m, n, i, j) == Some(r.value[i])
  {
    if j < n then Some(seq(m, i requires 0 <= i < m => a.rows[i][j])) else None
  }

  /**
   * `map(f)`: a new matrix of the same shape whose cell (i, j) is
   * `f(i, j, a[(i, j)])`. The source calls it on `Matrix::id_add()` to build
   * every operator result; `f` may demand that (i, j) be in range, as the
   * source's closures do when they index their operands.
   */
  function Map(a: Matrix, m: nat, n: nat, f: (nat, nat, int) --> int): (r: Matrix)
    requires Shaped(a, m, n)
    requires forall i: nat, j: nat, x: int :: i < m && j < n ==> f.requires(i, j, x)
    ensures Shaped(r, m, n)
    ensures forall i, j :: 0 <= i < m && 0 <= j < n ==> var x: int := a.rows[i][j]; r.rows[i][j] == f(i, j, x)
  {
    Matrix(seq(m, i requires 0 <= i < m => seq(n, j requires 0 <= j < n => var x: int := a.rows[i][j]; f(i, j, x))))
  }

  /** `Matrix::id_add()`: every cell holds the additive identity. */
  function IdAddMatrix(m: nat, n: nat): (z: Matrix)
    ensures Shaped(z, m, n)
    ensures forall i, j :: 0 <= i < m && 0 <= j < n ==> z.rows[i][j] == Zero
  {
    Matrix(seq(m, i => seq(n, j => Zero)))
  }

  /**
   * The square identity matrix: `id_mul` on the diagonal, `id_add` elsewhere.
   * The files modelled here do not build it; the identity laws of `Mul` and the
   * intended meaning of `pow(0)` are stated with it.
   */
  function IdMulMatrix(m: nat): (e: Matrix)
    ensures Shaped(e, m, m)
    ensures forall i, j :: 0 <= i < m && 0 <= j < m ==> e.rows[i][j] == if i == j then One else Zero
  {
    Matrix(seq(m, i => seq(m, j => if i == j then One else Zero)))
  }

  /** The row-major flat layout `[T]` the iterators of src/matrix/iter.rs walk. */
  function Flatten(a: Matrix, m: nat, n: nat): (s: seq<int>)
    requires Shaped(a, m, n)
    ensures |s| == m * n
    decreases m
  {
    if m == 0 then [] else a.rows[0] + Flatten(Matrix(a.rows[1..]), m - 1, n)
  }

  /** Cell (i, j) of the nested rows sits at offset `i*N + j` of the flat layout. */
  lemma {:induction false} FlattenIndex(a: Matrix, m: nat, n: nat, i: nat, j: nat)
    requires Shaped(a, m, n) && i < m && j < n
    ensures i * n + j < m * n
    ensures Flatten(a, m, n)[i * n + j] == a.rows[i][j]
    decreases m
  {
    if i > 0 {
      var tail := Matrix(a.rows[1..]);
      FlattenIndex(tail, m - 1, n, i - 1, j);
      assert i * n + j == n + ((i - 1) * n + j);
    }
  }

  /** Two matrices of one shape that agree on every cell are the same matrix. */
  lemma CellwiseEqual(a: Matrix, b: Matrix, m: nat, n: nat)
    requires Shaped(a, m, n) && Shaped(b, m, n)
    requires forall i, j :: 0 <= i < m && 0 <= j < n ==> a.rows[i][j] == b.rows[i][j]
    ensures a == b
  {
    forall i | 0 <= i < m
      ensures a.rows[i] == b.rows[i]
    {
      assert forall j :: 0 <= j < n ==> a.rows[i][j] == b.rows[i][j];
    }
  }

  /** For an in-range cell, `get(i, j)`, `row(i)[j]` and `col(j)[i]` name the same entry. */
  lemma GetRowColAgree(a: Matrix, m: nat, n: nat, i: nat, j: nat)
    requires Shaped(a, m, n) && i < m && j < n
    ensures Get(a, m, n, i, j) == Some(Row(a, m, n, i).value[j])
    ensures Row(a, m, n, i).value[j] == Col(a, m, n, j).value[i]
  {
  }

  /** `with_rows(r)` stores r unchanged: `get(i, j)` on it yields `r[i][j]`. */
  lemma WithRowsGet(rows: seq<seq<int>>, m: nat, n: nat, i: nat, j: nat)
    requires Shaped(Matrix(rows), m, n) && i < m && j < n
    ensures Get(WithRows(rows), m, n, i, j) == Some(rows[i][j])
  {
  }

  /** The 4x3 matrix numbered 1 to 12 of the accessor tests of src/matrix.rs. */
  function Matrix4x3(): Matrix {
    WithRows([[1, 2, 3], [4, 5, 6], [7, 8, 9], [10, 11, 12]])
  }

  /** The `row` test: rows 0 to 3 in column order, `None` for rows 4 and 5. */
  lemma RowExamples()
    ensures Row(Matrix4x3(), 4, 3, 0) == Some([1, 2, 3])
    ensures Row(Matrix4x3(), 4, 3, 1) == Some([4, 5, 6])
    ensures Row(Matrix4x3(), 4, 3, 2) == Some([7, 8, 9])
    ensures Row(Matrix4x3(), 4, 3, 3) == Some([10, 11, 12])
    ensures Row(Matrix4x3(), 4, 3, 4) == None && Row(Matrix4x3(), 4, 3, 5) == None
  {
  }

  /** The `col` test: columns 0 to 2 in row order, `None` for columns 3 and 4. */
  lemma ColExamples()
    ensures Col(Matrix4x3(), 4, 3, 0) == Some([1, 4, 7, 10])
    ensures Col(Matrix4x3(), 4, 3, 1) == Some([2, 5, 8, 11])
    ensures Col(Matrix4x3(), 4, 3, 2) == Some([3, 6, 9, 12])
    ensures Col(Matrix4x3(), 4, 3, 3) == None && Col(Matrix4x3(), 4, 3, 4) == None
  {
    var a := Matrix4x3();
    assert Col(a, 4, 3, 0).value == [1, 4, 7, 10];
    assert Col(a, 4, 3, 1).value == [2, 5, 8, 11];
    assert Col(a, 4, 3, 2).value == [3, 6, 9, 12];
  }

  /** The `get` test: three cells in range, three index pairs out of range. */
  lemma GetExamples()
    ensures Get(Matrix4x3(), 4, 3, 0, 0) == Some(1)
    ensures Get(Matrix4x3(), 4, 3, 1, 0) == Some(4)
    ensures Get(Matrix4x3(), 4, 3, 3, 2) == Some(12)
    ensures Get(Matrix4x3(), 4, 3, 4, 0) == None
    ensures Get(Matrix4x3(), 4, 3, 2, 5) == None
    ensures Get(Matrix4x3(), 4, 3, 6, 7) == None
  {
  }

  /** All seventeen assertions of the `row`, `col` and `get` tests of src/matrix.rs. */
  lemma AccessorExamples()
    ensures var a := Matrix4x3();
      && Row(a, 4, 3, 0) == Some([1, 2, 3]) && Row(a, 4, 3, 1) == Some([4, 5, 6])
      && Row(a, 4, 3, 2) == Some([7, 8, 9]) && Row(a, 4, 3, 3) == Some([10, 11, 12])
      && Row(a, 4, 3, 4) == None && Row(a, 4, 3, 5) == None
      && Col(a, 4, 3, 0) == Some([1, 4, 7, 10]) && Col(a, 4, 3, 1) == Some([2, 5, 8, 11])
      && Col(a, 4, 3, 2) == Some([3, 6, 9, 12]) && Col(a, 4, 3, 3) == None && Col(a, 4, 3, 4) == None
      && Get(a, 4, 3, 0, 0) == Some(1) && Get(a, 4, 3, 1, 0) == Some(4) && Get(a, 4, 3, 3, 2) == Some(12)
      && Get(a, 4, 3, 4, 0) == None && Get(a, 4, 3, 2, 5) == None && Get(a, 4, 3, 6, 7) == None
  {
    RowExamples();
    ColExamples();
    GetExamples();
  }
}
