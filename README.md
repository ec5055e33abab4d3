# A verified model of the mermaid matrix core

This Dafny project models the fixed-size matrix at the centre of the Rust
crate `mermaid`. A `Matrix<T, M, N>` is M rows of N entries, with const
generics M and N. The model covers:

- the cell, row and column accessors, read-only and mutable;
- the cell-wise operators and their in-place forms;
- matrix product and `pow`;
- the closed-form determinants of 1x1, 2x2 and 3x3 matrices;
- the row and column iterators over the row-major slice;
- the coordinate-reporting `Cursor`;
- cell-wise equality;
- the `IdAdd`/`IdMul` identity elements of the integer entry types.

Entries are unbounded integers. M and N are explicit `nat` parameters, and
`Matrices.Shaped(a, m, n)` states that a value has that shape.

Layout, one module per file:

- `wrappers.dfy`: `Option` and `Result`.
- `identity.dfy`: the integer instances of `IdAdd` and `IdMul`.
- `matrix.dfy`: the matrix value, plus:
  - `get`, `row`, `col` and `with_rows`;
  - the per-cell builder `map`, which the operators use;
  - the all-`id_add` and identity matrices;
  - the row-major layout `Flatten`.
- `ops.dfy`:
  - `Index` and the cell-wise operators;
  - matrix product, as a specification function `MatMul` and as the looping method `Mul`;
  - `pow`;
  - their algebraic laws.
- `ops_examples.dfy`: the operator tests of `src/matrix/ops.rs`.
- `grid.dfy`: class `Grid`, the matrix updated in place over an `array2`, with:
  - the mutable accessors `row_mut`, `col_mut`, `get_mut` and `IndexMut`;
  - `map_mut`;
  - `AddAssign`, `SubAssign` and `scale_mut`.
- `grid_examples.dfy`: the in-place tests replayed against `Grid`.
- `dets.dfy`: the determinants.
- `iter.dfy`:
  - the row-major iterator that `Cursor` wraps;
  - `RowIter` and `ColIter`;
  - the lemmas that tie the flat layout to the nested rows.
- `cursor.dfy`: `Cursor`, with its position arithmetic.
- `cmp.dfy`: `PartialEq`.

The source calls `map`, `map_mut`, `iter` and `Matrix::id_add` but does not
define them in the files modelled here. They are defined by how they are used:

- `map` builds a matrix from a per-cell function.
- `map_mut` updates every cell in place.
- `iter` traverses the cells in row-major order.
- `id_add` is the all-zero matrix.

The mutable views (`row_mut`, `col_mut`, `get_mut`, `index_mut`) are
modelled as a write through the view. The caller passes an `update`
function, and each exposed cell is replaced by `update` applied to its old
value.

`pow(exp)` folds `exp` products onto the matrix itself, so `pow(0)` is the
matrix and `pow(1)` is `A * A`. The model follows the code:
`Ops.PowIsNextPower` states that `pow(e)` is A^(e+1) for every e. See also
the first row of "Findings".

## Model

| member | source | states |
|---|---|---|
| Identity.IdAdd | src/identity.rs:12-70 | `id_add` of every integer type lies in the type's range and leaves every value of the type unchanged under addition |
| Identity.IdMul | src/identity.rs:12-70 | `id_mul` of every integer type lies in the type's range and leaves every value of the type unchanged under multiplication |
| Identity.IdentitiesAgree | src/identity.rs:12-70 | every integer type u8 through isize has `id_add` 0 and `id_mul` 1 |
| Identity.IdAddNeutral | src/identity.rs:4-6 | `x + id_add() == x` for every integer x, which lets `Mul` start its accumulator at `id_add` |
| Identity.IdMulNeutral | src/identity.rs:8-10 | `x * id_mul() == x` for every integer x |
| Matrices.Get | src/matrix.rs:29-31 | `get(i, j)` is `Some` exactly when i < M and j < N, and then holds `rows[i][j]` |
| Matrices.Row | src/matrix.rs:13-15 | `row(i)` is `None` iff i >= M; otherwise it is N entries, entry j being `get(i, j)` |
| Matrices.Col | src/matrix.rs:21-23 | `col(j)` is `None` iff j >= N; otherwise it is M entries, entry i being `get(i, j)` |
| Matrices.Map | src/matrix/ops.rs:63-65 | `map(f)` keeps the shape and sets every cell (i, j) to `f(i, j, old cell)`, so no cell keeps its placeholder |
| Matrices.IdAddMatrix | src/matrix/ops.rs:11 | `Matrix::id_add()` is M x N with every cell `id_add` |
| Matrices.IdMulMatrix | src/identity.rs:8-10 | the square identity: `id_mul` on the diagonal and `id_add` elsewhere |
| Matrices.Flatten | src/matrix/iter.rs:8-13 | the row-major slice the iterators walk has M * N entries |
| Matrices.FlattenIndex | src/matrix/iter.rs:8-13 | offset `i * N + j` of the row-major slice is in range and holds cell (i, j) of the nested rows |
| Matrices.GetRowColAgree | src/matrix.rs:13-31 | for in-range i, j: `get(i, j) == row(i)[j] == col(j)[i]` |
| Matrices.WithRows | src/matrix.rs:5-7 | `with_rows(rows)` wraps the rows as given; what that means for `get` is stated by `Matrices.WithRowsGet` |
| Matrices.WithRowsGet | src/matrix.rs:5-7 | `with_rows(r)` stores r unchanged: `get(i, j)` yields `r[i][j]` |
| Matrices.AccessorExamples | src/matrix.rs:52-108 | all seventeen assertions of the `row`, `col` and `get` tests on the 4x3 matrix numbered 1 to 12, `None` cases included |
| Ops.Index | src/matrix/ops.rs:35-42 | indexing succeeds iff i < M and j < N, yields the cell `get` finds, and otherwise fails with the shape and the index |
| Ops.Scale | src/matrix/ops.rs:6-12 | every cell of `scale(f)` is the cell times f |
| Ops.Add | src/matrix/ops.rs:63-65 | every cell of `a + b` is the sum of the two cells |
| Ops.Sub | src/matrix/ops.rs:84-86 | every cell of `a - b` is the difference of the two cells |
| Ops.Neg | src/matrix/ops.rs:105-107 | every cell of `-a` is the negated cell |
| Ops.MatMul | src/matrix/ops.rs:119-127 | the product of an M x P and a P x N matrix is M x N, and cell (i, j) is the dot product of row i of a with column j of b |
| Ops.Accumulate | src/matrix/ops.rs:121-123 | the accumulator of `for k in 0..P { x = x + a[(i, k)] * b[(k, j)] }` after k rounds; its value is stated by `Ops.AccumulateIsDot` |
| Ops.AccumulateIsDot | src/matrix/ops.rs:119-127 | the `for k in 0..P` accumulator, started from x, equals x plus the dot product of the first k terms |
| Ops.Mul | src/matrix/ops.rs:119-127 | the looping product (rows, columns, then the k-loop from `id_add`) returns exactly `MatMul` |
| Ops.Pow | src/matrix/ops.rs:27-29 | the fold of `pow` keeps the M x M shape; its value is stated by `Ops.PowIsNextPower` |
| Ops.Power | src/matrix/ops.rs:27-29 | the power the name promises keeps the M x M shape; its base cases are stated by `Ops.PowerBase` |
| Ops.PowIsNextPower | src/matrix/ops.rs:27-29 | `pow(e)` is A^(e+1) for every e, so `pow(0)` is A |
| Ops.PowerBase | src/matrix/ops.rs:27-29 | the intended power has A^0 = identity and A^1 = A |
| Ops.AddCommutes | src/matrix/ops.rs:63-65 | `a + b == b + a` |
| Ops.AddIdAddMatrix | src/matrix/ops.rs:63-65 | the all-`id_add` matrix is neutral for `+` |
| Ops.SubIsAddNeg | src/matrix/ops.rs:84-86 | `a - b == a + (-b)` |
| Ops.SubSelf | src/matrix/ops.rs:84-86 | `a - a` is the all-`id_add` matrix |
| Ops.NegInvolutive | src/matrix/ops.rs:105-107 | `-(-a) == a` |
| Ops.ScaleByIdentities | src/matrix/ops.rs:6-12 | scaling by `id_mul` changes nothing; scaling by `id_add` gives the all-`id_add` matrix |
| Ops.DotZero | src/matrix/ops.rs:119-127 | a dot product with an all-`id_add` vector is 0 |
| Ops.DotCommutes | src/matrix/ops.rs:119-127 | the dot product is symmetric |
| Ops.DotUnit | src/matrix/ops.rs:119-127 | dotting with the unit vector at k picks entry k |
| Ops.MulIdentityLeft | src/matrix/ops.rs:119-127 | `I * a == a` |
| Ops.MulIdentityRight | src/matrix/ops.rs:119-127 | `a * I == a` |
| Ops.Dot2 | src/matrix/ops.rs:119-127 | a two-term dot product is `u0*v0 + u1*v1` |
| Ops.MatMul2x2 | src/matrix/ops.rs:119-127 | the 2x2 product written out entry by entry |
| OpsExamples.ScaleExample | src/matrix/ops.rs:135-142 | the `scale` test: the 4x3 matrix scaled by 5 |
| OpsExamples.AddExample | src/matrix/ops.rs:162-169 | the `add` test |
| OpsExamples.SubExample | src/matrix/ops.rs:179-186 | the `sub` test |
| OpsExamples.NegExample | src/matrix/ops.rs:196-203 | the `neg` test |
| OpsExamples.MulExample | src/matrix/ops.rs:206-214 | the `mul` test: a 4x3 times a 3x2 matrix |
| OpsExamples.PowStep2x2 | src/matrix/ops.rs:27-29 | one step of the `pow` fold on a 2x2 matrix multiplies the accumulator by the matrix |
| OpsExamples.PowExample | src/matrix/ops.rs:156-159 | the `pow` test: `[[1, 3], [2, -1]].pow(3) == [[49, 0], [0, 49]]` |
| OpsExamples.PowIsOffByOne | src/matrix/ops.rs:27-29 | on the test matrix, `pow(3)` is the fourth power and `pow(0)` is not the identity |
| Grids.Grid.constructor | src/matrix.rs:5-7 | `with_rows(rows)`: the buffer holds the rows unchanged |
| Grids.Grid.MapMut | src/matrix/ops.rs:14-19 | `map_mut(f)` leaves the buffer equal to `map(f)` of its old value |
| Grids.Grid.AddAssign | src/matrix/ops.rs:72-74 | after `self += rhs`, self is what `self + rhs` returns |
| Grids.Grid.SubAssign | src/matrix/ops.rs:93-95 | after `self -= rhs`, self is what `self - rhs` returns |
| Grids.Grid.ScaleMut | src/matrix/ops.rs:14-19 | after `scale_mut(f)`, self is what `scale(f)` returns |
| Grids.Grid.RowMut | src/matrix.rs:17-19 | the view is `None` iff `row(i)` is and otherwise exposes the cells of `row(i)`; a write through it changes row i only |
| Grids.Grid.ColMut | src/matrix.rs:25-27 | the view is `None` iff `col(j)` is and otherwise exposes the cells of `col(j)`; a write through it changes column j only |
| Grids.Grid.GetMut | src/matrix.rs:33-35 | the view is `None` iff `get(i, j)` is and otherwise exposes that cell; a write through it changes cell (i, j) only |
| Grids.Grid.IndexMut | src/matrix/ops.rs:45-54 | fails exactly as `index` does; otherwise makes the same single-cell write as `get_mut` |
| Dets.Det1 | src/matrix/dets.rs:8-10 | the 1x1 determinant is the one entry, as `index((0, 0))` yields it |
| Dets.Det2 | src/matrix/dets.rs:18-20 | the 2x2 rule `a00 * a11 - a01 * a10`; what makes it a determinant is stated by `Dets.Det2Cofactor`, `Dets.Det2SwapRows` and `Dets.Det2Multiplicative` |
| Dets.Det3 | src/matrix/dets.rs:28-35 | the six-term 3x3 rule in the source's order; what makes it a determinant is stated by `Dets.Det3Cofactor`, `Dets.Det3RepeatedRow` and `Dets.Det3SwapRows` |
| Dets.Det2Cofactor | src/matrix/dets.rs:18-20 | the 2x2 rule is the cofactor expansion along the top row over the 1x1 minors |
| Dets.Det3Cofactor | src/matrix/dets.rs:28-35 | the six-term 3x3 rule regroups to the cofactor expansion along the top row over the 2x2 minors |
| Dets.DetIdentities | src/matrix/dets.rs:13-35 | the identity matrix has determinant 1 and the all-`id_add` matrix 0, in every size |
| Dets.Det3RepeatedRow | src/matrix/dets.rs:28-35 | a 3x3 matrix in which any two distinct rows r and s are equal has determinant 0 |
| Dets.Det2SwapRows | src/matrix/dets.rs:18-20 | swapping the rows of a 2x2 matrix negates its determinant |
| Dets.Det3SwapRows | src/matrix/dets.rs:28-35 | swapping any two distinct rows r and s of a 3x3 matrix negates its determinant |
| Dets.Det2Multiplicative | src/matrix/dets.rs:18-20 | the determinant of a 2x2 product is the product of the determinants |
| Dets.Det1Example | src/matrix/dets.rs:43-46 | `[[-3]]` has determinant -3 |
| Dets.Det2Example | src/matrix/dets.rs:49-52 | `[[5, -1], [8, 2]]` has determinant 18 |
| Dets.Det3Example | src/matrix/dets.rs:55-58 | `[[0, -1, 2], [3, 2, 1], [-2, -3, 4]]` has determinant 4 |
| Iters.StrideBound | src/matrix/iter.rs:49-56 | every offset `j + k * COLS` that `ColIter` reads lies in a ROWS * COLS slice |
| Iters.Strided | src/matrix/iter.rs:37-56 | the column walk has ROWS entries, entry k being the in-bounds `entries[j + k * COLS]` |
| Iters.FlattenRow | src/matrix/iter.rs:8-13 | the slice `[COLS * i, COLS * (i + 1))` of the row-major layout is `row(i)` of the nested rows |
| Iters.FlattenCol | src/matrix/iter.rs:37-42 | the stride-COLS walk from offset j of the row-major layout is `col(j)` of the nested rows |
| Iters.Iter.constructor | src/matrix/iter/cursor.rs:54-58 | the row-major iterator that `cursor()` wraps starts before the first entry, with every entry still to come |
| Iters.Iter.Next | src/matrix/cmp.rs:8 | yields the entries in row-major order, one per call, then `None` on every call, changing nothing |
| Iters.RowIter.constructor | src/matrix/iter.rs:8-14 | `index` starts at `COLS * i` and `end` is `COLS * (i + 1) - 1`; the items to come are the entries of row i |
| Iters.RowIter.Next | src/matrix/iter.rs:20-27 | yields `entries[index]` and steps by 1 while `index <= end`; then `None` on every call, changing nothing |
| Iters.ColIter.constructor | src/matrix/iter.rs:37-43 | `index` starts at j and `end` is `(ROWS - 1) * COLS + j`; the items to come are the column walk |
| Iters.ColIter.Next | src/matrix/iter.rs:49-56 | yields `entries[index]` and steps by COLS while `index <= end`; then `None` on every call, changing nothing |
| Iters.ColIter.PastEnd | src/matrix/iter.rs:50 | `index <= end` holds exactly while fewer than ROWS entries have been yielded |
| Cursors.Advance | src/matrix/iter/cursor.rs:28-34 | one `next` moves the row-major offset `i * N + j` on by one; `i` moves to the next row exactly when `j` had reached N |
| Cursors.Reported | src/matrix/iter/cursor.rs:28-36 | the coordinates reported are the offset just before the fields' new one |
| Cursors.PosAfterOffset | src/matrix/iter/cursor.rs:27-37 | after c calls the fields point at offset c, with j in 1..N once a call has been made |
| Cursors.ReportedCoordinates | src/matrix/iter/cursor.rs:27-37 | the k-th item is reported at (i, j) with `i * N + j == k` and `j < N`: row-major order |
| Cursors.SizeFormula | src/matrix/iter/cursor.rs:40 | `N * (M - i) - j` over the integers, before any `usize` underflow; its value is stated by `Cursors.SizeFormulaCounts` |
| Cursors.SizeFormulaCounts | src/matrix/iter/cursor.rs:39-42 | after c calls, `N * (M - i) - j` equals M * N - c |
| Cursors.SizeHintUnderflows | src/matrix/iter/cursor.rs:39-41 | on the test's 3x2 matrix the formula is 0 after six calls and -1 after the seventh |
| Cursors.Cursor.constructor | src/matrix/iter/cursor.rs:16-18 | a new cursor starts at (0, 0) over a fresh row-major iterator |
| Cursors.Cursor.Next | src/matrix/iter/cursor.rs:27-37 | returns the wrapped iterator's item tagged with (i, j) where `i * N + j` is its offset, and `None` iff the wrapped iterator does; the fields advance as `Advance` says |
| Cursors.Cursor.SizeHint | src/matrix/iter/cursor.rs:39-42 | while at most M * N calls have been made, both bounds equal the number of items left |
| Cursors.Cursor.Len | src/matrix/iter/cursor.rs:39-42 | `len()` is the number of items the wrapped iterator has left: M * N minus the items yielded, 0 once exhausted |
| Compare.ZipAll | src/matrix/cmp.rs:8 | `zip` then `all` holds iff the entries agree at every position both sequences have |
| Compare.Eq | src/matrix/cmp.rs:7-9 | `eq` zips the two row-major traversals and requires every pair to agree; its meaning is stated by `Compare.EqIffCellwise` and `Compare.EqIffEqual` |
| Compare.EqIffCellwise | src/matrix/cmp.rs:7-9 | `eq` holds iff every cell equals the cell at the same (i, j) |
| Compare.EqIffEqual | src/matrix/cmp.rs:7-9 | `eq` holds iff the two matrices are the same value |
| Compare.EqReflexive | src/matrix/cmp.rs:12 | `eq` is reflexive, as the `Eq` impl promises |
| Compare.EqSymmetric | src/matrix/cmp.rs:7-9 | `eq` is symmetric |
| Compare.EqTransitive | src/matrix/cmp.rs:7-9 | `eq` is transitive |
| Compare.SingleCellChangeUnequal | src/matrix/cmp.rs:7-9 | changing any one cell to a different value makes the matrix unequal to the original |

## Left out

- Entry types: fixed-width overflow of the entries is not modelled; entries are unbounded integers.
- Entry types: the generic output types of the operators (T, U, V, W) are not modelled.
- Entry types: float arithmetic is left out. This covers the float `IdAdd`/`IdMul` instances, `src/vec2.rs`, `src/vec3.rs`, `src/recip.rs` and `src/inverse.rs`.
- `usize` and `isize` are taken as 64 bits wide in `Identity.MinValue` and `Identity.MaxValue`.
- `with_cols` is `todo!()` in the source, so there is nothing to model.
- `src/error.rs`, `src/matrix/aliases.rs`, `src/lib.rs` and `src/identity/macros.rs` hold no behaviour of the core.
- `map`, `map_mut`, `iter`, `Matrix::id_add` and the flat-slice constructor `Matrix::new` are not part of this model. `Matrices.Map`, `Grids.Grid.MapMut`, `Iters.Iter` and `Matrices.IdAddMatrix` define the first four by how the core uses them.
- The iterator tests of `src/matrix/iter.rs` build their matrix with `Matrix::new` from a flat slice; `Iters.IterRowTest` and `Iters.IterColTest` start from that slice. The cursor test builds its matrix with `from_rows`; `Cursors.CursorTest` starts from its row-major layout `Flatten`.
- Lifetimes, borrow exclusivity and aliasing of the mutable views are not modelled. A write through a view is one `update` function applied to each exposed cell.
- Grids.Grid.RowMut: the view is modelled as one pass that rewrites every exposed cell with `update(column, old value)`. Writes interleaved with reads of other cells are not modelled. Neither are partial writes that leave some exposed cells untouched, except where `update` returns the old value. The same holds for `ColMut`, `GetMut` and `IndexMut`.
- `IterMut` and `IntoIter`, the other two iterators a `Cursor` can wrap, are left out. Only the read-only row-major iterator is modelled; the position arithmetic is the same for all three.
- `iter_row` and `iter_col`, which check the index before building the iterators, are not part of this model.
- Ops.Index: the panic is modelled as an `Err` value that carries the shape and the index. The panic message text is not modelled.
- Grids.Grid.IndexMut: the panic is modelled as an `Err` value that carries the shape and the index. The panic message text is not modelled.
- Ops.Pow: the `u32` exponent is a `nat`, so exponents above 2^32 - 1 are also admitted.
- Iters.RowIter.constructor: requires COLS >= 1, because `COLS * (i + 1) - 1` would underflow `usize` and panic. The panic is not modelled.
- Iters.RowIter.constructor: requires a slice of at least COLS * (i + 1) entries, which the callers guarantee. The out-of-bounds panic of `next` is not modelled.
- Iters.ColIter.constructor: requires ROWS >= 1 and j < COLS, because `(ROWS - 1) * COLS + j` would underflow otherwise. The panic is not modelled.
- Iters.ColIter.constructor: requires a slice of at least ROWS * COLS entries, which the callers guarantee. The out-of-bounds panic of `next` is not modelled.
- Cursors.Cursor.constructor: requires a fresh iterator (`pos == 0`), as the one call site in the source (src/matrix/iter/cursor.rs:81) passes. `cursor()` also accepts a partly consumed iterator. Its coordinates would still start at (0, 0), and `size_hint` would over-report by the items already consumed; the model does not cover that case.
- Cursors.Cursor.SizeHint: requires at most M * N calls so far. Past that point the source's formula underflows; see "Findings".
- Cursors.Cursor.Len: models the `len` the test expects, not the as-written underflow. It stands for `ExactSizeIterator::len`, whose default body reads `size_hint`.

## Findings

| source | as written | input that shows it | evidently intended | confidence | as-written member | corrected member |
|---|---|---|---|---|---|---|
| src/matrix/ops.rs:27-29 | `pow(exp)` folds `exp` products onto the matrix itself, so it returns A^(exp+1) and `pow(0)` is A | A = `[[1, 3], [2, -1]]`: `pow(3)` is `[[49, 0], [0, 49]]` = A^4 (A^3 is `[[7, 21], [14, -7]]`), and `pow(0)` is A, not the identity | `pow(exp)` = A^exp, with A^0 the identity | medium: the test at src/matrix/ops.rs:156-159 expects the as-written value; not executed | Ops.Pow, Ops.PowIsNextPower, OpsExamples.PowIsOffByOne | Ops.Power, Ops.PowerBase |
| src/matrix/iter/cursor.rs:39-41 | `next` keeps advancing `i` and `j` after the wrapped iterator is exhausted, so `N * (M - i) - j` goes below zero in `usize` | the 3x2 matrix `[[1, 2], [3, 4], [5, 6]]`: after the seventh `next` (the first `None`) i = 3 and j = 1, giving `2 * 0 - 1`, while the test at src/matrix/iter/cursor.rs:96 expects `len()` to be 0 | `len()` is the number of items left, which stays 0 after exhaustion | high; not executed | Cursors.SizeHintUnderflows | Cursors.Cursor.Len |
