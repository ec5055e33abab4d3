/**
 * `PartialEq for Matrix` of src/matrix/cmp.rs: two matrices are equal when
 * zipping their row-major traversals pairs up equal entries only.
 */
module Compare {
  import opened Matrices

  /** `xs.zip(ys).all(|(x, y)| x == y)`: the pairs `zip` forms stop at the shorter side. */
  function ZipAll(xs: seq<int>, ys: seq<int>): (r: bool)
    ensures r <==> forall k :: 0 <= k < |xs| && k < |ys| ==> xs[k] == ys[k]
  {
    if |xs| == 0 || |ys| == 0 then true
    else xs[0] == ys[0] && ZipAll(xs[1..], ys[1..])
  }

  /** `eq`: the zipped row-major traversals agree everywhere. */
  function Eq(a: Matrix, b: Matrix, m: nat, n: nat): bool
    requires Shaped(a, m, n) && Shaped(b, m, n)
  {
    ZipAll(Flatten(a, m, n), Flatten(b, m, n))
  }

  /** `eq` holds exactly when every cell agrees with the cell at the same (i, j). */
  lemma EqIffCellwise(a: Matrix, b: Matrix, m: nat, n: nat)
    requires Shaped(a, m, n) && Shaped(b, m, n)
    ensures Eq(a, b, m, n) <==> forall i, j :: 0 <= i < m && 0 <= j < n ==> a.rows[i][j] == b.rows[i][j]
  {
    if Eq(a, b, m, n) {
      forall i, j | 0 <= i < m && 0 <= j < n
        ensures a.rows[i][j] == b.rows[i][j]
      {
        FlattenIndex(a, m, n, i, j);
        FlattenIndex(b, m, n, i, j);
      }
    } else if forall i, j :: 0 <= i < m && 0 <= j < n ==> a.rows[i][j] == b.rows[i][j] {
      CellwiseEqual(a, b, m, n);
      assert false;
    }
  }

  /** `eq` holds exactly when the two matrices are the same value. */
  lemma EqIffEqual(a: Matrix, b: Matrix, m: nat, n: nat)
    requires Shaped(a, m, n) && Shaped(b, m, n)
    ensures Eq(a, b, m, n) <==> a == b
  {
    EqIffCellwise(a, b, m, n);
    if Eq(a, b, m, n) {
      CellwiseEqual(a, b, m, n);
    }
  }

  /** Reflexivity, which the `Eq` marker impl promises. */
  lemma EqReflexive(a: Matrix, m: nat, n: nat)
    requires Shaped(a, m, n)
    ensures Eq(a, a, m, n)
  {
    EqIffEqual(a, a, m, n);
  }

  lemma EqSymmetric(a: Matrix, b: Matrix, m: nat, n: nat)
    requires Shaped(a, m, n) && Shaped(b, m, n)
    ensures Eq(a, b, m, n) <==> Eq(b, a, m, n)
  {
    EqIffEqual(a, b, m, n);
    EqIffEqual(b, a, m, n);
  }

  lemma EqTransitive(a: Matrix, b: Matrix, c: Matrix, m: nat, n: nat)
    requires Shaped(a, m, n) && Shaped(b, m, n) && Shaped(c, m, n)
    requires Eq(a, b, m, n) && Eq(b, c, m, n)
    ensures Eq(a, c, m, n)
  {
    EqIffEqual(a, b, m, n);
    EqIffEqual(b, c, m, n);
    EqIffEqual(a, c, m, n);
  }

  /** `a` with cell (i, j) replaced by v. */
  function SetCell(a: Matrix, m: nat, n: nat, i: nat, j: nat, v: int): (b: Matrix)
    requires Shaped(a, m, n) && i < m && j < n
    ensures Shaped(b, m, n)
    ensures forall r, c :: 0 <= r < m && 0 <= c < n ==> b.rows[r][c] == if r == i && c == j then v else a.rows[r][c]
  {
    Matrix(a.rows[i := a.rows[i][j := v]])
  }

  /** Changing any one cell to a different value makes the matrix unequal to the original. */
  lemma SingleCellChangeUnequal(a: Matrix, m: nat, n: nat, i: nat, j: nat, v: int)
    requires Shaped(a, m, n) && i < m && j < n && v != a.rows[i][j]
    ensures !Eq(a, SetCell(a, m, n, i, j, v), m, n)
  {
    EqIffCellwise(a, SetCell(a, m, n, i, j, v), m, n);
  }
}
