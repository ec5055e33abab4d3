/**
 * The operators of src/matrix/ops.rs on matrix values: `Index`, `scale`,
 * `Add`, `Sub`, `Neg`, matrix `Mul` and `pow`. Every result is built as the
 * source builds it, by mapping a per-cell closure over `Matrix::id_add()`.
 * The in-place twins (`scale_mut`, `AddAssign`, `SubAssign`, `IndexMut`) act on
 * the object model in grid.dfy.
 */
module Ops {
  import opened Wrappers
  import opened Matrices

  /** The data of the panic message "index out of bounds: the len is (M, N) but the index is (i, j)". */
  datatype IndexError = OutOfBounds(m: nat, n: nat, i: nat, j: nat)

  /**
   * `Index<(usize, usize)>::index`: the cell `get(i, j)` finds, and otherwise
   * the panic, modelled as an error value carrying the shape and the index.
   */
  function Index(a: Matrix, m: nat, n: nat, i: nat, j: nat): (r: Result<int, IndexError>)
    requires Shaped(a, m, n)
    ensures r.Ok? <==> i < m && j < n
    ensures r.Ok? ==> Get(a, m, n, i, j) == Some(r.value)
    ensures r.Err? ==> r.error == OutOfBounds(m, n, i, j)
  {
    match Get(a, m, n, i, j)
    case Some(x) => Ok(x)
    case None => Err(OutOfBounds(m, n, i, j))
  }

  /** `scale(factor)`: every cell multiplied by `factor`. */
  function Scale(a: Matrix, m: nat, n: nat, factor: int): (r: Matrix)
    requires Shaped(a, m, n)
    ensures Shaped(r, m, n)
    ensures forall i, j :: 0 <= i < m && 0 <= j < n ==> r.rows[i][j] == a.rows[i][j] * factor
  {
    Map(IdAddMatrix(m, n), m, n, (i: nat, j: nat, _: int) requires i < m && j < n => a.rows[i][j] * factor)
  }

  /** `Add`: cell-wise sum. */
  function Add(a: Matrix, b: Matrix, m: nat, n: nat): (r: Matrix)
    requires Shaped(a, m, n) && Shaped(b, m, n)
    ensures Shaped(r, m, n)
    ensures forall i, j :: 0 <= i < m && 0 <= j < n ==> r.rows[i][j] == a.rows[i][j] + b.rows[i][j]
  {
    Map(IdAddMatrix(m, n), m, n, (i: nat, j: nat, _: int) requires i < m && j < n => a.rows[i][j] + b.rows[i][j])
  }

  /** `Sub`: cell-wise difference. */
  function Sub(a: Matrix, b: Matrix, m: nat, n: nat): (r: Matrix)
    requires Shaped(a, m, n) && Shaped(b, m, n)
    ensures Shaped(r, m, n)
    ensures forall i, j :: 0 <= i < m && 0 <= j < n ==> r.rows[i][j] == a.rows[i][j] - b.rows[i][j]
  {
    Map(IdAddMatrix(m, n), m, n, (i: nat, j: nat, _: int) requires i < m && j < n => a.rows[i][j] - b.rows[i][j])
  }

  /** `Neg`: cell-wise negation. */
  function Neg(a: Matrix, m: nat, n: nat): (r: Matrix)
    requires Shaped(a, m, n)
    ensures Shaped(r, m, n)
    ensures forall i, j :: 0 <= i < m && 0 <= j < n ==> r.rows[i][j] == -a.rows[i][j]
  {
    Map(IdAddMatrix(m, n), m, n, (i: nat, j: nat, _: int) requires i < m && j < n => -a.rows[i][j])
  }

  /** The dot product of two equally long vectors, summed from the front. */
  function Dot(u: seq<int>, v: seq<int>): int
    requires |u| == |v|
  {
    if |u| == 0 then 0 else u[0] * v[0] + Dot(u[1..], v[1..])
  }

  /**
   * The accumulator `x` of the `for k in 0..P` loop in `Mul` after its first
   * `k` rounds, started from `x`.
   */
  function Accumulate(x: int, a: Matrix, b: Matrix, m: nat, p: nat, n: nat, i: nat, j: nat, k: nat): int
    requires Shaped(a, m, p) && Shaped(b, p, n) && i < m && j < n && k <= p
  {
    if k == 0 then x else Accumulate(x, a, b, m, p, n, i, j, k - 1) + a.rows[i][k - 1] * b.rows[k - 1][j]
  }

  /**
   * Matrix `Mul` (M x P times P x N) as a value: cell (i, j) is the loop's
   * accumulator run from the placeholder in cell (i, j) of `Matrix::id_add()`.
   * Its meaning: the dot product of row i of `a` with column j of `b`.
   */
  function MatMul(a: Matrix, b: Matrix, m: nat, p: nat, n: nat): (r: Matrix)
    requires Shaped(a, m, p) && Shaped(b, p, n)
    ensures Shaped(r, m, n)
    ensures forall i, j :: 0 <= i < m && 0 <= j < n ==> r.rows[i][j] == Dot(a.rows[i], Col(b, p, n, j).value)
  {
    var r := Map(IdAddMatrix(m, n), m, n,
      (i: nat, j: nat, x: int) requires i < m && j < n => Accumulate(x, a, b, m, p, n, i, j, p));
    assert forall i, j :: 0 <= i < m && 0 <= j < n ==> r.rows[i][j] == Dot(a.rows[i], Col(b, p, n, j).value) by {
      forall i, j | 0 <= i < m && 0 <= j < n
        ensures r.rows[i][j] == Dot(a.rows[i], Col(b, p, n, j).value)
      {
        AccumulateIsDot(Zero, a, b, m, p, n, i, j, p);
        assert a.rows[i][..p] == a.rows[i];
        assert Col(b, p, n, j).value[..p] == Col(b, p, n, j).value;
      }
    }
    r
  }

  /** Appending one pair of entries adds their product to the dot product. */
  lemma {:induction false} DotSnoc(u: seq<int>, v: seq<int>, x: int, y: int)
    requires |u| == |v|
    ensures Dot(u + [x], v + [y]) == Dot(u, v) + x * y
    decreases |u|
  {
    if |u| > 0 {
      assert (u + [x])[1..] == u[1..] + [x];
      assert (v + [y])[1..] == v[1..] + [y];
      DotSnoc(u[1..], v[1..], x, y);
    }
  }

  /**
   * The loop in `Mul` computes, after k rounds, its start value plus the dot
   * product of the first k entries of row i of `a` and of column j of `b`.
   */
  lemma {:induction false} AccumulateIsDot(x: int, a: Matrix, b: Matrix, m: nat, p: nat, n: nat, i: nat, j: nat, k: nat)
    requires Shaped(a, m, p) && Shaped(b, p, n) && i < m && j < n && k <= p
    ensures Accumulate(x, a, b, m, p, n, i, j, k) == x + Dot(a.rows[i][..k], Col(b, p, n, j).value[..k])
    decreases k
  {
    var col := Col(b, p, n, j).value;
    if k > 0 {
      AccumulateIsDot(x, a, b, m, p, n, i, j, k - 1);
      assert a.rows[i][..k] == a.rows[i][..k - 1] + [a.rows[i][k - 1]];
      assert col[..k] == col[..k - 1] + [col[k - 1]];
      DotSnoc(a.rows[i][..k - 1], col[..k - 1], a.rows[i][k - 1], col[k - 1]);
    }
  }

  /**
   * Matrix `Mul` as the source runs it: for every cell of the placeholder
   * matrix, the loop `for k in 0..P { x = x + a[(i, k)] * b[(k, j)] }`.
   */
  method Mul(a: Matrix, b: Matrix, m: nat, p: nat, n: nat) returns (r: Matrix)
    requires Shaped(a, m, p) && Shaped(b, p, n)
    ensures r == MatMul(a, b, m, p, n)
  {
    var z := IdAddMatrix(m, n);
    ghost var spec := MatMul(a, b, m, p, n);
    var rows: seq<seq<int>> := [];
    for i := 0 to m
      invariant |rows| == i
      invariant forall r :: 0 <= r < i ==> rows[r] == spec.rows[r]
    {
      var row: seq<int> := [];
      for j := 0 to n
        invariant |row| == j
        invariant forall c :: 0 <= c < j ==> row[c] == spec.rows[i][c]
      {
        var x := z.rows[i][j];
        for k := 0 to p
          invariant x == Accumulate(z.rows[i][j], a, b, m, p, n, i, j, k)
        {
          x := x + a.rows[i][k] * b.rows[k][j];
        }
        AccumulateIsDot(z.rows[i][j], a, b, m, p, n, i, j, p);
        assert a.rows[i][..p] == a.rows[i];
        assert Col(b, p, n, j).value[..p] == Col(b, p, n, j).value;
        row := row + [x];
      }
      rows := rows + [row];
    }
    r := Matrix(rows);
  }

  /** `pow(exp)`: `(0..exp).fold(self, |acc, _| acc * self)`, so `pow(0)` is the matrix itself. */
  function Pow(a: Matrix, m: nat, exp: nat): (r: Matrix)
    requires Shaped(a, m, m)
    ensures Shaped(r, m, m)
  {
    if exp == 0 then a else MatMul(Pow(a, m, exp - 1), a, m, m, m)
  }

  /** The matrix power the name `pow` promises: `Power(a, 0)` is the identity, `Power(a, e + 1)` is `Power(a, e) * a`. */
  function Power(a: Matrix, m: nat, e: nat): (r: Matrix)
    requires Shaped(a, m, m)
    ensures Shaped(r, m, m)
  {
    if e == 0 then IdMulMatrix(m) else MatMul(Power(a, m, e - 1), a, m, m, m)
  }

  // ----- laws of the cell-wise operators -----

  /** `A + B == B + A`. */
  lemma AddCommutes(a: Matrix, b: Matrix, m: nat, n: nat)
    requires Shaped(a, m, n) && Shaped(b, m, n)
    ensures Add(a, b, m, n) == Add(b, a, m, n)
  {
    CellwiseEqual(Add(a, b, m, n), Add(b, a, m, n), m, n);
  }

  /** The all-`id_add` matrix is the identity of `Add`: `A + Z == A`. */
  lemma AddIdAddMatrix(a: Matrix, m: nat, n: nat)
    requires Shaped(a, m, n)
    ensures Add(a, IdAddMatrix(m, n), m, n) == a
  {
    CellwiseEqual(Add(a, IdAddMatrix(m, n), m, n), a, m, n);
  }

  /** `A - B == A + (-B)`. */
  lemma SubIsAddNeg(a: Matrix, b: Matrix, m: nat, n: nat)
    requires Shaped(a, m, n) && Shaped(b, m, n)
    ensures Sub(a, b, m, n) == Add(a, Neg(b, m, n), m, n)
  {
    CellwiseEqual(Sub(a, b, m, n), Add(a, Neg(b, m, n), m, n), m, n);
  }

  /** `A - A` is the all-`id_add` matrix. */
  lemma SubSelf(a: Matrix, m: nat, n: nat)
    requires Shaped(a, m, n)
    ensures Sub(a, a, m, n) == IdAddMatrix(m, n)
  {
    CellwiseEqual(Sub(a, a, m, n), IdAddMatrix(m, n), m, n);
  }

  /** `-(-A) == A`. */
  lemma NegInvolutive(a: Matrix, m: nat, n: nat)
    requires Shaped(a, m, n)
    ensures Neg(Neg(a, m, n), m, n) == a
  {
    CellwiseEqual(Neg(Neg(a, m, n), m, n), a, m, n);
  }

  /** Scaling by `id_mul` changes nothing; scaling by `id_add` gives the all-`id_add` matrix. */
  lemma ScaleByIdentities(a: Matrix, m: nat, n: nat)
    requires Shaped(a, m, n)
    ensures Scale(a, m, n, One) == a
    ensures Scale(a, m, n, Zero) == IdAddMatrix(m, n)
  {
    CellwiseEqual(Scale(a, m, n, One), a, m, n);
    CellwiseEqual(Scale(a, m, n, Zero), IdAddMatrix(m, n), m, n);
  }

  // ----- laws of matrix multiplication -----

  /** A dot product with an all-zero vector is zero. */
  lemma {:induction false} DotZero(u: seq<int>, v: seq<int>)
    requires |u| == |v|
    requires forall k :: 0 <= k < |u| ==> u[k] == Zero
    ensures Dot(u, v) == 0
    decreases |u|
  {
    if |u| > 0 {
      DotZero(u[1..], v[1..]);
    }
  }

  /** The dot product is symmetric. */
  lemma {:induction false} DotCommutes(u: seq<int>, v: seq<int>)
    requires |u| == |v|
    ensures Dot(u, v) == Dot(v, u)
    decreases |u|
  {
    if |u| > 0 {
      DotCommutes(u[1..], v[1..]);
    }
  }

  /** Dotting with the unit vector that has `id_mul` at k picks entry k. */
  lemma {:induction false} DotUnit(u: seq<int>, v: seq<int>, k: nat)
    requires |u| == |v| && k < |u|
    requires forall t :: 0 <= t < |u| ==> u[t] == if t == k then One else Zero
    ensures Dot(u, v) == v[k]
    decreases |u|
  {
    if k == 0 {
      DotZero(u[1..], v[1..]);
    } else {
      DotUnit(u[1..], v[1..], k - 1);
    }
  }

  /** `I * A == A`. */
  lemma MulIdentityLeft(a: Matrix, m: nat, n: nat)
    requires Shaped(a, m, n)
    ensures MatMul(IdMulMatrix(m), a, m, m, n) == a
  {
    var e := IdMulMatrix(m);
    forall i, j | 0 <= i < m && 0 <= j < n
      ensures MatMul(e, a, m, m, n).rows[i][j] == a.rows[i][j]
    {
      DotUnit(e.rows[i], Col(a, m, n, j).value, i);
    }
    CellwiseEqual(MatMul(e, a, m, m, n), a, m, n);
  }

  /** `A * I == A`. */
  lemma MulIdentityRight(a: Matrix, m: nat, n: nat)
    requires Shaped(a, m, n)
    ensures MatMul(a, IdMulMatrix(n), m, n, n) == a
  {
    var e := IdMulMatrix(n);
    forall i, j | 0 <= i < m && 0 <= j < n
      ensures MatMul(a, e, m, n, n).rows[i][j] == a.rows[i][j]
    {
      var col := Col(e, n, n, j).value;
      DotCommutes(a.rows[i], col);
      DotUnit(col, a.rows[i], j);
    }
    CellwiseEqual(MatMul(a, e, m, n, n), a, m, n);
  }

  // ----- pow -----

  /** `pow(e)` is the (e + 1)-th power: the fold starts from the matrix, not from the identity. */
  lemma {:induction false} PowIsNextPower(a: Matrix, m: nat, e: nat)
    requires Shaped(a, m, m)
    ensures Pow(a, m, e) == Power(a, m, e + 1)
    decreases e
  {
    if e == 0 {
      MulIdentityLeft(a, m, m);
    } else {
      PowIsNextPower(a, m, e - 1);
    }
  }

  /** The intended power starts from the identity and has the matrix itself as its first power. */
  lemma PowerBase(a: Matrix, m: nat)
    requires Shaped(a, m, m)
    ensures Power(a, m, 0) == IdMulMatrix(m)
    ensures Power(a, m, 1) == a
  {
    MulIdentityLeft(a, m, m);
  }

  /** A dot product of two entries each. */
  lemma Dot2(u: seq<int>, v: seq<int>)
    requires |u| == |v| == 2
    ensures Dot(u, v) == u[0] * v[0] + u[1] * v[1]
  {
    assert Dot(u[1..][1..], v[1..][1..]) == 0;
  }

  /** The product of two 2x2 matrices, entry by entry. */
  lemma MatMul2x2(a: Matrix, b: Matrix)
    requires Shaped(a, 2, 2) && Shaped(b, 2, 2)
    ensures MatMul(a, b, 2, 2, 2) == Matrix([
      [a.rows[0][0] * b.rows[0][0] + a.rows[0][1] * b.rows[1][0], a.rows[0][0] * b.rows[0][1] + a.rows[0][1] * b.rows[1][1]],
      [a.rows[1][0] * b.rows[0][0] + a.rows[1][1] * b.rows[1][0], a.rows[1][0] * b.rows[0][1] + a.rows[1][1] * b.rows[1][1]]])
  {
    var r := MatMul(a, b, 2, 2, 2);
    Dot2(a.rows[0], Col(b, 2, 2, 0).value);
    Dot2(a.rows[0], Col(b, 2, 2, 1).value);
    Dot2(a.rows[1], Col(b, 2, 2, 0).value);
    Dot2(a.rows[1], Col(b, 2, 2, 1).value);
    assert r.rows[0] == [r.rows[0][0], r.rows[0][1]];
    assert r.rows[1] == [r.rows[1][0], r.rows[1][1]];
  }
}
