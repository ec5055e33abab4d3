/**
 * The closed-form determinants of src/matrix/dets.rs for 1x1, 2x2 and 3x3
 * matrices, with the algebraic facts that make them determinants: each
 * formula is the cofactor expansion along the top row, the identity has
 * determinant 1, a repeated row gives 0, swapping two rows negates, and the
 * 2x2 determinant is multiplicative.
 */
module Dets {
  import opened Wrappers
  import opened Matrices
  import opened Ops

  /** `Matrix<T, 1, 1>::det`: the one entry, read through `Index`. */
  function Det1(a: Matrix): (d: int)
    requires Shaped(a, 1, 1)
    ensures Index(a, 1, 1, 0, 0) == Ok(d)
  {
    a.rows[0][0]
  }

  /** `Matrix<T, 2, 2>::det`. */
  function Det2(a: Matrix): int
    requires Shaped(a, 2, 2)
  {
    a.rows[0][0] * a.rows[1][1] - a.rows[0][1] * a.rows[1][0]
  }

  /** `Matrix<T, 3, 3>::det`: the six-term rule, summed in the source's order. */
  function Det3(a: Matrix): int
    requires Shaped(a, 3, 3)
  {
    a.rows[0][0] * a.rows[1][1] * a.rows[2][2]
      + a.rows[0][1] * a.rows[1][2] * a.rows[2][0]
      + a.rows[0][2] * a.rows[1][0] * a.rows[2][1]
      - a.rows[0][2] * a.rows[1][1] * a.rows[2][0]
      - a.rows[0][0] * a.rows[1][2] * a.rows[2][1]
      - a.rows[0][1] * a.rows[1][0] * a.rows[2][2]
  }

  /** The (k-1)x(k-1) matrix left when row r and column c are struck out. */
  function Minor(a: Matrix, k: nat, r: nat, c: nat): (b: Matrix)
    requires Shaped(a, k, k) && r < k && c < k
    ensures Shaped(b, k - 1, k - 1)
    ensures forall i, j :: 0 <= i < k - 1 && 0 <= j < k - 1 ==>
      b.rows[i][j] == a.rows[if i < r then i else i + 1][if j < c then j else j + 1]
  {
    Matrix(seq(k - 1, i requires 0 <= i < k - 1 =>
      seq(k - 1, j requires 0 <= j < k - 1 => a.rows[if i < r then i else i + 1][if j < c then j else j + 1])))
  }

  /** The 2x2 rule is the cofactor expansion along the top row, down to 1x1 minors. */
  lemma Det2Cofactor(a: Matrix)
    requires Shaped(a, 2, 2)
    ensures Det2(a) == a.rows[0][0] * Det1(Minor(a, 2, 0, 0)) - a.rows[0][1] * Det1(Minor(a, 2, 0, 1))
  {
  }

  /** The six-term 3x3 rule regroups to the cofactor expansion along the top row. */
  lemma Det3Cofactor(a: Matrix)
    requires Shaped(a, 3, 3)
    ensures Det3(a) == a.rows[0][0] * Det2(Minor(a, 3, 0, 0))
                     - a.rows[0][1] * Det2(Minor(a, 3, 0, 1))
                     + a.rows[0][2] * Det2(Minor(a, 3, 0, 2))
  {
    var x00, x01, x02 := a.rows[0][0], a.rows[0][1], a.rows[0][2];
    var x10, x11, x12 := a.rows[1][0], a.rows[1][1], a.rows[1][2];
    var x20, x21, x22 := a.rows[2][0], a.rows[2][1], a.rows[2][2];
    Det2Cells(Minor(a, 3, 0, 0), x11, x12, x21, x22);
    Det2Cells(Minor(a, 3, 0, 1), x10, x12, x20, x22);
    Det2Cells(Minor(a, 3, 0, 2), x10, x11, x20, x21);
    Regroup3(x00, x01, x02, x10, x11, x12, x20, x21, x22);
  }

  /** `Det2` of the 2x2 matrix with cells p, q (top) and r, s (bottom). */
  lemma Det2Cells(b: Matrix, p: int, q: int, r: int, s: int)
    requires Shaped(b, 2, 2)
    requires b.rows[0][0] == p && b.rows[0][1] == q && b.rows[1][0] == r && b.rows[1][1] == s
    ensures Det2(b) == p * s - q * r
  {
  }

  /** The ring identity behind `Det3Cofactor`, on plain integers. */
  lemma Regroup3(x00: int, x01: int, x02: int, x10: int, x11: int, x12: int, x20: int, x21: int, x22: int)
    ensures x00 * x11 * x22 + x01 * x12 * x20 + x02 * x10 * x21
          - x02 * x11 * x20 - x00 * x12 * x21 - x01 * x10 * x22
         == x00 * (x11 * x22 - x12 * x21) - x01 * (x10 * x22 - x12 * x20) + x02 * (x10 * x21 - x11 * x20)
  {
  }

  /** The identity matrix `id_mul` builds has determinant 1; the `id_add` matrix has 0. */
  lemma DetIdentities()
    ensures Det1(IdMulMatrix(1)) == 1 && Det2(IdMulMatrix(2)) == 1 && Det3(IdMulMatrix(3)) == 1
    ensures Det1(IdAddMatrix(1, 1)) == 0 && Det2(IdAddMatrix(2, 2)) == 0 && Det3(IdAddMatrix(3, 3)) == 0
  {
  }

  /** A 3x3 matrix with two equal rows has determinant 0. */
  lemma Det3RepeatedRow(a: Matrix, r: nat, s: nat)
    requires Shaped(a, 3, 3) && r < 3 && s < 3 && r != s && a.rows[r] == a.rows[s]
    ensures Det3(a) == 0
  {
  }

  /** Swapping the two rows of a 2x2 matrix negates its determinant. */
  lemma Det2SwapRows(a: Matrix)
    requires Shaped(a, 2, 2)
    ensures Det2(Matrix([a.rows[1], a.rows[0]])) == -Det2(a)
  {
  }

  /** `a` with rows r and s exchanged. */
  function SwapRows(a: Matrix, r: nat, s: nat): (b: Matrix)
    requires r < |a.rows| && s < |a.rows|
    ensures |b.rows| == |a.rows| && b.rows[r] == a.rows[s] && b.rows[s] == a.rows[r]
    ensures forall t :: 0 <= t < |a.rows| && t != r && t != s ==> b.rows[t] == a.rows[t]
  {
    Matrix(a.rows[r := a.rows[s]][s := a.rows[r]])
  }

  /** Swapping any two rows of a 3x3 matrix negates its determinant. */
  lemma Det3SwapRows(a: Matrix, r: nat, s: nat)
    requires Shaped(a, 3, 3) && r < 3 && s < 3 && r != s
    ensures Shaped(SwapRows(a, r, s), 3, 3)
    ensures Det3(SwapRows(a, r, s)) == -Det3(a)
  {
    var b := SwapRows(a, r, s);
    var x, y, z := a.rows[0], a.rows[1], a.rows[2];
    if r + s == 1 {
      assert b.rows == [y, x, z];
      Swap3(x, y, z);
    } else if r + s == 2 {
      assert b.rows == [z, y, x];
      Swap3(z, y, x);
      Swap3(y, z, x);
      Swap3(z, x, y);
    } else {
      assert b.rows == [x, z, y];
      Swap3(x, z, y);
      Swap3(z, x, y);
      Swap3(y, z, x);
    }
  }

  /** Exchanging the first two of three rows negates the determinant; rotating them keeps it. */
  lemma Swap3(x: seq<int>, y: seq<int>, z: seq<int>)
    requires |x| == |y| == |z| == 3
    ensures Det3(Matrix([y, x, z])) == -Det3(Matrix([x, y, z]))
    ensures Det3(Matrix([y, z, x])) == Det3(Matrix([x, y, z]))
  {
  }

  /** The 2x2 determinant of a product `a * b` is the product of the determinants. */
  lemma Det2Multiplicative(a: Matrix, b: Matrix)
    requires Shaped(a, 2, 2) && Shaped(b, 2, 2)
    ensures Det2(MatMul(a, b, 2, 2, 2)) == Det2(a) * Det2(b)
  {
    MatMul2x2(a, b);
    Product2(a.rows[0][0], a.rows[0][1], a.rows[1][0], a.rows[1][1],
      b.rows[0][0], b.rows[0][1], b.rows[1][0], b.rows[1][1]);
  }

  /** The ring identity behind `Det2Multiplicative`, on plain integers. */
  lemma Product2(a00: int, a01: int, a10: int, a11: int, b00: int, b01: int, b10: int, b11: int)
    ensures (a00 * b00 + a01 * b10) * (a10 * b01 + a11 * b11) - (a00 * b01 + a01 * b11) * (a10 * b00 + a11 * b10)
         == (a00 * a11 - a01 * a10) * (b00 * b11 - b01 * b10)
  {
  }

  /** The test `det1x1`: `[[-3]]` has determinant -3. */
  lemma Det1Example()
    ensures Det1(Matrix([[-3]])) == -3
  {
  }

  /** The test `det2x2`: `[[5, -1], [8, 2]]` has determinant 18. */
  lemma Det2Example()
    ensures Det2(Matrix([[5, -1], [8, 2]])) == 18
  {
  }

  /** The test `det3x3`: `[[0, -1, 2], [3, 2, 1], [-2, -3, 4]]` has determinant 4. */
  lemma Det3Example()
    ensures Det3(Matrix([[0, -1, 2], [3, 2, 1], [-2, -3, 4]])) == 4
  {
  }
}
