/**
 * The test vectors of src/matrix/ops.rs, proved of the operator model. Each
 * 4x3 vector is proved row by row, one lemma per row, to keep every proof small.
 */
module OpsExamples {
  import opened Matrices
  import opened Ops

  const A := Matrix([[8, 6, -1], [0, 7, 2], [4, 4, 5], [-3, -5, 3]])
  const B := Matrix([[1, 0, 5], [3, 2, -1], [3, -2, 7], [2, 0, 8]])
  const Rhs := Matrix([[3, -1], [2, -3], [-2, 1]])

  lemma Shapes()
    ensures Shaped(A, 4, 3) && Shaped(B, 4, 3) && Shaped(Rhs, 3, 2)
  {
    assert |A.rows[0]| == 3;
  }

  const AddResult := Matrix([[9, 6, 4], [3, 9, 1], [7, 2, 12], [-1, -5, 11]])

  lemma AddExampleRow0()
    ensures Add(A, B, 4, 3).rows[0] == AddResult.rows[0]
  {
    Shapes();
  }

  lemma AddExampleRow1()
    ensures Add(A, B, 4, 3).rows[1] == AddResult.rows[1]
  {
    Shapes();
  }

  lemma AddExampleRow2()
    ensures Add(A, B, 4, 3).rows[2] == AddResult.rows[2]
  {
    Shapes();
  }

  lemma AddExampleRow3()
    ensures Add(A, B, 4, 3).rows[3] == AddResult.rows[3]
  {
    Shapes();
  }

  /** The sum test of src/matrix/ops.rs. */
  lemma AddExample()
    ensures Add(A, B, 4, 3) == AddResult
  {
    Shapes();
    AddExampleRow0(); AddExampleRow1(); AddExampleRow2(); AddExampleRow3();
    assert Add(A, B, 4, 3).rows == AddResult.rows;
  }

  const SubResult := Matrix([[7, 6, -6], [-3, 5, 3], [1, 6, -2], [-5, -5, -5]])

  lemma SubExampleRow0()
    ensures Sub(A, B, 4, 3).rows[0] == SubResult.rows[0]
  {
    Shapes();
  }

  lemma SubExampleRow1()
    ensures Sub(A, B, 4, 3).rows[1] == SubResult.rows[1]
  {
    Shapes();
  }

  lemma SubExampleRow2()
    ensures Sub(A, B, 4, 3).rows[2] == SubResult.rows[2]
  {
    Shapes();
  }

  lemma SubExampleRow3()
    ensures Sub(A, B, 4, 3).rows[3] == SubResult.rows[3]
  {
    Shapes();
  }

  /** The difference test of src/matrix/ops.rs. */
  lemma SubExample()
    ensures Sub(A, B, 4, 3) == SubResult
  {
    Shapes();
    SubExampleRow0(); SubExampleRow1(); SubExampleRow2(); SubExampleRow3();
    assert Sub(A, B, 4, 3).rows == SubResult.rows;
  }

  const NegResult := Matrix([[-1, 0, -5], [-3, -2, 1], [-3, 2, -7], [-2, 0, -8]])

  lemma NegExampleRow0()
    ensures Neg(B, 4, 3).rows[0] == NegResult.rows[0]
  {
    Shapes();
  }

  lemma NegExampleRow1()
    ensures Neg(B, 4, 3).rows[1] == NegResult.rows[1]
  {
    Shapes();
  }

  lemma NegExampleRow2()
    ensures Neg(B, 4, 3).rows[2] == NegResult.rows[2]
  {
    Shapes();
  }

  lemma NegExampleRow3()
    ensures Neg(B, 4, 3).rows[3] == NegResult.rows[3]
  {
    Shapes();
  }

  /** The negation test of src/matrix/ops.rs. */
  lemma NegExample()
    ensures Neg(B, 4, 3) == NegResult
  {
    Shapes();
    NegExampleRow0(); NegExampleRow1(); NegExampleRow2(); NegExampleRow3();
    assert Neg(B, 4, 3).rows == NegResult.rows;
  }

  const ScaleResult := Matrix([[40, 30, -5], [0, 35, 10], [20, 20, 25], [-15, -25, 15]])

  lemma ScaleExampleRow0()
    ensures Scale(A, 4, 3, 5).rows[0] == ScaleResult.rows[0]
  {
    Shapes();
  }

  lemma ScaleExampleRow1()
    ensures Scale(A, 4, 3, 5).rows[1] == ScaleResult.rows[1]
  {
    Shapes();
  }

  lemma ScaleExampleRow2()
    ensures Scale(A, 4, 3, 5).rows[2] == ScaleResult.rows[2]
  {
    Shapes();
  }

  lemma ScaleExampleRow3()
    ensures Scale(A, 4, 3, 5).rows[3] == ScaleResult.rows[3]
  {
    Shapes();
  }

  /** The scaling by 5 test of src/matrix/ops.rs. */
  lemma ScaleExample()
    ensures Scale(A, 4, 3, 5) == ScaleResult
  {
    Shapes();
    ScaleExampleRow0(); ScaleExampleRow1(); ScaleExampleRow2(); ScaleExampleRow3();
    assert Scale(A, 4, 3, 5).rows == ScaleResult.rows;
  }

  const MulResult := Matrix([[38, -27], [10, -19], [10, -11], [-25, 21]])

  lemma MulExampleRow0()
    ensures MatMul(A, Rhs, 4, 3, 2).rows[0] == MulResult.rows[0]
  {
    Shapes();
  }

  lemma MulExampleRow1()
    ensures MatMul(A, Rhs, 4, 3, 2).rows[1] == MulResult.rows[1]
  {
    Shapes();
  }

  lemma MulExampleRow2()
    ensures MatMul(A, Rhs, 4, 3, 2).rows[2] == MulResult.rows[2]
  {
    Shapes();
  }

  lemma MulExampleRow3()
    ensures MatMul(A, Rhs, 4, 3, 2).rows[3] == MulResult.rows[3]
  {
    Shapes();
  }

  /** The product test of src/matrix/ops.rs. */
  lemma MulExample()
    ensures MatMul(A, Rhs, 4, 3, 2) == MulResult
  {
    Shapes();
    MulExampleRow0(); MulExampleRow1(); MulExampleRow2(); MulExampleRow3();
    assert MatMul(A, Rhs, 4, 3, 2).rows == MulResult.rows;
  }

  const Square := Matrix([[1, 3], [2, -1]])

  /** One step of the fold in `pow`, for a 2x2 matrix `a`: if `pow(e)` is `p`, `pow(e + 1)` is `p * a`. */
  lemma PowStep2x2(a: Matrix, e: nat, p: Matrix, q: Matrix)
    requires Shaped(a, 2, 2) && Shaped(p, 2, 2) && Pow(a, 2, e) == p
    requires q == Matrix([
      [p.rows[0][0] * a.rows[0][0] + p.rows[0][1] * a.rows[1][0], p.rows[0][0] * a.rows[0][1] + p.rows[0][1] * a.rows[1][1]],
      [p.rows[1][0] * a.rows[0][0] + p.rows[1][1] * a.rows[1][0], p.rows[1][0] * a.rows[0][1] + p.rows[1][1] * a.rows[1][1]]])
    ensures Pow(a, 2, e + 1) == q
  {
    MatMul2x2(p, a);
  }

  const Square1 := Matrix([[7, 0], [0, 7]])
  const Square2 := Matrix([[7, 21], [14, -7]])

  lemma PowExample1()
    ensures Pow(Square, 2, 1) == Square1
  {
    assert Shaped(Square, 2, 2);
    PowStep2x2(Square, 0, Square, Square1);
  }

  lemma PowExample2()
    ensures Pow(Square, 2, 2) == Square2
  {
    assert Shaped(Square, 2, 2) && Shaped(Square1, 2, 2);
    PowExample1();
    PowStep2x2(Square, 1, Square1, Square2);
  }

  /** The pow test of src/matrix/ops.rs: `pow(3)` of [[1, 3], [2, -1]] is 49 times the identity. */
  lemma PowExample()
    ensures Pow(Square, 2, 3) == Matrix([[49, 0], [0, 49]])
  {
    assert Shaped(Square, 2, 2) && Shaped(Square2, 2, 2);
    PowExample2();
    PowStep2x2(Square, 2, Square2, Matrix([[49, 0], [0, 49]]));
  }

  /**
   * The test's expected value is the fourth power, and `pow(0)` is the matrix
   * itself where the intended zeroth power is the identity.
   */
  lemma PowIsOffByOne()
    ensures Pow(Square, 2, 3) == Power(Square, 2, 4)
    ensures Pow(Square, 2, 0) != Power(Square, 2, 0)
  {
    assert Shaped(Square, 2, 2);
    PowIsNextPower(Square, 2, 3);
    assert Power(Square, 2, 0).rows[0][1] == Zero != 3;
  }
}
