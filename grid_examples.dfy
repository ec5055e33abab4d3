/**
 * The in-place tests of src/matrix/ops.rs (`scale_mut`, `mat1 += mat2`,
 * `mat1 -= mat2`) and the `Mul` test, replayed as client code against the
 * contracts of the grid methods and of `Ops.Mul`.
 */
module GridExamples {
  import opened Matrices
  import opened Ops
  import opened Grids
  import opened OpsExamples

  method ScaleMutTest() {
    Shapes();
    var g := new Grid(A.rows, 4, 3);
    g.ScaleMut(5);
    ScaleExample();
    assert g.Value() == ScaleResult;
  }

  method AddAssignTest() {
    Shapes();
    var g := new Grid(A.rows, 4, 3);
    g.AddAssign(B);
    AddExample();
    assert g.Value() == AddResult;
  }

  method SubAssignTest() {
    Shapes();
    var g := new Grid(A.rows, 4, 3);
    g.SubAssign(B);
    SubExample();
    assert g.Value() == SubResult;
  }

  method MulTest() {
    Shapes();
    var r := Mul(A, Rhs, 4, 3, 2);
    MulExample();
    assert r == MulResult;
  }
}
