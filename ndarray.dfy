/** A numpy array as a value: its shape and its entries in row-major order.
    Only the shapes matter for validation; once validated, a rank-1 array is
    read as a Vector and a rank-2 array as a Matrix. */
module NdArrays {
  import opened Linalg

  function Product(shape: seq<nat>): nat {
    if |shape| == 0 then 1 else shape[0] * Product(shape[1..])
  }

  datatype ArrayValue = ArrayValue(shape: seq<nat>, data: seq<real>)

  /** Every numpy array holds exactly as many entries as its shape says. */
  type NdArray = a: ArrayValue | |a.data| == Product(a.shape) witness ArrayValue([], [0.0])

  /** `len(a.shape)` */
  function Rank(a: NdArray): nat {
    |a.shape|
  }

  function AsVector(a: NdArray): (v: Vector)
    requires Rank(a) == 1
    ensures |v| == a.shape[0]
  {
    assert |a.data| == Product(a.shape) == a.shape[0] * Product(a.shape[1..]);
    assert a.shape[1..] == [];
    a.data
  }

  lemma RowInBounds(i: nat, rows: nat, cols: nat)
    requires i < rows
    ensures i * cols + cols <= rows * cols
  {
    assert i * cols + cols == (i + 1) * cols;
    assert (i + 1) * cols <= rows * cols by {
      if cols > 0 { assert i + 1 <= rows; }
    }
  }

  lemma MatrixSize(a: NdArray)
    requires Rank(a) == 2
    ensures |a.data| == a.shape[0] * a.shape[1]
  {
    var s := a.shape;
    assert s[1..][1..] == [];
    assert Product(s[1..]) == s[1];
  }

  /** The `cols` entries of `data` that start at `start`. */
  function Row(data: seq<real>, start: nat, cols: nat): (r: Vector)
    requires start + cols <= |data|
    ensures |r| == cols
  {
    data[start .. start + cols]
  }

  /** Row `i` of a rank-2 array is the slice `data[i*cols .. (i+1)*cols]`. */
  function AsMatrix(a: NdArray): (m: Matrix)
    requires Rank(a) == 2
    ensures IsMatrix(m, a.shape[0], a.shape[1])
  {
    var rows, cols := a.shape[0], a.shape[1];
    MatrixSize(a);
    seq(rows, i requires 0 <= i < rows =>
      RowInBounds(i, rows, cols);
      Row(a.data, i * cols, cols))
  }
}
