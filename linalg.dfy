/** Vectors and matrices over the reals, with the few identities the
    absorbing-chain weight computation needs: linearity of the dot product,
    the swap of a double sum (row vector times matrix-vector product) and
    associativity of matrix products applied to a vector. */
module Linalg {

  type Vector = seq<real>
  type Matrix = seq<seq<real>>

  /** `m` has `rows` rows of `cols` entries each. */
  predicate IsMatrix(m: Matrix, rows: nat, cols: nat) {
    |m| == rows && forall i :: 0 <= i < rows ==> |m[i]| == cols
  }

  function Zeros(n: nat): (z: Vector)
    ensures |z| == n && forall i :: 0 <= i < n ==> z[i] == 0.0
  {
    seq(n, _ => 0.0)
  }

  function Ones(n: nat): (o: Vector)
    ensures |o| == n && forall i :: 0 <= i < n ==> o[i] == 1.0
  {
    seq(n, _ => 1.0)
  }

  /** The `k`-th standard basis vector of length `n` (all zeros when k >= n). */
  function Unit(n: nat, k: nat): (e: Vector)
    ensures |e| == n && forall i :: 0 <= i < n ==> e[i] == if i == k then 1.0 else 0.0
  {
    seq(n, i => if i == k then 1.0 else 0.0)
  }

  function VecAdd(a: Vector, b: Vector): (c: Vector)
    requires |a| == |b|
    ensures |c| == |a| && forall i :: 0 <= i < |c| ==> c[i] == a[i] + b[i]
  {
    seq(|a|, i requires 0 <= i < |a| => a[i] + b[i])
  }

  function VecSub(a: Vector, b: Vector): (c: Vector)
    requires |a| == |b|
    ensures |c| == |a| && forall i :: 0 <= i < |c| ==> c[i] == a[i] - b[i]
  {
    seq(|a|, i requires 0 <= i < |a| => a[i] - b[i])
  }

  function Scale(k: real, v: Vector): (c: Vector)
    ensures |c| == |v| && forall i :: 0 <= i < |c| ==> c[i] == k * v[i]
  {
    seq(|v|, i requires 0 <= i < |v| => k * v[i])
  }

  /** Element-wise division of a vector by a scalar (numpy's `v / k`). */
  function Div(v: Vector, k: real): (c: Vector)
    requires k != 0.0
    ensures |c| == |v| && forall i :: 0 <= i < |c| ==> c[i] == v[i] / k
  {
    seq(|v|, i requires 0 <= i < |v| => v[i] / k)
  }

  /** The entry-wise product of two vectors. */
  function Mul(a: Vector, b: Vector): (c: Vector)
    requires |a| == |b|
    ensures |c| == |a| && forall i :: 0 <= i < |c| ==> c[i] == a[i] * b[i]
  {
    seq(|a|, i requires 0 <= i < |a| => a[i] * b[i])
  }

  function Sum(v: Vector): real {
    if |v| == 0 then 0.0 else Sum(v[..|v| - 1]) + v[|v| - 1]
  }

  function Dot(a: Vector, b: Vector): real
    requires |a| == |b|
  {
    Sum(Mul(a, b))
  }

  /** Column `j` of `m`. */
  function Column(m: Matrix, j: nat): (c: Vector)
    requires forall i :: 0 <= i < |m| ==> j < |m[i]|
    ensures |c| == |m| && forall i :: 0 <= i < |m| ==> c[i] == m[i][j]
  {
    seq(|m|, i requires 0 <= i < |m| => m[i][j])
  }

  function Transpose(m: Matrix, cols: nat): (t: Matrix)
    requires IsMatrix(m, |m|, cols)
    ensures IsMatrix(t, cols, |m|)
    ensures forall i, j :: 0 <= i < cols && 0 <= j < |m| ==> t[i][j] == m[j][i]
  {
    seq(cols, j requires 0 <= j < cols => Column(m, j))
  }

  function Identity(n: nat): (id: Matrix)
    ensures IsMatrix(id, n, n)
    ensures forall i, j :: 0 <= i < n && 0 <= j < n ==> id[i][j] == if i == j then 1.0 else 0.0
  {
    seq(n, i requires 0 <= i < n => Unit(n, i))
  }

  function MatSub(a: Matrix, b: Matrix, rows: nat, cols: nat): (c: Matrix)
    requires IsMatrix(a, rows, cols) && IsMatrix(b, rows, cols)
    ensures IsMatrix(c, rows, cols)
    ensures forall i, j :: 0 <= i < rows && 0 <= j < cols ==> c[i][j] == a[i][j] - b[i][j]
  {
    seq(rows, i requires 0 <= i < rows => VecSub(a[i], b[i]))
  }

  /** The matrix-vector product `m · v`. */
  function MatVec(m: Matrix, v: Vector): (r: Vector)
    requires forall i :: 0 <= i < |m| ==> |m[i]| == |v|
    ensures |r| == |m| && forall i :: 0 <= i < |m| ==> r[i] == Dot(m[i], v)
  {
    seq(|m|, i requires 0 <= i < |m| => Dot(m[i], v))
  }

  /** The row-vector-matrix product `aᵀ · m`: entry `j` is the dot
      product of `a` with column `j` of `m`. */
  function VecMat(a: Vector, m: Matrix, cols: nat): (r: Vector)
    requires IsMatrix(m, |a|, cols)
    ensures |r| == cols && forall j :: 0 <= j < cols ==> r[j] == Dot(a, Column(m, j))
  {
    seq(cols, j requires 0 <= j < cols => Dot(a, Column(m, j)))
  }

  /** The sums of the rows of `m`. */
  function RowSums(m: Matrix): (r: Vector)
    ensures |r| == |m| && forall i :: 0 <= i < |m| ==> r[i] == Sum(m[i])
  {
    seq(|m|, i requires 0 <= i < |m| => Sum(m[i]))
  }

  /** The sums of the columns of `m`. */
  function ColumnSums(m: Matrix, cols: nat): (r: Vector)
    requires IsMatrix(m, |m|, cols)
    ensures |r| == cols && forall j :: 0 <= j < cols ==> r[j] == Sum(Column(m, j))
  {
    seq(cols, j requires 0 <= j < cols => Sum(Column(m, j)))
  }

  /** The matrix product `a · b`, row by row. */
  function MatMul(a: Matrix, b: Matrix, cols: nat): (c: Matrix)
    requires forall i :: 0 <= i < |a| ==> |a[i]| == |b|
    requires IsMatrix(b, |b|, cols)
    ensures IsMatrix(c, |a|, cols)
  {
    seq(|a|, i requires 0 <= i < |a| => VecMat(a[i], b, cols))
  }

  /** `b` is a two-sided inverse of the n×n matrix `a`. */
  predicate IsInverse(a: Matrix, b: Matrix, n: nat) {
    IsMatrix(a, n, n) && IsMatrix(b, n, n) &&
    MatMul(a, b, n) == Identity(n) && MatMul(b, a, n) == Identity(n)
  }

  // Sums

  lemma {:induction false} SumAdd(a: Vector, b: Vector)
    requires |a| == |b|
    ensures Sum(VecAdd(a, b)) == Sum(a) + Sum(b)
  {
    if |a| > 0 {
      var n := |a| - 1;
      assert VecAdd(a, b)[..n] == VecAdd(a[..n], b[..n]);
      SumAdd(a[..n], b[..n]);
    }
  }

  lemma {:induction false} SumSub(a: Vector, b: Vector)
    requires |a| == |b|
    ensures Sum(VecSub(a, b)) == Sum(a) - Sum(b)
  {
    if |a| > 0 {
      var n := |a| - 1;
      assert VecSub(a, b)[..n] == VecSub(a[..n], b[..n]);
      SumSub(a[..n], b[..n]);
    }
  }

  lemma {:induction false} SumScale(k: real, v: Vector)
    ensures Sum(Scale(k, v)) == k * Sum(v)
  {
    if |v| > 0 {
      var n := |v| - 1;
      assert Scale(k, v)[..n] == Scale(k, v[..n]) by {
        forall i | 0 <= i < n ensures Scale(k, v)[..n][i] == Scale(k, v[..n])[i] {
          assert v[..n][i] == v[i];
        }
      }
      SumScale(k, v[..n]);
    }
  }

  lemma {:induction false} SumDiv(v: Vector, k: real)
    requires k != 0.0
    ensures Sum(Div(v, k)) == Sum(v) / k
  {
    if |v| > 0 {
      var n := |v| - 1;
      assert Div(v, k)[..n] == Div(v[..n], k) by {
        forall i | 0 <= i < n ensures Div(v, k)[..n][i] == Div(v[..n], k)[i] {
          assert v[..n][i] == v[i];
        }
      }
      SumDiv(v[..n], k);
    }
  }

  /** A vector of zeros sums to zero. */
  lemma {:induction false} SumZeros(z: Vector)
    requires forall i :: 0 <= i < |z| ==> z[i] == 0.0
    ensures Sum(z) == 0.0
  {
    if |z| > 0 {
      SumZeros(z[..|z| - 1]);
    }
  }

  /** A vector that is zero except at `k` sums to its entry at `k`. */
  lemma {:induction false} SumPick(v: Vector, k: nat)
    requires k < |v| && forall i :: 0 <= i < |v| && i != k ==> v[i] == 0.0
    ensures Sum(v) == v[k]
  {
    var n := |v| - 1;
    if k == n {
      SumZeros(v[..n]);
    } else {
      SumPick(v[..n], k);
    }
  }

  lemma {:induction false} SumOnes(n: nat)
    ensures Sum(Ones(n)) == n as real
  {
    if n > 0 {
      assert Ones(n)[..n - 1] == Ones(n - 1);
      SumOnes(n - 1);
    }
  }

  /** Swapping the order of a double sum: adding up the row sums of a
      matrix gives the same total as adding up its column sums. */
  lemma {:induction false} SumExchange(m: Matrix, cols: nat)
    requires IsMatrix(m, |m|, cols)
    ensures Sum(RowSums(m)) == Sum(ColumnSums(m, cols))
  {
    if |m| > 0 {
      var n := |m| - 1;
      var rest := ColumnSums(m[..n], cols);
      assert RowSums(m)[..n] == RowSums(m[..n]);
      assert ColumnSums(m, cols) == VecAdd(rest, m[n]) by {
        forall j | 0 <= j < cols ensures ColumnSums(m, cols)[j] == VecAdd(rest, m[n])[j] {
          assert Column(m, j)[..n] == Column(m[..n], j);
        }
      }
      SumExchange(m[..n], cols);
      SumAdd(rest, m[n]);
    } else {
      SumZeros(ColumnSums(m, cols));
    }
  }

  // Dot products

  lemma DotComm(a: Vector, b: Vector)
    requires |a| == |b|
    ensures Dot(a, b) == Dot(b, a)
  {
    assert Mul(a, b) == Mul(b, a);
  }

  lemma DotAdd(a: Vector, b: Vector, c: Vector)
    requires |a| == |b| == |c|
    ensures Dot(a, VecAdd(b, c)) == Dot(a, b) + Dot(a, c)
  {
    forall i | 0 <= i < |a| ensures Mul(a, VecAdd(b, c))[i] == VecAdd(Mul(a, b), Mul(a, c))[i] {
    }
    assert Mul(a, VecAdd(b, c)) == VecAdd(Mul(a, b), Mul(a, c));
    SumAdd(Mul(a, b), Mul(a, c));
  }

  lemma DotSub(a: Vector, b: Vector, c: Vector)
    requires |a| == |b| == |c|
    ensures Dot(a, VecSub(b, c)) == Dot(a, b) - Dot(a, c)
  {
    forall i | 0 <= i < |a| ensures Mul(a, VecSub(b, c))[i] == VecSub(Mul(a, b), Mul(a, c))[i] {
    }
    assert Mul(a, VecSub(b, c)) == VecSub(Mul(a, b), Mul(a, c));
    SumSub(Mul(a, b), Mul(a, c));
  }

  lemma DotDiv(v: Vector, k: real, b: Vector)
    requires |v| == |b| && k != 0.0
    ensures Dot(Div(v, k), b) == Dot(v, b) / k
  {
    forall i | 0 <= i < |v| ensures Mul(Div(v, k), b)[i] == Div(Mul(v, b), k)[i] {
    }
    assert Mul(Div(v, k), b) == Div(Mul(v, b), k);
    SumDiv(Mul(v, b), k);
  }

  lemma DotZeros(a: Vector, z: Vector)
    requires |a| == |z| && forall i :: 0 <= i < |z| ==> z[i] == 0.0
    ensures Dot(a, z) == 0.0 && Dot(z, a) == 0.0
  {
    SumZeros(Mul(a, z));
    SumZeros(Mul(z, a));
  }

  /** The dot product with a standard basis vector picks one entry. */
  lemma DotUnit(v: Vector, k: nat)
    requires k < |v|
    ensures Dot(v, Unit(|v|, k)) == v[k]
  {
    SumPick(Mul(v, Unit(|v|, k)), k);
  }

  /** Summing a vector is taking its dot product with the all-ones vector. */
  lemma SumIsDotOnes(v: Vector)
    ensures Sum(v) == Dot(Ones(|v|), v)
  {
    assert Mul(Ones(|v|), v) == v;
  }

  /** The last step of a dot product. */
  lemma DotLast(a: Vector, b: Vector)
    requires |a| == |b| > 0
    ensures Dot(a, b) == Dot(a[..|a| - 1], b[..|b| - 1]) + a[|a| - 1] * b[|b| - 1]
  {
    var n := |a| - 1;
    assert Mul(a, b)[..n] == Mul(a[..n], b[..n]) by {
      forall i | 0 <= i < n ensures Mul(a, b)[..n][i] == Mul(a[..n], b[..n])[i] {
        assert a[..n][i] == a[i] && b[..n][i] == b[i];
      }
    }
  }

  // Products with matrices

  /** The matrix of terms a[i] · m[i][j] · v[j] of the double sum aᵀ · m · v. */
  function Terms(a: Vector, m: Matrix, v: Vector): (t: Matrix)
    requires IsMatrix(m, |a|, |v|)
    ensures IsMatrix(t, |a|, |v|)
    ensures forall i :: 0 <= i < |a| ==> t[i] == Scale(a[i], Mul(m[i], v))
  {
    seq(|a|, i requires 0 <= i < |a| => Scale(a[i], Mul(m[i], v)))
  }

  lemma RowSumsOfTerms(a: Vector, m: Matrix, v: Vector)
    requires IsMatrix(m, |a|, |v|)
    ensures RowSums(Terms(a, m, v)) == Mul(a, MatVec(m, v))
  {
    var t := Terms(a, m, v);
    forall i | 0 <= i < |a| ensures RowSums(t)[i] == Mul(a, MatVec(m, v))[i] {
      SumScale(a[i], Mul(m[i], v));
    }
  }

  lemma ColumnSumsOfTerms(a: Vector, m: Matrix, v: Vector)
    requires IsMatrix(m, |a|, |v|)
    ensures ColumnSums(Terms(a, m, v), |v|) == Mul(VecMat(a, m, |v|), v)
  {
    var t := Terms(a, m, v);
    forall j | 0 <= j < |v| ensures ColumnSums(t, |v|)[j] == Mul(VecMat(a, m, |v|), v)[j] {
      ColumnOfTerms(a, m, v, j);
      SumScale(v[j], Mul(a, Column(m, j)));
    }
  }

  lemma ColumnOfTerms(a: Vector, m: Matrix, v: Vector, j: nat)
    requires IsMatrix(m, |a|, |v|) && j < |v|
    ensures Column(Terms(a, m, v), j) == Scale(v[j], Mul(a, Column(m, j)))
  {
    var t := Terms(a, m, v);
    forall i | 0 <= i < |a| ensures Column(t, j)[i] == Scale(v[j], Mul(a, Column(m, j)))[i] {
      assert t[i][j] == a[i] * (m[i][j] * v[j]);
    }
  }

  /** (aᵀ · m) · v == aᵀ · (m · v). */
  lemma DotVecMat(a: Vector, m: Matrix, v: Vector)
    requires IsMatrix(m, |a|, |v|)
    ensures Dot(VecMat(a, m, |v|), v) == Dot(a, MatVec(m, v))
  {
    RowSumsOfTerms(a, m, v);
    ColumnSumsOfTerms(a, m, v);
    SumExchange(Terms(a, m, v), |v|);
  }

  /** `aᵀ · m` over no rows is the zero vector. */
  lemma VecMatEmpty(a: Vector, m: Matrix, cols: nat)
    requires IsMatrix(m, |a|, cols) && |a| == 0
    ensures VecMat(a, m, cols) == Zeros(cols)
  {
  }

  /** Adding one more row to `aᵀ · m` adds that row, scaled by its coefficient. */
  lemma VecMatLast(a: Vector, m: Matrix, cols: nat)
    requires IsMatrix(m, |a|, cols) && |a| > 0
    ensures var n := |a| - 1;
      VecMat(a, m, cols) == VecAdd(VecMat(a[..n], m[..n], cols), Scale(a[n], m[n]))
  {
    var n := |a| - 1;
    var r := VecAdd(VecMat(a[..n], m[..n], cols), Scale(a[n], m[n]));
    forall j | 0 <= j < cols ensures VecMat(a, m, cols)[j] == r[j] {
      assert Column(m, j)[..n] == Column(m[..n], j);
      DotLast(a, Column(m, j));
    }
  }

  /** (a · b) · v == a · (b · v). */
  lemma MatVecAssoc(a: Matrix, b: Matrix, v: Vector)
    requires forall i :: 0 <= i < |a| ==> |a[i]| == |b|
    requires IsMatrix(b, |b|, |v|)
    ensures MatVec(MatMul(a, b, |v|), v) == MatVec(a, MatVec(b, v))
  {
    forall i | 0 <= i < |a|
      ensures MatVec(MatMul(a, b, |v|), v)[i] == MatVec(a, MatVec(b, v))[i]
    {
      DotVecMat(a[i], b, v);
    }
  }

  /** Applying `b` and then its inverse `a` gives back the vector. */
  lemma RightInverseApplied(a: Matrix, b: Matrix, v: Vector)
    requires IsInverse(a, b, |v|)
    ensures MatVec(a, MatVec(b, v)) == v
  {
    MatVecAssoc(a, b, v);
    MatVecIdentity(v);
  }

  lemma MatVecIdentity(v: Vector)
    ensures MatVec(Identity(|v|), v) == v
  {
    forall i | 0 <= i < |v| ensures MatVec(Identity(|v|), v)[i] == v[i] {
      DotComm(Unit(|v|, i), v);
      DotUnit(v, i);
    }
  }

  /** A matrix of zeros sends every vector to the zero vector. */
  lemma MatVecZero(m: Matrix, v: Vector)
    requires IsMatrix(m, |m|, |v|)
    requires forall i, j :: 0 <= i < |m| && 0 <= j < |v| ==> m[i][j] == 0.0
    ensures MatVec(m, v) == Zeros(|m|)
  {
    forall i | 0 <= i < |m| ensures MatVec(m, v)[i] == 0.0 {
      DotZeros(v, m[i]);
    }
  }
}
