/** The weight solver `_weight`: from a per-state miss-probability vector
    `p` to the expected detection-discounted occupancy of every motion
    state, by the fundamental-matrix construction of an absorbing Markov
    chain.  With `T` the transpose of the transition matrix,
      L = diag(p) · T with its diagonal zeroed,   K = T − L,
      weight = L · (I − K)⁻¹ · start.
    The inverse is computed by the linear-algebra library, which is not part
    of this model: it is the function value `inverse`.  Evaluating the
    weight only needs it to return a square matrix of the right size
    (`InverseIsSquare`); `Solvable` is the condition that it returns a true
    two-sided inverse of `I − K`, the case in which the library does not
    raise and the weight means what it is meant to. */
module Weights {
  import opened Linalg

  /** numpy's `p.reshape((n, 1)) * m`: row `i` of `m` multiplied by `p[i]`. */
  function RowScale(p: Vector, m: Matrix): (r: Matrix)
    requires |m| == |p|
    ensures |r| == |m| && forall i :: 0 <= i < |m| ==> r[i] == Scale(p[i], m[i])
  {
    seq(|m|, i requires 0 <= i < |m| => Scale(p[i], m[i]))
  }

  /** `m[np.diag_indices(n)] = 0`, as a new value. */
  function ZeroDiagonal(m: Matrix, n: nat): (r: Matrix)
    requires IsMatrix(m, n, n)
    ensures IsMatrix(r, n, n)
    ensures forall i, j :: 0 <= i < n && 0 <= j < n ==> r[i][j] == if i == j then 0.0 else m[i][j]
  {
    seq(n, i requires 0 <= i < n => m[i][i := 0.0])
  }

  /** L: the part of each one-step transition on which the item is detected.
      Self-transitions never contribute. */
  function LMatrix(tr: Matrix, p: Vector): (l: Matrix)
    requires IsMatrix(tr, |p|, |p|)
    ensures IsMatrix(l, |p|, |p|)
    ensures forall i, j :: 0 <= i < |p| && 0 <= j < |p| && i != j ==> l[i][j] == p[i] * tr[j][i]
    ensures forall i :: 0 <= i < |p| ==> l[i][i] == 0.0
  {
    ZeroDiagonal(RowScale(p, Transpose(tr, |p|)), |p|)
  }

  /** K = Tᵀ − L: the part of each transition on which the item stays undetected. */
  function KMatrix(tr: Matrix, p: Vector): (k: Matrix)
    requires IsMatrix(tr, |p|, |p|)
    ensures IsMatrix(k, |p|, |p|)
    ensures forall i :: 0 <= i < |p| ==> k[i][i] == tr[i][i]
    ensures forall i, j :: 0 <= i < |p| && 0 <= j < |p| && i != j ==> k[i][j] == (1.0 - p[i]) * tr[j][i]
  {
    var n := |p|;
    MatSub(Transpose(tr, n), LMatrix(tr, p), n, n)
  }

  /** I − K, the matrix the library inverts. */
  function IMinusK(tr: Matrix, p: Vector): (a: Matrix)
    requires IsMatrix(tr, |p|, |p|)
    ensures IsMatrix(a, |p|, |p|)
  {
    MatSub(Identity(|p|), KMatrix(tr, p), |p|, |p|)
  }

  /** The library's inverse of I − K is a true inverse (I − K is not singular). */
  predicate Solvable(tr: Matrix, p: Vector, inverse: Matrix -> Matrix)
    requires IsMatrix(tr, |p|, |p|)
  {
    IsInverse(IMinusK(tr, p), inverse(IMinusK(tr, p)), |p|)
  }

  /** The library returns an n×n matrix for the n×n matrix I − K. */
  predicate InverseIsSquare(tr: Matrix, p: Vector, inverse: Matrix -> Matrix)
    requires IsMatrix(tr, |p|, |p|)
  {
    IsMatrix(inverse(IMinusK(tr, p)), |p|, |p|)
  }

  /** `L @ inv(I − K) @ start`, evaluated left to right as numpy does. */
  function Weight(start: Vector, tr: Matrix, inverse: Matrix -> Matrix, p: Vector): (w: Vector)
    requires |start| == |p| && IsMatrix(tr, |p|, |p|) && InverseIsSquare(tr, p, inverse)
    ensures |w| == |p|
  {
    MatVec(MatMul(LMatrix(tr, p), inverse(IMinusK(tr, p)), |p|), start)
  }

  /** The weight is `L · y` for every solution `y` of `(I − K) · y = start`. */
  lemma WeightSolvesSystem(start: Vector, tr: Matrix, inverse: Matrix -> Matrix, p: Vector, y: Vector)
    requires |start| == |p| && IsMatrix(tr, |p|, |p|) && Solvable(tr, p, inverse)
    requires |y| == |p| && MatVec(IMinusK(tr, p), y) == start
    ensures Weight(start, tr, inverse, p) == MatVec(LMatrix(tr, p), y)
  {
    var a, b, l := IMinusK(tr, p), inverse(IMinusK(tr, p)), LMatrix(tr, p);
    MatVecAssoc(l, b, start);
    MatVecAssoc(b, a, y);
    MatVecIdentity(y);
  }

  /** ... and such a solution exists: `inverse(I − K) · start`. */
  lemma SystemHasSolution(start: Vector, tr: Matrix, inverse: Matrix -> Matrix, p: Vector)
    requires |start| == |p| && IsMatrix(tr, |p|, |p|) && Solvable(tr, p, inverse)
    ensures var y := MatVec(inverse(IMinusK(tr, p)), start);
      |y| == |p| && MatVec(IMinusK(tr, p), y) == start
  {
    var a, b := IMinusK(tr, p), inverse(IMinusK(tr, p));
    MatVecAssoc(a, b, start);
    MatVecIdentity(start);
  }

  /** With every miss probability zero, or with a single motion state, L is
      the zero matrix, so the weight is the zero vector whatever square
      matrix the library returns. */
  lemma ZeroDetectionWeight(start: Vector, tr: Matrix, inverse: Matrix -> Matrix, p: Vector)
    requires |start| == |p| && IsMatrix(tr, |p|, |p|) && InverseIsSquare(tr, p, inverse)
    requires (forall i :: 0 <= i < |p| ==> p[i] == 0.0) || |p| == 1
    ensures Weight(start, tr, inverse, p) == Zeros(|p|)
  {
    var n, l, b := |p|, LMatrix(tr, p), inverse(IMinusK(tr, p));
    var lb := MatMul(l, b, n);
    forall i, j | 0 <= i < n && 0 <= j < n ensures lb[i][j] == 0.0 {
      DotZeros(Column(b, j), l[i]);
    }
    MatVecZero(lb, start);
  }

  /** Every row of the transition matrix sums to one. */
  predicate RowStochastic(tr: Matrix, n: nat) {
    IsMatrix(tr, n, n) && forall i :: 0 <= i < n ==> Sum(tr[i]) == 1.0
  }

  /** For a row-stochastic transition matrix, I − K and L have the same
      column sums: what is not kept undetected is detected. */
  lemma ColumnSumsAgree(tr: Matrix, p: Vector)
    requires RowStochastic(tr, |p|)
    ensures VecMat(Ones(|p|), IMinusK(tr, p), |p|) == VecMat(Ones(|p|), LMatrix(tr, p), |p|)
  {
    var n, a, l := |p|, IMinusK(tr, p), LMatrix(tr, p);
    var ones := Ones(n);
    forall j | 0 <= j < n ensures VecMat(ones, a, n)[j] == VecMat(ones, l, n)[j] {
      ColumnSum(tr, p, j);
    }
  }

  /** Column `j` of I − K is the unit vector, minus row `j` of the
      transition matrix, plus column `j` of L. */
  lemma ColumnOfIMinusK(tr: Matrix, p: Vector, j: nat)
    requires IsMatrix(tr, |p|, |p|) && j < |p|
    ensures Column(IMinusK(tr, p), j) == VecAdd(VecSub(Unit(|p|, j), tr[j]), Column(LMatrix(tr, p), j))
  {
  }

  lemma ColumnSum(tr: Matrix, p: Vector, j: nat)
    requires RowStochastic(tr, |p|) && j < |p|
    ensures Dot(Ones(|p|), Column(IMinusK(tr, p), j)) == Dot(Ones(|p|), Column(LMatrix(tr, p), j))
  {
    var n, ones := |p|, Ones(|p|);
    var lower, col := VecSub(Unit(n, j), tr[j]), Column(LMatrix(tr, p), j);
    ColumnOfIMinusK(tr, p, j);
    assert Dot(ones, VecAdd(lower, col)) == Dot(ones, lower) + Dot(ones, col) by {
      DotAdd(ones, lower, col);
    }
    assert Dot(ones, lower) == 0.0 by {
      DotSub(ones, Unit(n, j), tr[j]);
      DotUnit(ones, j);
      SumIsDotOnes(tr[j]);
    }
  }

  /** Hence `(I − K) · y` and `L · y` carry the same total mass, for every `y`. */
  lemma MassBalance(tr: Matrix, p: Vector, y: Vector)
    requires RowStochastic(tr, |p|) && |y| == |p|
    ensures Sum(MatVec(IMinusK(tr, p), y)) == Sum(MatVec(LMatrix(tr, p), y))
  {
    var a, l := IMinusK(tr, p), LMatrix(tr, p);
    SumIsDotOnes(MatVec(a, y));
    SumIsDotOnes(MatVec(l, y));
    DotVecMat(Ones(|p|), a, y);
    DotVecMat(Ones(|p|), l, y);
    ColumnSumsAgree(tr, p);
  }

  /** With a row-stochastic transition matrix the weights sum to the start
      distribution's mass: the item is eventually detected in some state. */
  lemma WeightConservesMass(start: Vector, tr: Matrix, inverse: Matrix -> Matrix, p: Vector)
    requires |start| == |p| && RowStochastic(tr, |p|) && Solvable(tr, p, inverse)
    ensures Sum(Weight(start, tr, inverse, p)) == Sum(start)
  {
    var y := MatVec(inverse(IMinusK(tr, p)), start);
    SystemHasSolution(start, tr, inverse, p);
    WeightSolvesSystem(start, tr, inverse, p, y);
    MassBalance(tr, p, y);
  }

  /** With a row-stochastic transition matrix, at least one state, and L
      zero (all miss probabilities zero, or a single state), I − K is
      singular: in exact arithmetic no inverse exists, so no weight is
      defined. */
  lemma NeverDetectedIsSingular(tr: Matrix, p: Vector, b: Matrix)
    requires RowStochastic(tr, |p|) && |p| >= 1
    requires (forall i :: 0 <= i < |p| ==> p[i] == 0.0) || |p| == 1
    ensures !IsInverse(IMinusK(tr, p), b, |p|)
  {
    var n, a := |p|, IMinusK(tr, p);
    if IsInverse(a, b, n) {
      RightInverseApplied(a, b, Ones(n));
      OnesUnreachable(tr, p, MatVec(b, Ones(n)));
    }
  }

  /** ... because no `y` has `(I − K) · y` equal to the all-ones vector:
      its mass would be both n and, by the mass balance, zero. */
  lemma OnesUnreachable(tr: Matrix, p: Vector, y: Vector)
    requires RowStochastic(tr, |p|) && |p| >= 1 && |y| == |p|
    requires (forall i :: 0 <= i < |p| ==> p[i] == 0.0) || |p| == 1
    ensures MatVec(IMinusK(tr, p), y) != Ones(|p|)
  {
    if MatVec(IMinusK(tr, p), y) == Ones(|p|) {
      SumOnes(|p|);
      MassBalance(tr, p, y);
      NoDetectionKernel(tr, p, y);
    }
  }

  /** With L zero, `L · y` carries no mass. */
  lemma NoDetectionKernel(tr: Matrix, p: Vector, y: Vector)
    requires IsMatrix(tr, |p|, |p|) && |y| == |p|
    requires (forall i :: 0 <= i < |p| ==> p[i] == 0.0) || |p| == 1
    ensures Sum(MatVec(LMatrix(tr, p), y)) == 0.0
  {
    MatVecZero(LMatrix(tr, p), y);
    SumZeros(Zeros(|p|));
  }
}
