/** The miss-probability ensemble as values: `M` sample vectors (the rows
    of a matrix) with one density each.  `Expectation` is the
    importance-weighted Monte Carlo estimate that `_expectation` computes,
    and `Reweighted` is the density update that `update` performs. */
module Ensembles {
  import opened Linalg

  /** (Σ_i dens[i] · vals[i]) / M, for an ensemble of M ≥ 1 samples whose
      values are the rows of `vals`. */
  function Expectation(dens: Vector, vals: Matrix, dim: nat): (e: Vector)
    requires |dens| >= 1 && IsMatrix(vals, |dens|, dim)
    ensures |e| == dim
  {
    Div(VecMat(dens, vals, dim), |dens| as real)
  }

  /** With every density 1 the density-weighted sum is the plain sum of
      the sample values. */
  lemma UnitDensitiesSum(dens: Vector, vals: Matrix, dim: nat)
    requires IsMatrix(vals, |dens|, dim)
    requires forall i :: 0 <= i < |dens| ==> dens[i] == 1.0
    ensures VecMat(dens, vals, dim) == ColumnSums(vals, dim)
  {
    assert dens == Ones(|dens|);
    forall k | 0 <= k < dim ensures VecMat(dens, vals, dim)[k] == ColumnSums(vals, dim)[k] {
      SumIsDotOnes(Column(vals, k));
    }
  }

  /** With every density 1 the expectation is the arithmetic mean of the
      sample values: M times it gives back their plain sum. */
  lemma ExpectationOfUnitDensities(dens: Vector, vals: Matrix, dim: nat)
    requires |dens| >= 1 && IsMatrix(vals, |dens|, dim)
    requires forall i :: 0 <= i < |dens| ==> dens[i] == 1.0
    ensures Expectation(dens, vals, dim) == Div(ColumnSums(vals, dim), |dens| as real)
    ensures Scale(|dens| as real, Expectation(dens, vals, dim)) == ColumnSums(vals, dim)
  {
    UnitDensitiesSum(dens, vals, dim);
    var m, t := |dens| as real, ColumnSums(vals, dim);
    forall k | 0 <= k < dim ensures Scale(m, Div(t, m))[k] == t[k] {
      assert m * (t[k] / m) == t[k];
    }
  }

  /** `n` copies of the vector `c`. */
  function Repeat(n: nat, c: Vector): (m: Matrix)
    ensures IsMatrix(m, n, |c|) && forall i :: 0 <= i < n ==> m[i] == c
  {
    seq(n, _ => c)
  }

  /** When every sample value is `c`, the density-weighted sum is `c`
      scaled by the total density. */
  lemma {:induction false} WeightedSumOfConstant(dens: Vector, c: Vector)
    ensures VecMat(dens, Repeat(|dens|, c), |c|) == Scale(Sum(dens), c)
  {
    if |dens| == 0 {
      VecMatEmpty(dens, Repeat(0, c), |c|);
      assert Scale(0.0, c) == Zeros(|c|);
    } else {
      var n := |dens| - 1;
      assert Repeat(|dens|, c)[..n] == Repeat(n, c);
      VecMatLast(dens, Repeat(|dens|, c), |c|);
      WeightedSumOfConstant(dens[..n], c);
      ScaleAdd(Sum(dens[..n]), dens[n], c);
    }
  }

  lemma ScaleAdd(a: real, b: real, c: Vector)
    ensures VecAdd(Scale(a, c), Scale(b, c)) == Scale(a + b, c)
  {
    forall i | 0 <= i < |c| ensures VecAdd(Scale(a, c), Scale(b, c))[i] == Scale(a + b, c)[i] {
      assert a * c[i] + b * c[i] == (a + b) * c[i];
    }
  }

  /** The expectation of a constant function `c` is `c` scaled by the
      mean density. */
  lemma ExpectationOfConstant(dens: Vector, vals: Matrix, c: Vector)
    requires |dens| >= 1 && IsMatrix(vals, |dens|, |c|)
    requires forall i :: 0 <= i < |vals| ==> vals[i] == c
    ensures Expectation(dens, vals, |c|) == Scale(Sum(dens) / |dens| as real, c)
  {
    assert vals == Repeat(|dens|, c);
    WeightedSumOfConstant(dens, c);
    DivScale(Sum(dens), c, |dens| as real);
  }

  /** ... and exactly `c` when every density is 1. */
  lemma ExpectationOfConstantUnit(dens: Vector, vals: Matrix, c: Vector)
    requires |dens| >= 1 && IsMatrix(vals, |dens|, |c|)
    requires forall i :: 0 <= i < |vals| ==> vals[i] == c
    requires forall i :: 0 <= i < |dens| ==> dens[i] == 1.0
    ensures Expectation(dens, vals, |c|) == c
  {
    ExpectationOfConstant(dens, vals, c);
    assert dens == Ones(|dens|);
    SumOnes(|dens|);
    assert Sum(dens) / |dens| as real == 1.0;
  }

  lemma DivScale(k: real, c: Vector, m: real)
    requires m != 0.0
    ensures Div(Scale(k, c), m) == Scale(k / m, c)
  {
    forall i | 0 <= i < |c| ensures Div(Scale(k, c), m)[i] == Scale(k / m, c)[i] {
      MulDiv(k, c[i], m);
    }
  }

  lemma MulDiv(a: real, b: real, m: real)
    requires m != 0.0
    ensures a * b / m == (a / m) * b
  {
  }

  /** Projecting the expectation onto `g` gives the expectation of the
      projections `vals[i] · g` (the identity E[p]·b == E[p·b]). */
  lemma ExpectationDot(dens: Vector, vals: Matrix, g: Vector)
    requires |dens| >= 1 && IsMatrix(vals, |dens|, |g|)
    ensures Dot(Expectation(dens, vals, |g|), g) == Dot(dens, MatVec(vals, g)) / |dens| as real
  {
    DotDiv(VecMat(dens, vals, |g|), |dens| as real, g);
    DotVecMat(dens, vals, g);
  }

  /** The update: each density multiplied by its own likelihood, then all
      divided by the normaliser `e`. */
  function Reweighted(dens: Vector, liks: Vector, e: real): (r: Vector)
    requires |liks| == |dens| && e != 0.0
    ensures |r| == |dens|
  {
    Div(Mul(liks, dens), e)
  }

  /** If e is the mean d / m, then d / e is the count m. */
  lemma MeanRatio(d: real, m: real, e: real)
    requires m != 0.0 && e != 0.0 && e == d / m
    ensures d / e == m
  {
    assert d == e * m;
  }

  /** Dividing by the predictive likelihood `e = Σ dens[i]·liks[i] / M`
      leaves densities that sum to exactly M. */
  lemma ReweightedSum(dens: Vector, liks: Vector, e: real)
    requires |liks| == |dens| >= 1 && e != 0.0
    requires e == Dot(dens, liks) / |dens| as real
    ensures Sum(Reweighted(dens, liks, e)) == |dens| as real
  {
    var m, d := |dens| as real, Dot(dens, liks);
    assert Sum(Reweighted(dens, liks, e)) == d / e by {
      SumDiv(Mul(liks, dens), e);
      DotComm(liks, dens);
    }
    MeanRatio(d, m, e);
  }

  /** With a single sample the reweighted density is exactly 1. */
  lemma SingleSampleReweighted(dens: Vector, liks: Vector, e: real)
    requires |liks| == |dens| == 1 && e != 0.0
    requires e == Dot(dens, liks) / 1.0
    ensures Reweighted(dens, liks, e) == [1.0]
  {
    ReweightedSum(dens, liks, e);
    var r := Reweighted(dens, liks, e);
    assert Sum(r) == r[0] by {
      assert r[..0] == [];
    }
  }

  /** Reweighting multiplies every ratio of densities by the ratio of likelihoods. */
  lemma ReweightedRatio(dens: Vector, liks: Vector, e: real, i: nat, j: nat)
    requires |liks| == |dens| && e != 0.0 && i < |dens| && j < |dens|
    requires liks[j] != 0.0 && dens[j] != 0.0
    ensures var r := Reweighted(dens, liks, e);
      r[j] != 0.0 && r[i] / r[j] == (liks[i] / liks[j]) * (dens[i] / dens[j])
  {
    var r := Reweighted(dens, liks, e);
    assert r[i] == liks[i] * dens[i] / e && r[j] == liks[j] * dens[j] / e;
    assert liks[j] * dens[j] != 0.0;
    calc {
      r[i] / r[j];
      (liks[i] * dens[i] / e) / (liks[j] * dens[j] / e);
      (liks[i] * dens[i]) / (liks[j] * dens[j]);
      (liks[i] / liks[j]) * (dens[i] / dens[j]);
    }
  }

  /** A sample of likelihood zero is given density zero. */
  lemma ReweightedZero(dens: Vector, liks: Vector, e: real, i: nat)
    requires |liks| == |dens| && e != 0.0 && i < |dens| && liks[i] == 0.0
    ensures Reweighted(dens, liks, e)[i] == 0.0
  {
  }

  /** Non-negative densities and likelihoods with a positive normaliser
      stay non-negative. */
  lemma ReweightedNonNegative(dens: Vector, liks: Vector, e: real)
    requires |liks| == |dens| && e > 0.0
    requires forall i :: 0 <= i < |dens| ==> dens[i] >= 0.0 && liks[i] >= 0.0
    ensures forall i :: 0 <= i < |dens| ==> Reweighted(dens, liks, e)[i] >= 0.0
  {
    forall i | 0 <= i < |dens| ensures Reweighted(dens, liks, e)[i] >= 0.0 {
      assert liks[i] * dens[i] >= 0.0;
    }
  }
}
