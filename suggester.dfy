/** The lost-item suggester: a hidden Markov model of motion states
    (start and transition probabilities, one Gaussian per state) combined
    with an ensemble of candidate per-state miss-probability vectors, each
    carrying a density.  `suggest(x)` is the density of the item being at
    `x`, averaged over the ensemble; `update(x)` reweights the ensemble
    after the item was found at `x`. */
module Suggesters {
  import opened Linalg
  import opened NdArrays
  import opened Gaussians
  import opened Weights
  import Ensembles

  /** The `ValueError`s the constructor raises, in the order it checks them. */
  datatype InitError =
    | StartProbNotVector
    | TrProbNotMatrix
    | MissProbsNot2D
    | DensMissProbsNot1D
    | MotionNumUndefined
    | SampleNumUndefined

  datatype Outcome = Pass | Fail(error: InitError)

  /** The number of motion states is defined when the start vector, both
      sides of the transition matrix, the Gaussian bank and the columns of
      the sample matrix agree on it. */
  predicate MotionNumDefined(start: NdArray, tr: NdArray, gaussian: Gaussian, miss: NdArray)
    requires Rank(start) == 1 && Rank(tr) == 2 && Rank(miss) == 2
  {
    var n := start.shape[0];
    n == tr.shape[0] && n == tr.shape[1] && n == gaussian.StateCount() && n == miss.shape[1]
  }

  /** The number of samples is defined when there are as many densities as
      sample rows. */
  predicate SampleNumDefined(miss: NdArray, dens: NdArray)
    requires Rank(miss) == 2 && Rank(dens) == 1
  {
    miss.shape[0] == dens.shape[0]
  }

  /** All the constructor's requirements at once, in no particular order. */
  predicate WellShaped(start: NdArray, tr: NdArray, gaussian: Gaussian, miss: NdArray, dens: NdArray) {
    && Rank(start) == 1 && Rank(tr) == 2 && Rank(miss) == 2 && Rank(dens) == 1
    && MotionNumDefined(start, tr, gaussian, miss)
    && SampleNumDefined(miss, dens)
  }

  /** The constructor's validation: each check raises only when all the
      earlier ones passed. */
  function CheckInputs(start: NdArray, tr: NdArray, gaussian: Gaussian, miss: NdArray, dens: NdArray): (o: Outcome)
    ensures o == Fail(StartProbNotVector) <==> Rank(start) != 1
    ensures o == Fail(TrProbNotMatrix) <==> Rank(start) == 1 && Rank(tr) != 2
    ensures o == Fail(MissProbsNot2D) <==> Rank(start) == 1 && Rank(tr) == 2 && Rank(miss) != 2
    ensures o == Fail(DensMissProbsNot1D) <==>
      Rank(start) == 1 && Rank(tr) == 2 && Rank(miss) == 2 && Rank(dens) != 1
    ensures o == Fail(MotionNumUndefined) <==>
      Rank(start) == 1 && Rank(tr) == 2 && Rank(miss) == 2 && Rank(dens) == 1
      && !MotionNumDefined(start, tr, gaussian, miss)
    ensures o == Fail(SampleNumUndefined) <==>
      Rank(start) == 1 && Rank(tr) == 2 && Rank(miss) == 2 && Rank(dens) == 1
      && MotionNumDefined(start, tr, gaussian, miss) && !SampleNumDefined(miss, dens)
    ensures o == Pass <==> WellShaped(start, tr, gaussian, miss, dens)
  {
    if Rank(start) != 1 then Fail(StartProbNotVector)
    else if Rank(tr) != 2 then Fail(TrProbNotMatrix)
    else if Rank(miss) != 2 then Fail(MissProbsNot2D)
    else if Rank(dens) != 1 then Fail(DensMissProbsNot1D)
    else if !MotionNumDefined(start, tr, gaussian, miss) then Fail(MotionNumUndefined)
    else if !SampleNumDefined(miss, dens) then Fail(SampleNumUndefined)
    else Pass
  }

  /** A passing validation fixes the shapes of everything the suggester
      stores: N motion states and M samples. */
  lemma PassFixesShapes(start: NdArray, tr: NdArray, gaussian: Gaussian, miss: NdArray, dens: NdArray)
    requires CheckInputs(start, tr, gaussian, miss, dens) == Pass
    ensures var n, m := start.shape[0], dens.shape[0];
      && |AsVector(start)| == n
      && IsMatrix(AsMatrix(tr), n, n)
      && gaussian.StateCount() == n
      && IsMatrix(AsMatrix(miss), m, n)
      && |AsVector(dens)| == m
  {
  }

  /** The library's inverse of an n×n matrix is an n×n matrix. */
  ghost predicate InverseKeepsShape(inverse: Matrix -> Matrix, n: nat) {
    forall a {:trigger inverse(a)} :: IsMatrix(a, n, n) ==> IsMatrix(inverse(a), n, n)
  }

  /** `n` values of `factor`, by index. */
  function Tabulate(n: nat, factor: nat --> real): (t: Vector)
    requires forall i :: 0 <= i < n ==> factor.requires(i)
    ensures |t| == n && forall i :: 0 <= i < n ==> t[i] == factor(i)
  {
    seq(n, i requires 0 <= i < n => factor(i))
  }

  /** The loop of `update`: each entry of `a` multiplied, in place, by the
      factor belonging to its index. */
  method MultiplyEntries(a: array<real>, factor: nat --> real)
    requires forall i :: 0 <= i < a.Length ==> factor.requires(i)
    modifies a
    ensures a[..] == Mul(Tabulate(a.Length, factor), old(a[..]))
  {
    ghost var products := Mul(Tabulate(a.Length, factor), a[..]);
    var i := 0;
    while i < a.Length
      invariant 0 <= i <= a.Length
      invariant forall k :: 0 <= k < i ==> a[k] == products[k]
      invariant forall k :: i <= k < a.Length ==> a[k] == old(a[k])
    {
      a[i] := factor(i) * a[i];
      i := i + 1;
    }
    assert a[..] == products;
  }

  /** numpy's in-place `a /= k`. */
  method DivideEntries(a: array<real>, k: real)
    requires k != 0.0
    modifies a
    ensures a[..] == Div(old(a[..]), k)
  {
    forall i | 0 <= i < a.Length {
      a[i] := a[i] / k;
    }
  }

  /** What construction yields: the suggester, or the error raised. */
  datatype Construction = Created(suggester: Suggester) | Rejected(error: InitError)

  class Suggester {
    /** N, the number of motion states. */
    const motionNum: nat
    /** M, the number of miss-probability samples. */
    const sampleNum: nat
    const startProb: Vector
    const trProb: Matrix
    const gaussian: Gaussian
    /** Row i is the i-th sample: one miss probability per motion state. */
    const missProbs: Matrix
    /** The linear-algebra library's matrix inverse. */
    const inverse: Matrix -> Matrix
    /** The one field the suggester updates, in place: the sample densities. */
    const densMissProbs: array<real>

    ghost predicate Valid() {
      && |startProb| == motionNum
      && IsMatrix(trProb, motionNum, motionNum)
      && gaussian.Valid() && gaussian.StateCount() == motionNum
      && IsMatrix(missProbs, sampleNum, motionNum)
      && densMissProbs.Length == sampleNum
      && InverseKeepsShape(inverse, motionNum)
    }

    /** Stores the validated inputs; the densities go into a fresh array. */
    constructor (start: NdArray, tr: NdArray, gaussian: Gaussian, miss: NdArray, dens: NdArray,
                 inverse: Matrix -> Matrix)
      requires CheckInputs(start, tr, gaussian, miss, dens) == Pass
      requires gaussian.Valid() && InverseKeepsShape(inverse, start.shape[0])
      ensures motionNum == start.shape[0] && sampleNum == dens.shape[0]
      ensures startProb == AsVector(start) && trProb == AsMatrix(tr) && missProbs == AsMatrix(miss)
      ensures this.gaussian == gaussian && this.inverse == inverse
      ensures fresh(densMissProbs) && densMissProbs[..] == AsVector(dens)
      ensures Valid()
    {
      PassFixesShapes(start, tr, gaussian, miss, dens);
      var d := AsVector(dens);
      motionNum := start.shape[0];
      startProb := AsVector(start);
      trProb := AsMatrix(tr);
      this.gaussian := gaussian;
      sampleNum := dens.shape[0];
      missProbs := AsMatrix(miss);
      this.inverse := inverse;
      densMissProbs := new real[|d|](i requires 0 <= i < |d| => d[i]);
    }

    /** Validation, then construction: raises exactly when `CheckInputs` fails. */
    static method Create(start: NdArray, tr: NdArray, gaussian: Gaussian, miss: NdArray, dens: NdArray,
                         inverse: Matrix -> Matrix) returns (r: Construction)
      requires gaussian.Valid() && (Rank(start) == 1 ==> InverseKeepsShape(inverse, start.shape[0]))
      ensures r.Rejected? <==> CheckInputs(start, tr, gaussian, miss, dens).Fail?
      ensures r.Rejected? ==> r.error == CheckInputs(start, tr, gaussian, miss, dens).error
      ensures r.Created? ==> fresh(r.suggester) && fresh(r.suggester.densMissProbs) && r.suggester.Valid()
      ensures r.Created? ==> r.suggester.motionNum == start.shape[0] && r.suggester.sampleNum == dens.shape[0]
      ensures r.Created? ==>
        && r.suggester.startProb == AsVector(start)
        && r.suggester.trProb == AsMatrix(tr)
        && r.suggester.missProbs == AsMatrix(miss)
        && r.suggester.gaussian == gaussian
        && r.suggester.inverse == inverse
        && r.suggester.densMissProbs[..] == AsVector(dens)
    {
      var o := CheckInputs(start, tr, gaussian, miss, dens);
      if o.Fail? {
        r := Rejected(o.error);
      } else {
        var s := new Suggester(start, tr, gaussian, miss, dens, inverse);
        r := Created(s);
      }
    }

    /** The library inverse truly inverts I − K for every sample. */
    predicate AllSolvable()
      requires Valid()
    {
      forall i {:trigger Solvable(trProb, missProbs[i], inverse)} :: 0 <= i < sampleNum ==>
        Solvable(trProb, missProbs[i], inverse)
    }

    /** `_liklyhood(x, p)`: the Gaussian mixture at `x` under the weight of `p`. */
    function Likelihood(x: Vector, p: Vector): real
      requires Valid() && |p| == motionNum
    {
      gaussian.Weighted(x, Weight(startProb, trProb, inverse, p))
    }

    /** The likelihood is the mixture under `L · y`, for any `y` that solves
        `(I − K) · y = start`, whichever routine inverts the matrix. */
    lemma LikelihoodFromSolution(x: Vector, p: Vector, y: Vector)
      requires Valid() && |p| == motionNum && Solvable(trProb, p, inverse)
      requires |y| == motionNum && MatVec(IMinusK(trProb, p), y) == startProb
      ensures Likelihood(x, p) == gaussian.Weighted(x, MatVec(LMatrix(trProb, p), y))
    {
      WeightSolvesSystem(startProb, trProb, inverse, p, y);
    }

    /** A sample that never misses a detection, or a model with a single
        motion state, explains no observation at all. */
    lemma ZeroDetectionLikelihood(x: Vector, p: Vector)
      requires Valid() && |p| == motionNum
      requires (forall i :: 0 <= i < |p| ==> p[i] == 0.0) || |p| == 1
      ensures Likelihood(x, p) == 0.0
    {
      ZeroDetectionWeight(startProb, trProb, inverse, p);
      gaussian.WeightedZero(x);
    }

    /** The likelihood of every sample at `x`. */
    function Likelihoods(x: Vector): (l: Vector)
      requires Valid()
      ensures |l| == sampleNum
      ensures forall i :: 0 <= i < sampleNum ==> l[i] == Likelihood(x, missProbs[i])
    {
      seq(sampleNum, i requires 0 <= i < sampleNum => Likelihood(x, missProbs[i]))
    }

    /** The weight of every sample, one row each. */
    function SampleWeights(): (w: Matrix)
      requires Valid()
      ensures IsMatrix(w, sampleNum, motionNum)
      ensures forall i :: 0 <= i < sampleNum ==> w[i] == Weight(startProb, trProb, inverse, missProbs[i])
    {
      seq(sampleNum, i requires 0 <= i < sampleNum => Weight(startProb, trProb, inverse, missProbs[i]))
    }

    /** `f` applied to every sample, one row each. */
    function Values(f: Vector --> Vector, dim: nat): (v: Matrix)
      requires Valid()
      requires forall i :: 0 <= i < sampleNum ==> f.requires(missProbs[i]) && |f(missProbs[i])| == dim
      ensures IsMatrix(v, sampleNum, dim)
      ensures forall i :: 0 <= i < sampleNum ==> v[i] == f(missProbs[i])
    {
      seq(sampleNum, i requires 0 <= i < sampleNum => f(missProbs[i]))
    }

    /** The value `suggest(x)` returns: the mixture at `x` under the
        expected weight over the ensemble. */
    function Predictive(x: Vector): real
      requires Valid() && sampleNum >= 1
      reads densMissProbs
    {
      gaussian.Weighted(x, Ensembles.Expectation(densMissProbs[..], SampleWeights(), motionNum))
    }

    /** `_expectation(f)`: the density-weighted sum of `f` over the
        samples, starting from sample 0, divided by M. */
    method Expectation(f: Vector --> Vector, dim: nat) returns (r: Vector)
      requires Valid() && sampleNum >= 1
      requires forall i :: 0 <= i < sampleNum ==> f.requires(missProbs[i]) && |f(missProbs[i])| == dim
      ensures r == Ensembles.Expectation(densMissProbs[..], Values(f, dim), dim)
    {
      ghost var dens, vals := densMissProbs[..], Values(f, dim);
      var sum := Scale(densMissProbs[0], f(missProbs[0]));
      assert sum == VecMat(dens[..1], vals[..1], dim) by {
        VecMatLast(dens[..1], vals[..1], dim);
        VecMatEmpty(dens[..0], vals[..0], dim);
      }
      var i := 1;
      while i < sampleNum
        invariant 1 <= i <= sampleNum
        invariant sum == VecMat(dens[..i], vals[..i], dim)
      {
        var term := Scale(densMissProbs[i], f(missProbs[i]));
        VecMatLast(dens[..i + 1], vals[..i + 1], dim);
        assert dens[..i + 1][..i] == dens[..i] && vals[..i + 1][..i] == vals[..i];
        sum := VecAdd(sum, term);
        i := i + 1;
      }
      assert dens[..i] == dens && vals[..i] == vals;
      r := Div(sum, sampleNum as real);
    }

    /** `suggest(x)`: reads the state and changes nothing, so calls with
        no update between them agree. */
    method Suggest(x: Vector) returns (r: real)
      requires Valid() && AllSolvable() && sampleNum >= 1
      ensures r == Predictive(x)
    {
      var weight := (p: Vector) requires |p| == motionNum && Valid() => Weight(startProb, trProb, inverse, p);
      var e := Expectation(weight, motionNum);
      assert Values(weight, motionNum) == SampleWeights();
      r := gaussian.Weighted(x, e);
    }

    /** The identity E[p]·b == E[p·b]: the predictive density is the
        density-weighted mean of the per-sample likelihoods. */
    lemma PredictiveIsMeanLikelihood(x: Vector)
      requires Valid() && sampleNum >= 1
      ensures Predictive(x) == Dot(densMissProbs[..], Likelihoods(x)) / sampleNum as real
    {
      var w, g := SampleWeights(), gaussian.Densities(x);
      Ensembles.ExpectationDot(densMissProbs[..], w, g);
      assert MatVec(w, g) == Likelihoods(x);
    }

    /** With every density 1, the predictive density is the plain mean of
        the likelihoods. */
    lemma PredictiveOfUnitDensities(x: Vector)
      requires Valid() && sampleNum >= 1
      requires forall i :: 0 <= i < sampleNum ==> densMissProbs[i] == 1.0
      ensures Predictive(x) == Sum(Likelihoods(x)) / sampleNum as real
    {
      PredictiveIsMeanLikelihood(x);
      assert densMissProbs[..] == Ones(sampleNum);
      SumIsDotOnes(Likelihoods(x));
    }

    /** Reweighting the current densities by the likelihoods at `x`,
        normalised by `suggest(x)`, leaves densities that sum to M. */
    lemma ReweightedTotal(x: Vector)
      requires Valid() && sampleNum >= 1 && Predictive(x) != 0.0
      ensures Sum(Ensembles.Reweighted(densMissProbs[..], Likelihoods(x), Predictive(x))) == sampleNum as real
    {
      PredictiveIsMeanLikelihood(x);
      Ensembles.ReweightedSum(densMissProbs[..], Likelihoods(x), Predictive(x));
    }

    /** With a single motion state every likelihood is zero, so `suggest(x)`
        is zero whatever the densities: `update` would divide by zero. */
    lemma OneStatePredictiveZero(x: Vector)
      requires Valid() && sampleNum >= 1 && motionNum == 1
      ensures Predictive(x) == 0.0
    {
      var liks := Likelihoods(x);
      forall i | 0 <= i < sampleNum ensures liks[i] == 0.0 {
        ZeroDetectionLikelihood(x, missProbs[i]);
      }
      PredictiveIsMeanLikelihood(x);
      DotZeros(densMissProbs[..], liks);
    }

    /** A sample that never misses a detection has likelihood zero at `x`,
        so the update gives it density zero. */
    lemma ZeroDetectionSampleVanishes(x: Vector, i: nat)
      requires Valid() && sampleNum >= 1 && Predictive(x) != 0.0 && i < sampleNum
      requires forall j :: 0 <= j < motionNum ==> missProbs[i][j] == 0.0
      ensures Ensembles.Reweighted(densMissProbs[..], Likelihoods(x), Predictive(x))[i] == 0.0
    {
      ZeroDetectionLikelihood(x, missProbs[i]);
      Ensembles.ReweightedZero(densMissProbs[..], Likelihoods(x), Predictive(x), i);
    }

    /** With a single sample, the update sets its density to exactly 1,
        whatever it was. */
    lemma SingleSampleUpdate(x: Vector)
      requires Valid() && sampleNum == 1 && Predictive(x) != 0.0
      ensures Ensembles.Reweighted(densMissProbs[..], Likelihoods(x), Predictive(x)) == [1.0]
    {
      PredictiveIsMeanLikelihood(x);
      Ensembles.SingleSampleReweighted(densMissProbs[..], Likelihoods(x), Predictive(x));
    }

    /** `update(x)`: the normaliser is `suggest(x)` taken before any density
        changes; each density is multiplied by its likelihood, then all are
        divided by the normaliser. */
    method Update(x: Vector)
      requires Valid() && AllSolvable() && sampleNum >= 1 && Predictive(x) != 0.0
      modifies densMissProbs
      ensures densMissProbs[..] == Ensembles.Reweighted(old(densMissProbs[..]), Likelihoods(x), old(Predictive(x)))
    {
      ghost var d0, liks := densMissProbs[..], Likelihoods(x);
      var expL := Suggest(x);
      var likelihood := (i: nat) requires i < sampleNum && Valid() => Likelihood(x, missProbs[i]);
      assert Tabulate(sampleNum, likelihood) == liks;
      MultiplyEntries(densMissProbs, likelihood);
      DivideEntries(densMissProbs, expL);
    }
  }
}
