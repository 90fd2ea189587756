/** The Gaussian observation bank: one (mean, covariance) pair per motion
    state.  The multivariate normal density itself is external; it enters
    the model as the function value `pdf(x, mean, covariance)`.  The
    mixture evaluator `Weighted` is the bank's published contract:
    `weighted(x, w) = Σ_i w[i] · density_i(x)`. */
module Gaussians {
  import opened Linalg

  datatype Gaussian = Gaussian(avrs: seq<Vector>, covars: seq<Matrix>, pdf: (Vector, Vector, Matrix) -> real)
  {
    /** A bank built by its own constructor has one covariance per mean. */
    predicate Valid() {
      |covars| == |avrs|
    }

    /** The number of motion states, `avrs.shape[0]`. */
    function StateCount(): nat {
      |avrs|
    }

    /** The per-state densities at position `x`. */
    function Densities(x: Vector): (d: Vector)
      requires Valid()
      ensures |d| == StateCount()
      ensures forall i :: 0 <= i < |d| ==> d[i] == pdf(x, avrs[i], covars[i])
    {
      seq(|avrs|, i requires 0 <= i < |avrs| => pdf(x, avrs[i], covars[i]))
    }

    function Weighted(x: Vector, w: Vector): real
      requires Valid() && |w| == StateCount()
    {
      Dot(w, Densities(x))
    }

    /** The zero weighting gives density zero everywhere. */
    lemma WeightedZero(x: Vector)
      requires Valid()
      ensures Weighted(x, Zeros(StateCount())) == 0.0
    {
      DotZeros(Densities(x), Zeros(StateCount()));
    }
  }
}
