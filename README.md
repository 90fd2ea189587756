# Suggester: a verified model of wilitools' lost-item estimator

`Suggester` (in `src/wilitools/_suggester.py`) estimates where a lost item
is. The person carrying it moves through `N` motion states. That motion is a
Markov chain: a start distribution plus a transition matrix. Each state has
a Gaussian over positions. While in state `i`, the item can be lost with a
miss probability `p[i]`. That vector `p` is unknown, so an ensemble of `M`
candidate vectors stands in for it, each carrying a density.

- `_weight(p)` turns one candidate into a per-state weighting. It uses the
  fundamental-matrix formula of an absorbing chain:
  `L = diag(p)·Tᵀ` with the diagonal zeroed, `K = Tᵀ − L`, and
  `w = L · (I − K)⁻¹ · start`.
- `_liklyhood(x, p)` is the Gaussian mixture at `x` under that weight.
- `_expectation(f)` is the density-weighted Monte Carlo average of `f` over
  the ensemble.
- `suggest(x)` is the mixture at `x` under the expected weight.
- `update(x)` is called after the item was found at `x`. It multiplies
  every density by its sample's likelihood, then divides by `suggest(x)`.

The model is written over exact reals:

- `linalg.dfy` (module `Linalg`): vectors and matrices as sequences. It
  provides the products numpy performs and the algebra the proofs need,
  such as swapping a double sum and associativity of matrix–vector products.
- `ndarray.dfy` (module `NdArrays`): a numpy array as its shape plus its
  row-major data. Only the shapes matter to the constructor.
- `gaussian.dfy` (module `Gaussians`): the Gaussian bank, with the density
  function as a parameter. Its `weighted(x, w)` is `Σ w[i]·density_i(x)`.
- `weights.dfy` (module `Weights`): `_weight`, its matrices `L`, `K` and
  `I − K`, and what the weight means.
- `ensembles.dfy` (module `Ensembles`): the ensemble expectation and the
  reweighting step, and their properties.
- `suggester.dfy` (module `Suggesters`): the constructor's validation, and
  the class `Suggester`. The class keeps the densities in an `array<real>`
  that `Update` changes in place. Every other field is a `const`.

## Model

| member | source | states |
|---|---|---|
| `Suggesters.CheckInputs` | src/wilitools/_suggester.py:17-33 | Each of the six `ValueError`s is raised exactly when its own check fails and every earlier check passed, in source order: start vector rank, transition matrix rank, sample matrix rank, density vector rank, the motion-count agreement, the sample-count agreement. Validation passes exactly when all the conditions hold together. |
| `Suggesters.PassFixesShapes` | src/wilitools/_suggester.py:25-37 | Validation passes only when start is N long, tr is N×N, the bank has N states, the samples form an M×N matrix and there are M densities. |
| `Suggesters.Suggester.constructor` | src/wilitools/_suggester.py:12-53 | `motion_num = start_prob.shape[0]` and `sample_num = dens_miss_probs.shape[0]`. Every input is stored by value. The densities are copied into a fresh array, so no memory is shared with the caller. The invariant `Valid` holds. |
| `Suggesters.Suggester.Create` | src/wilitools/_suggester.py:12-53 | Construction raises exactly when validation fails, and with the error validation names. Otherwise it yields a fresh valid suggester with N motion states and M samples. That suggester stores the given start vector, transition matrix, bank, sample matrix and inverse, and holds the given densities in its own fresh array. |
| `Suggesters.MultiplyEntries` | src/wilitools/_suggester.py:81-82 | The loop of `update`: the array afterwards is the entry-wise product of the per-index factors with the old array. |
| `Suggesters.DivideEntries` | src/wilitools/_suggester.py:83 | The in-place `/=`: the array afterwards is the old array divided by the normaliser. |
| `Suggesters.Suggester.Expectation` | src/wilitools/_suggester.py:67-71 | The loop that starts from sample 0 and adds samples 1..M−1 returns exactly `(Σ dens[i]·f(miss[i])) / M`, the ensemble expectation. |
| `Ensembles.Expectation` | src/wilitools/_suggester.py:67-71 | The closed form of `_expectation`: `(Σ dens[i]·vals[i]) / M`, a vector as long as each sample value. Its meaning is stated by `ExpectationOfUnitDensities`, `ExpectationOfConstant` and `ExpectationDot`. |
| `Suggesters.Suggester.Suggest` | src/wilitools/_suggester.py:86-87 | Returns the mixture at `x` under the expected weight over the ensemble. It has no `modifies` clause, so it changes nothing, and two calls with no update between them agree. |
| `Suggesters.Suggester.Predictive` | src/wilitools/_suggester.py:86-87 | The value `suggest(x)` returns: the bank's mixture at `x` under the density-weighted mean weight. `PredictiveIsMeanLikelihood` states it as the mean likelihood. |
| `Suggesters.Suggester.Update` | src/wilitools/_suggester.py:74-83 | The new densities are `lik_i(x) · dens_i / e`. Here `e` is `suggest(x)` taken before any density changed, and `lik_i` is the likelihood of sample `i`. Only the density array changes, and it keeps its length. |
| `Suggesters.Suggester.Likelihood` | src/wilitools/_suggester.py:63-64 | `_liklyhood(x, p)`: the bank's mixture at `x` under the weight of `p`. `LikelihoodFromSolution` says what it means. |
| `Ensembles.Reweighted` | src/wilitools/_suggester.py:80-83 | The closed form of the update: `lik_i · dens_i / e`, one density per sample. Its meaning is stated by `ReweightedSum`, `ReweightedRatio`, `ReweightedZero` and `ReweightedNonNegative`. |
| `Suggesters.Suggester.LikelihoodFromSolution` | src/wilitools/_suggester.py:56-64 | The likelihood equals the mixture under `L·y` for every `y` that solves `(I − K)·y = start`, when the library's inverse is a true inverse. |
| `Suggesters.Suggester.ZeroDetectionLikelihood` | src/wilitools/_suggester.py:56-64 | A sample with every miss probability 0, or a model with a single state, has likelihood 0 at every position. This holds whatever square matrix the inverse returns. |
| `Suggesters.Suggester.PredictiveIsMeanLikelihood` | src/wilitools/_suggester.py:75-80 | The identity `E[p]·b = E[p·b]`: `suggest(x)` equals `(Σ dens_i · lik_i(x)) / M`. |
| `Suggesters.Suggester.PredictiveOfUnitDensities` | src/wilitools/_suggester.py:86-87 | With every density 1, `suggest(x)` is the arithmetic mean of the per-sample likelihoods. |
| `Suggesters.Suggester.ReweightedTotal` | src/wilitools/_suggester.py:80-83 | The densities `update` produces sum to exactly M. |
| `Suggesters.Suggester.ZeroDetectionSampleVanishes` | src/wilitools/_suggester.py:74-83 | A sample whose miss probabilities are all 0 is given density 0 by the update. |
| `Suggesters.Suggester.OneStatePredictiveZero` | src/wilitools/_suggester.py:56-64 | With a single motion state, `suggest(x)` is 0 for every position and every density vector. |
| `Suggesters.Suggester.SingleSampleUpdate` | src/wilitools/_suggester.py:74-83 | With a single sample, the update sets its density to exactly 1, whatever it was before. |
| `Weights.LMatrix` | src/wilitools/_suggester.py:57-58 | Off the diagonal, `L[i][j] = p[i]·tr[j][i]`. On it, `L[i][i] = 0`. |
| `Weights.KMatrix` | src/wilitools/_suggester.py:59 | `K[i][i] = tr[i][i]`. Off the diagonal, `K[i][j] = (1 − p[i])·tr[j][i]`. |
| `Weights.Weight` | src/wilitools/_suggester.py:56-60 | `_weight(p)`: `L @ inv(I − K) @ start`, an N-vector. Its meaning is carried by `WeightSolvesSystem`: it is `L·y` for the solution `y` of `(I − K)·y = start`. |
| `Weights.WeightSolvesSystem` | src/wilitools/_suggester.py:60 | When the library's inverse is a true inverse, `L @ inv(I − K) @ start` equals `L·y` for every solution `y` of `(I − K)·y = start`. |
| `Weights.SystemHasSolution` | src/wilitools/_suggester.py:60 | `inv(I − K) @ start` does solve that system. |
| `Weights.ZeroDetectionWeight` | src/wilitools/_suggester.py:56-60 | With all miss probabilities 0, or with N = 1, the weight is the zero vector. This holds for any square matrix the inverse returns, true inverse or not. |
| `Weights.WeightConservesMass` | src/wilitools/_suggester.py:56-60 | For a row-stochastic transition matrix, and when the library's inverse is a true inverse, the weights sum to the start distribution's total. |
| `Weights.MassBalance` | src/wilitools/_suggester.py:57-59 | For a row-stochastic transition matrix, `(I − K)·y` and `L·y` have the same total for every `y`. |
| `Weights.NeverDetectedIsSingular` | src/wilitools/_suggester.py:57-60 | Take a row-stochastic transition matrix with L zero (all miss probabilities 0, or N = 1). Then `I − K` has no inverse in exact arithmetic. |
| `Weights.OnesUnreachable` | src/wilitools/_suggester.py:57-60 | In that case no `y` has `(I − K)·y` equal to the all-ones vector. |
| `Ensembles.ExpectationOfUnitDensities` | src/wilitools/_suggester.py:67-71 | With unit densities, the expectation is the arithmetic mean of the `f` values. M times it is their plain sum. |
| `Ensembles.ExpectationOfConstant` | src/wilitools/_suggester.py:67-71 | For a constant `f = c`, the expectation is `c` scaled by the mean density. |
| `Ensembles.ExpectationOfConstantUnit` | src/wilitools/_suggester.py:67-71 | For a constant `f = c` with unit densities, the expectation is exactly `c`. |
| `Ensembles.WeightedSumOfConstant` | src/wilitools/_suggester.py:68-70 | For a constant `c`, the density-weighted sum is `c` times the total density. |
| `Ensembles.ExpectationDot` | src/wilitools/_suggester.py:75-78 | Projecting the expected vector onto `g` gives the expectation of the projections. |
| `Ensembles.ReweightedSum` | src/wilitools/_suggester.py:80-83 | Dividing by the mean of `dens_i·lik_i` leaves densities that sum to M. |
| `Ensembles.SingleSampleReweighted` | src/wilitools/_suggester.py:80-83 | With one sample, the reweighted density is `[1.0]`. |
| `Ensembles.ReweightedRatio` | src/wilitools/_suggester.py:82-83 | Reweighting multiplies the ratio of any two densities by the ratio of their likelihoods. |
| `Ensembles.ReweightedNonNegative` | src/wilitools/_suggester.py:82-83 | Non-negative densities and likelihoods with a positive normaliser stay non-negative. |
| `Gaussians.Gaussian.WeightedZero` | src/wilitools/_suggester.py:64 | The zero weighting has density 0 everywhere. |
| `Gaussians.Gaussian.Weighted` | src/wilitools/_suggester.py:64 | The bank's `weighted(x, w)`: `Σ w[i]·density_i(x)`, the contract the bank publishes. |

Three consequences of the code as written:

- **A single motion state.** With N = 1, the zeroed diagonal makes `L`
  zero, and `I − K = [[1 − tr[0][0]]]`. If `tr = [[1.0]]`, that matrix is
  exactly `[[0]]`, in float32 as well (`NeverDetectedIsSingular`).
  `np.linalg.inv` then raises `LinAlgError` inside `suggest`, before
  `update` reaches its division. For any other 1×1 `tr`, for example
  `[[0.5]]`, the weight is `[0.0]` and every likelihood is 0
  (`ZeroDetectionWeight`, `ZeroDetectionLikelihood`). `suggest` is then 0
  for every density vector (`OneStatePredictiveZero`), and `update`
  divides 0 by 0, which leaves every density non-finite. `Update`
  requires `suggest(x) ≠ 0`, so it excludes both cases. The weight is
  never `[1.0]`.
- **A single sample.** With M = 1, an update sets that sample's density
  to 1. It does not leave it unchanged (`SingleSampleUpdate`).
- **Weight totals.** With a row-stochastic transition matrix and an
  invertible `I − K`, the weights sum to exactly the start distribution's
  total in exact arithmetic (`WeightConservesMass`). In general they are
  not normalised.

## Left out

- Rounding to float32: the `astype(np.float32)` at lines 40-53 is not modelled. All arithmetic is on exact reals, so rounding, underflow of very small densities, and non-finite values are out of scope.
- Gaussian bank: the multivariate normal density is not defined here, and neither is the bank's own constructor. The density is the function value `pdf`, and the bank's contract is the formula `weighted(x, w) = Σ w[i]·density_i(x)`. Copying the bank at line 47 becomes value semantics.
- `np.linalg.inv` is not modelled. It is the function value `inverse`, which the constructor requires to return an n×n matrix for an n×n matrix (`InverseKeepsShape`). A singular `I − K` raises `LinAlgError` in the library. Instead of that error path, `Suggest` and `Update` require `AllSolvable`: the inverse is a true inverse for every sample. The singularity results (`NeverDetectedIsSingular`, `OnesUnreachable`) are about exact arithmetic. When N ≥ 2, the float32 factorisation need not meet an exact zero pivot, so the library may return a matrix instead of raising. A 1×1 `I − K` that is 0 in exact arithmetic is 0 in float32 too.
- `uniform_cube`, imported at line 9, is never used by the class.
- The messages of the `ValueError`s, which print array shapes, are not modelled. Only the kind of error is.
- Suggesters.Suggester.Expectation: `f` returns a vector (the source also accepts a scalar `f`, which appears here as a vector of length 1), and only the case `sample_num ≥ 1` is covered, because line 68 reads `dens_miss_probs[0]` and raises `IndexError` when M = 0. The same precondition is on `Suggest` and `Update`.
- Suggesters.Suggester.Update: it requires `suggest(x) ≠ 0`. The source divides anyway and produces non-finite densities. With one motion state and `tr[0][0] ≠ 1`, `suggest(x)` is always 0 (`OneStatePredictiveZero`), so the update always divides 0 by 0. With `tr = [[1.0]]`, `suggest` raises `LinAlgError` instead, which the `AllSolvable` requirement excludes. The fact that the new densities sum to M is not a postcondition of `Update`. It is `ReweightedTotal`, stated on the state before the update, and it combines with `Update`'s postcondition.
- Suggesters.Suggester.Suggest: "repeated calls agree" follows from the postcondition `r == Predictive(x)` and the absence of a `modifies` clause. There is no separate lemma for it.
