# rustineers numerical crates in Dafny

This project models the numerical core of the rustineers teaching crates and proves properties of the model. There are five groups:

- **Gradient optimizers.** Gradient descent, momentum, Nesterov (NAG) and adaptive accelerated descent update a weight array in place. The crates are simple_optimizers, simple_optimizers_traits, simple_optimizers_enums, simple_optimizers_ndarray and the traits_and_ndarray module.
  - Two sign conventions occur for momentum. In the slice crates, v ← μv + lr·g and w ← w − v. In the ndarray crates, v ← μv − lr·g and w ← w + v.
  - Each `run_optimization` driver loops over (gradient, step).
- **One-dimensional ridge regression.** This covers closed-form estimators, losses, gradients, a gradient-descent loop, and small regressor objects. The crates are ridge_1d_fn, ridge_1d_struct, ridge_1d_generic and ridge_regression_1d with its functional, structured and generic modules.
  - Every variant keeps its own constants: the factor 2 in the gradient or not, a penalty of λ or λ·n, and a loss divided by n or by 2n.
- **Two-dimensional Poisson finite elements** (poisson_2d). This covers reference-element shape functions, gradients and Jacobians, the quadrature tables, the mesh record, and the dense assembly of the stiffness matrix and load vector.
- **The linear Kalman filter** (kalman_filter). The constructor checks dimensions through an ordered list of guards. Each step predicts, then optionally updates with the Joseph form of the covariance.
- **Kernel ridge regression** (krr_ndarray). This covers the RBF kernel, the error types and their messages, the model with its unfitted and fitted states, leave-one-out cross-validation, and the lengthscale search.

How the Rust appears in Dafny:

- `f64` and `F: Float` are `real`.
- A panic (`assert!`, `assert_eq!`, `unwrap`, `expect`, an unsupported quadrature order, an out-of-range index) is a precondition.
- A `Result` or `Option` the code returns is a datatype, and every error path is modelled.
- Code that mutates state is imperative Dafny:
  - weight arrays are `array<real>`;
  - regressor objects and the Kalman filter are classes whose methods state their whole new state;
  - loops carry invariants and are proved against specification functions.
- Pure iterator code is functions and lemmas.

Calls into linear-algebra or numeric libraries become parameters, each constrained by the law the model needs:

- `exp` must satisfy exp(0) = 1 and exp(t) < 1 for t < 0.
- `sqrt` in the NAG sequence t_{k+1} = (1 + √(1 + 4t_k²))/2 must satisfy sqrt(a) ≥ 1 for a ≥ 1.
- The √3 of the two-point Gauss rule is a number `root3` with root3 > 0 and root3² = 3.
- The Cholesky factorisation is a test `isSpd` plus a `solve` that solves the systems it accepts.
- `solve_into` and `inv` are likewise parameters with a law.

The random default state of the Kalman filter is a parameter `draw`.

Modules: each Rust source file has one module; shared algebra lives in `RealSeqs`, `RidgeMath`, `DenseMatrix`, `Matrix2Algebra`, `UpdateRules` and `Outcomes`. All files are verified together.

## Model

| member | source | states |
|---|---|---|
| KalmanFilterAlgorithm.StartState | crates/kalman_filter/src/algorithm.rs:34-37 | without an initial state, the state has length n = ncols(A) and coordinate i is the i-th standard-normal draw; a given state is kept |
| KalmanFilterAlgorithm.StartCovariance | crates/kalman_filter/src/algorithm.rs:39 | without an initial covariance, P is the n×n identity; a given one is kept |
| KalmanFilterAlgorithm.DimensionCheck | crates/kalman_filter/src/algorithm.rs:41-64 | no error exactly when every shape agrees; otherwise the first failing guard in the source's order (A square, Q n×n, H m×n, R m×m, x0 of length n, P0 n×n) names the message |
| KalmanFilterAlgorithm.PredictedCovariance | crates/kalman_filter/src/algorithm.rs:90-93 | A·P·Aᵀ + Q is n×n and symmetric whenever P and Q are symmetric |
| KalmanFilterAlgorithm.Predict | crates/kalman_filter/src/algorithm.rs:88-94 | the predicted estimate keeps the shapes, with state A·x and covariance A·P·Aᵀ + Q |
| KalmanFilterAlgorithm.InnovationCovariance | crates/kalman_filter/src/algorithm.rs:103-104 | S = H·P·Hᵀ + R is m×m and symmetric whenever P and R are symmetric |
| KalmanFilterAlgorithm.KalmanGain | crates/kalman_filter/src/algorithm.rs:106-111 | the gain K is n×m and satisfies S·Kᵀ = H·P, given a Cholesky solve that solves the systems it accepts |
| KalmanFilterAlgorithm.UpdatedState | crates/kalman_filter/src/algorithm.rs:100-114 | x + K·(z − H·x) keeps the state's length |
| KalmanFilterAlgorithm.JosephCovariance | crates/kalman_filter/src/algorithm.rs:116-122 | the Joseph form (I − K·H)·P·(I − K·H)ᵀ + K·R·Kᵀ is n×n and symmetric whenever P and R are symmetric, for any gain K |
| KalmanFilterAlgorithm.Update | crates/kalman_filter/src/algorithm.rs:96-125 | fails with InnovationNotSpd exactly when S has no Cholesky factor; otherwise the corrected estimate keeps the shapes and a symmetric covariance stays symmetric |
| KalmanFilterAlgorithm.StepResult | crates/kalman_filter/src/algorithm.rs:127-133 | without an observation the step is Ok and equals the prediction; a failed update reports InnovationNotSpd and leaves the predicted estimate |
| KalmanFilterAlgorithm.StepKeepsSymmetric | crates/kalman_filter/src/algorithm.rs:127-133 | with symmetric P, Q and R, the covariance after a step is symmetric whether or not an observation is given and whether or not the update fails |
| KalmanFilterAlgorithm.ZeroInnovationKeepsState | crates/kalman_filter/src/algorithm.rs:100-114 | an observation equal to H·x leaves the state unchanged, whatever the gain |
| KalmanFilterAlgorithm.KalmanFilter.constructor | crates/kalman_filter/src/algorithm.rs:66-73 | the struct literal stores each of the six inputs in its field and establishes the shape invariant |
| KalmanFilterAlgorithm.KalmanFilter.New | crates/kalman_filter/src/algorithm.rs:24-74 | returns the first failing guard's error, or a fresh filter that holds the chosen initial state and covariance and the four model matrices |
| KalmanFilterAlgorithm.KalmanFilter.PredictStep | crates/kalman_filter/src/algorithm.rs:88-94 | the model matrices are unchanged, the shape invariant holds and the estimate becomes the prediction of the old one |
| KalmanFilterAlgorithm.KalmanFilter.UpdateStep | crates/kalman_filter/src/algorithm.rs:96-125 | on InnovationNotSpd the error is returned and the estimate is unchanged; otherwise the estimate becomes the update of the old one; the model matrices never change |
| KalmanFilterAlgorithm.KalmanFilter.Step | crates/kalman_filter/src/algorithm.rs:127-133 | the outcome and the new estimate are those of StepResult on the old estimate, so an update error is returned after the prediction has been applied |
| KalmanFilterAlgorithm.ConstructorAcceptsSquareModel | crates/kalman_filter/src/algorithm.rs:143-165 | the 2×2 identity model with noise 1e-3·I and 1e-2·I and no initial values passes every guard, with a length-2 state and a 2×2 covariance |
| KalmanFilterAlgorithm.ConstructorRejectsWideObservation | crates/kalman_filter/src/algorithm.rs:168-185 | the same model with a 2×3 observation matrix is rejected with the "H must be m x n" message |
| KrrKernel.NewKernel | crates/krr_ndarray/src/kernel.rs:13-16 | the constructor's assertion becomes the precondition ℓ > 0; the kernel stores ℓ and is valid |
| KrrKernel.SquaredDistance | crates/krr_ndarray/src/kernel.rs:21-22 | ‖x − y‖² is non-negative and is zero exactly when x = y |
| KrrKernel.PowPositive | crates/krr_ndarray/src/kernel.rs:22 | `powi` of a positive lengthscale is positive, so the division in the exponent is defined |
| KrrKernel.DotSelfZero | crates/krr_ndarray/src/kernel.rs:22 | the squared norm of a zero difference is 0 |
| KrrKernel.DotSelfNonNegative | crates/krr_ndarray/src/kernel.rs:22 | a squared norm is never negative |
| KrrKernel.DotSelfPositive | crates/krr_ndarray/src/kernel.rs:22 | a difference with a non-zero coordinate has a positive squared norm |
| KrrKernel.DotSelfNegated | crates/krr_ndarray/src/kernel.rs:21-22 | x − y and y − x have the same squared norm |
| KrrKernel.Compute | crates/krr_ndarray/src/kernel.rs:20-23 | for an exp with exp(0) = 1 and exp(t) < 1 for t < 0: k(x, x) = 1, and k(x, y) < 1 for x ≠ y |
| KrrKernel.KernelSymmetric | crates/krr_ndarray/src/kernel.rs:20-23 | k(x, y) = k(y, x) |
| KrrKernel.UnitKernelOnSamePoint | crates/krr_ndarray/src/kernel.rs:32-37 | with ℓ = 1, the kernel of [1, 2, 3] with itself is 1 |
| KrrKernel.UnitKernelOnDistinctPoints | crates/krr_ndarray/src/kernel.rs:41-46 | with ℓ = 1, the kernel of [1, 2, 3] and [4, 5, 6] is below 1 |
| KrrErrors.DigitChar | crates/krr_ndarray/src/errors.rs:5-6 | a digit below 10 is rendered as the character whose code is '0' plus the digit |
| KrrErrors.Decimal | crates/krr_ndarray/src/errors.rs:5-6 | a `usize` field renders as a non-empty string of digits |
| KrrErrors.DecimalRoundTrip | crates/krr_ndarray/src/errors.rs:5-6 | reading the rendered digits back gives the number, so the rendering loses nothing |
| KrrErrors.DigitRun | crates/krr_ndarray/src/errors.rs:5-6 | the leading run of digits is no longer than the string |
| KrrErrors.DigitRunAppend | crates/krr_ndarray/src/errors.rs:5-6 | a run of digits followed by a non-digit is measured exactly |
| KrrErrors.Message | crates/krr_ndarray/src/errors.rs:3-10 | ShapeMismatch prints "Shape mismatch: x has …"; LinAlgError prints "Solving the linear system failed" whatever its detail |
| KrrErrors.PredictMessage | crates/krr_ndarray/src/errors.rs:12-16 | NotFitted prints "Model not fitted" |
| KrrErrors.DigitFieldsDetermined | crates/krr_ndarray/src/errors.rs:5-6 | two digit fields separated by text that starts with a non-digit are recovered from the whole string |
| KrrErrors.ShapeMismatchMessageDetermines | crates/krr_ndarray/src/errors.rs:5-6 | equal ShapeMismatch messages have equal row and element counts |
| KrrErrors.FitMessagesDistinguishCases | crates/krr_ndarray/src/errors.rs:3-10 | a ShapeMismatch message never equals a LinAlgError message |
| KrrModel.Gram | crates/krr_ndarray/src/model.rs:26-32 | the Gram matrix is n×n and symmetric, and entry (r, c) is the kernel of rows r and c |
| KrrModel.GramDiagonalIsOne | crates/krr_ndarray/src/model.rs:26-32 | every diagonal entry of an RBF Gram matrix is 1 |
| KrrModel.Regularised | crates/krr_ndarray/src/model.rs:34-35 | K + λI is symmetric and differs from the Gram matrix by λ on the diagonal only |
| KrrModel.Coefficients | crates/krr_ndarray/src/model.rs:23-44 | on success α has one entry per sample and solves (K + λI)·α = y; the solver's failure, and only it, is LinAlgError |
| KrrModel.FitOutcome | crates/krr_ndarray/src/model.rs:46-65 | rows of x ≠ \|y\| gives exactly ShapeMismatch(rows, \|y\|); otherwise the outcome is that of the solve |
| KrrModel.Predictions | crates/krr_ndarray/src/model.rs:73-81 | there is one prediction per test row |
| KrrModel.KernelColumnIsGramRow | crates/krr_ndarray/src/model.rs:75-80 | the kernel values of a training row against all training rows are that row of the Gram matrix |
| KrrModel.RegularisedRowDot | crates/krr_ndarray/src/model.rs:34-35 | row i of K + λI dotted with w is row i of K dotted with w, plus λ·w_i |
| KrrModel.PredictionAtTrainingRow | crates/krr_ndarray/src/model.rs:23-44 | when (K + λI)·α = y, the prediction at training row i is y_i − λ·α_i |
| KrrModel.PredictionsAtTrainingRows | crates/krr_ndarray/src/model.rs:67-82 | predicting at the training rows of a fitted model gives y minus the ridge term λ·α, row by row |
| KrrModel.GramMatrix | crates/krr_ndarray/src/model.rs:26-32 | the nested loop filling K[i][j] and K[j][i] for j ≤ i builds the Gram matrix |
| KrrModel.KRRModel.constructor | crates/krr_ndarray/src/model.rs:14-21 | stores the kernel and λ, with no training rows and no coefficients |
| KrrModel.KRRModel.FitUnchecked | crates/krr_ndarray/src/model.rs:23-44 | on success the model stores x and α; on failure it returns the error and keeps its old fit |
| KrrModel.KRRModel.Fit | crates/krr_ndarray/src/model.rs:46-65 | a mismatched y is rejected before any solve and changes nothing; otherwise as FitUnchecked |
| KrrModel.KRRModel.Predict | crates/krr_ndarray/src/model.rs:67-82 | NotFitted before a successful fit; otherwise the Predictions of the stored rows and α |
| KrrModel.AccumulateRow | crates/krr_ndarray/src/model.rs:76-79 | adds Σ_j α_j·k(x_j, t) to entry i of the output and leaves every other entry alone |
| KrrModel.ConstructorKeepsParameters | crates/krr_ndarray/src/model.rs:92-107 | the model built from `RBFKernel::new(1.0)` and λ = 1 holds ℓ = 1 and λ = 1 |
| KrrModelSelection.AddLoo | crates/krr_ndarray/src/model_selection.rs:32 | an f64 sum is finite exactly when both operands are, and is then their sum |
| KrrModelSelection.LooTerm | crates/krr_ndarray/src/model_selection.rs:29-32 | (α_i / d_i)² is finite exactly when d_i ≠ 0, and is then ≥ 0 |
| KrrModelSelection.LooSum | crates/krr_ndarray/src/model_selection.rs:27-33 | the running error is finite exactly when none of the first m diagonal entries of A⁻¹ is zero, and is then ≥ 0 |
| KrrModelSelection.LooScore | crates/krr_ndarray/src/model_selection.rs:27-35 | the average is finite exactly when n > 0 and no diagonal entry of A⁻¹ is zero, and is then ≥ 0 |
| KrrModelSelection.LooCv | crates/krr_ndarray/src/model_selection.rs:12-35 | a finite LOO error is never negative |
| KrrModelSelection.LooCvError | crates/krr_ndarray/src/model_selection.rs:8-36 | NotFitted when the model has no coefficients; otherwise the LOO error of A = K + λI rebuilt from the stored rows |
| KrrModelSelection.Candidates | crates/krr_ndarray/src/model_selection.rs:50-51 | one kernel per lengthscale, in order, each made by the builder |
| KrrModelSelection.KernelScore | crates/krr_ndarray/src/model_selection.rs:52-63 | a candidate has an error exactly when `fit` succeeds and its LOO error is finite; that error is ≥ 0 |
| KrrModelSelection.Scores | crates/krr_ndarray/src/model_selection.rs:50-64 | one score per candidate, each the candidate's KernelScore |
| KrrModelSelection.ChooseBest | crates/krr_ndarray/src/model_selection.rs:47-64 | no kernel is chosen exactly when no candidate has an error, an empty list included |
| KrrModelSelection.ChooseBestIsEarliestMinimum | crates/krr_ndarray/src/model_selection.rs:58-62 | the strict `<` keeps the earliest candidate with the minimum error: no candidate beats it and each earlier one is strictly worse |
| KrrModelSelection.TuneOutcome | crates/krr_ndarray/src/model_selection.rs:66-68 | the only error is "Tuning failed", returned exactly when no candidate fits with a finite LOO error |
| KrrModelSelection.TunedErrorIsReproducible | crates/krr_ndarray/src/model_selection.rs:40-69 | the returned kernel is valid, refitting it reproduces the returned error, that error is ≥ 0 and the kernel is the earliest minimiser |
| KrrModelSelection.TuneLengthscale | crates/krr_ndarray/src/model_selection.rs:40-69 | the loop returns TuneOutcome of the candidates and their scores |
| UpdateRules.GdStep | crates/simple_optimizers_traits/src/optimizers.rs:41-45 | w[i] becomes w[i] − lr·g[i] for i below min(\|w\|, \|g\|); later weights are unchanged and the length is kept |
| UpdateRules.MomentumStep | crates/simple_optimizers_traits/src/optimizers.rs:87-96 | over the zip of weights, gradients and velocity: v[i] becomes μ·v[i] + lr·g[i] and w[i] becomes w[i] − v[i]; entries past the shortest operand are unchanged |
| UpdateRules.HeavyBallStep | crates/simple_optimizers_ndarray/src/optimizers.rs:108-118 | the heavy-ball convention: v[i] becomes μ·v[i] − lr·g[i] and w[i] becomes w[i] + v[i] over the zip; other entries unchanged |
| UpdateRules.Zeros | crates/simple_optimizers_traits/src/optimizers.rs:72 | `vec![0.0; dim]`: length dim, every entry 0 |
| UpdateRules.GdIterateLength | crates/simple_optimizers_traits/src/lib.rs:11-14 | k rounds of (gradient, step) keep the number of weights |
| UpdateRules.MomentumIterateLength | crates/simple_optimizers/src/lib.rs:5-15 | k momentum rounds keep the lengths of the weights and of the velocity |
| UpdateRules.HeavyBallIterateLength | crates/simple_optimizers_ndarray/src/optimizers.rs:105-118 | k heavy-ball rounds keep the lengths of the weights and of the velocity |
| UpdateRules.GdStepInverse | crates/simple_optimizers_traits/src/optimizers.rs:40-45 | a step with learning rate −lr undoes a step with lr along the same gradient |
| UpdateRules.MomentumFromRestIsGd | crates/simple_optimizers_traits/src/optimizers.rs:68-74 | from the zero velocity `new` creates, a momentum step moves the weights exactly as a gradient step and leaves v = lr·g |
| UpdateRules.HeavyBallFromRestIsGd | crates/simple_optimizers_ndarray/src/optimizers.rs:105-117 | from the zero velocity `run` creates, a heavy-ball step moves the weights exactly as a gradient step and leaves v = −lr·g |
| UpdateRules.HeavyBallMirrorsMomentum | crates/simple_optimizers_ndarray/src/optimizers.rs:92-96 | the two documented momentum conventions agree: with the velocity negated, a heavy-ball step gives the same weights as an additive momentum step and the negated new velocity |
| UpdateRules.HeavyBallRunMirrorsMomentumRun | crates/simple_optimizers_ndarray/src/optimizers.rs:105-118 | over whole runs from rest, both conventions reach the same weights, with mirrored velocities |
| UpdateRules.NextT | crates/simple_optimizers_ndarray/src/optimizers.rs:181 | t_{k+1} = (1 + √(1 + 4t_k²))/2 is at least 1 |
| UpdateRules.ExtrapolateAt | crates/simple_optimizers_ndarray/src/optimizers.rs:183-188 | entry i of the extrapolated point is y1[i] + c·(y1[i] − y0[i]) |
| UpdateRules.NagStep | crates/simple_optimizers_ndarray/src/optimizers.rs:175-191 | one NAG round keeps every vector at the length of the weights and keeps t ≥ 1 |
| UpdateRules.NagRun | crates/simple_optimizers_ndarray/src/optimizers.rs:171-192 | k NAG rounds from y_0 = x_0 and t_0 = 1 keep the lengths and t ≥ 1 |
| UpdateRules.NagFirstStepIsGd | crates/simple_optimizers_ndarray/src/optimizers.rs:171-191 | with t_0 = 1 the first extrapolation weight is 0, so the first NAG round is a plain gradient step for both x and y |
| UpdateRules.GdStepTestValue | crates/simple_optimizers_traits/src/optimizers.rs:112-120 | one step with lr 0.1 and gradients 0.5 maps [1, 2, 3] to [0.95, 1.95, 2.95] |
| UpdateRules.MomentumTwoStepsTestValue | crates/simple_optimizers_traits/src/optimizers.rs:139-154 | two momentum steps with lr 0.1 and μ 0.9 give [0.95, 1.95, 2.95] and then [0.855, 1.855, 2.855] |
| UpdateRules.HeavyBallTwoStepsTestValue | crates/simple_optimizers_ndarray/src/optimizers.rs:235-247 | two heavy-ball rounds from [1, 2, 3] give [0.855, 1.855, 2.855] |
| SliceLoops.DescendInPlace | crates/simple_optimizers/src/traits_based/optimizers.rs:41-45 | the array after the loop is the gradient step of the array before it |
| SliceLoops.MomentumInPlace | crates/simple_optimizers/src/traits_based/optimizers.rs:87-96 | the array after the loop and the returned velocity are the momentum step of the inputs |
| TraitsOptimizers.GradientDescent.constructor | crates/simple_optimizers_traits/src/optimizers.rs:30-32 | the optimizer keeps the given learning rate |
| TraitsOptimizers.GradientDescent.Step | crates/simple_optimizers_traits/src/optimizers.rs:41-45 | the weight array afterwards is the gradient step of the array before, over the zip with the gradients |
| TraitsOptimizers.Momentum.constructor | crates/simple_optimizers_traits/src/optimizers.rs:68-74 | keeps the learning rate and the momentum; the velocity is dim zeros |
| TraitsOptimizers.Momentum.Step | crates/simple_optimizers_traits/src/optimizers.rs:87-96 | the weight array and the velocity field afterwards are the additive momentum step of their old values |
| TraitsOptimizers.MomentumTwoSteps | crates/simple_optimizers_traits/src/optimizers.rs:139-154 | running the momentum optimizer twice on [1, 2, 3] with gradient 0.5 yields [0.95, 1.95, 2.95] and then [0.855, 1.855, 2.855] |
| TraitsRun.RunOptimizationGd | crates/simple_optimizers_traits/src/lib.rs:5-15 | after num_steps rounds the weights are the num_steps-fold gradient iteration of the starting weights |
| TraitsRun.RunOptimizationMomentum | crates/simple_optimizers_traits/src/lib.rs:5-15 | after num_steps rounds the weights and the optimizer's velocity are the num_steps-fold momentum iteration; the rates are unchanged |
| TraitsRun.GdOnQuadratic | crates/simple_optimizers_traits/src/lib.rs:23-40 | on the gradient 2(w − 3) with lr 0.1 from 0, the distance to 3 shrinks by the factor 0.8 per step: w_k = 3 − 3·0.8^k |
| TraitsRun.GdConvergenceTest | crates/simple_optimizers_traits/src/lib.rs:27-40 | after 100 steps the single weight lies within 1e-2 of the minimiser 3 |
| TraitsRun.GdConvergenceScenario | crates/simple_optimizers_traits/src/lib.rs:36-40 | the convergence test run through the optimizer object ends within 1e-2 of 3 |
| TraitsBasedOptimizers.GradientDescent.constructor | crates/simple_optimizers/src/traits_based/optimizers.rs:30-32 | the optimizer keeps the given learning rate |
| TraitsBasedOptimizers.GradientDescent.Step | crates/simple_optimizers/src/traits_based/optimizers.rs:41-45 | the weight array afterwards is the gradient step of the array before |
| TraitsBasedOptimizers.Momentum.constructor | crates/simple_optimizers/src/traits_based/optimizers.rs:68-74 | keeps both rates; the velocity is dim zeros |
| TraitsBasedOptimizers.Momentum.Step | crates/simple_optimizers/src/traits_based/optimizers.rs:87-96 | the weights and the velocity field afterwards are the additive momentum step of their old values |
| SimpleOptimizersRun.RunOptimizationGd | crates/simple_optimizers/src/lib.rs:5-15 | num_steps rounds leave the num_steps-fold gradient iteration of the starting weights |
| SimpleOptimizersRun.RunOptimizationMomentum | crates/simple_optimizers/src/lib.rs:5-15 | num_steps rounds leave the num_steps-fold momentum iteration in the weights and the velocity; the rates are unchanged |
| EnumOptimizers.NewGradientDescent | crates/simple_optimizers/src/enum_based/optimizers.rs:17-19 | the gradient-descent variant with the given learning rate |
| EnumOptimizers.NewMomentum | crates/simple_optimizers/src/enum_based/optimizers.rs:21-27 | the momentum variant with the given rates and a velocity of dim zeros |
| EnumOptimizers.Optimizer.Step | crates/simple_optimizers/src/enum_based/optimizers.rs:33-55 | the variant is kept; gradient descent leaves the optimizer unchanged and takes a gradient step; momentum replaces only the velocity, with the additive momentum step |
| EnumOptimizers.StepTests | crates/simple_optimizers/src/enum_based/optimizers.rs:92-119 | one GD step and two momentum steps from [1, 2, 3] with gradient 0.5 give [0.95, 1.95, 2.95], [0.95, 1.95, 2.95] and [0.855, 1.855, 2.855] |
| EnumsRun.RunOptimization | crates/simple_optimizers_enums/src/lib.rs:12-22 | the variant is kept; the weights (and for momentum the velocity) are the num_steps-fold iteration of the variant's rule |
| NdarrayOptimizers.GD.Run | crates/simple_optimizers_ndarray/src/optimizers.rs:47-59 | the weights after n_steps rounds are the n_steps-fold gradient iteration |
| NdarrayOptimizers.Momentum.Run | crates/simple_optimizers_ndarray/src/optimizers.rs:99-119 | the weights after n_steps rounds are the heavy-ball iteration started from a zero velocity |
| NdarrayOptimizers.NAG.Run | crates/simple_optimizers_ndarray/src/optimizers.rs:165-193 | the weights after n_steps rounds are the x-component of the NAG iteration from y_0 = x_0 and t_0 = 1 |
| NdarrayOptimizers.RunTests | crates/simple_optimizers_ndarray/src/optimizers.rs:210-247 | one GD run and a two-step momentum run from [1, 2, 3] with gradient 0.5 give [0.95, 1.95, 2.95] and [0.855, 1.855, 2.855] |
| NdarrayZip.DescendInPlace | crates/simple_optimizers_ndarray/src/optimizers.rs:55-57 | with equal shapes, the array afterwards is the gradient step of the array before |
| NdarrayZip.HeavyBallInPlace | crates/simple_optimizers_ndarray/src/optimizers.rs:110-117 | the array afterwards and the returned velocity are the heavy-ball step of the inputs, over the shortest operand |
| NdarrayZip.DescendedCopy | crates/simple_optimizers_ndarray/src/optimizers.rs:176-179 | the copy is the gradient step of the weights; the weights are not changed |
| NdarrayZip.ExtrapolateInPlace | crates/simple_optimizers_ndarray/src/optimizers.rs:183-188 | the array afterwards is y1 + c·(y1 − y0), entry by entry |
| NdarrayZip.NagRoundInPlace | crates/simple_optimizers_ndarray/src/optimizers.rs:175-191 | the new weights, y_next and t_next are one NAG step of the old state |
| TraitsNdarrayOptimizers.GD.constructor | crates/simple_optimizers/src/traits_and_ndarray/optimizers.rs:35-39 | keeps the step size |
| TraitsNdarrayOptimizers.GD.Run | crates/simple_optimizers/src/traits_and_ndarray/optimizers.rs:46-60 | the weights after n_steps rounds are the n_steps-fold gradient iteration |
| TraitsNdarrayOptimizers.AGD.constructor | crates/simple_optimizers/src/traits_and_ndarray/optimizers.rs:80-87 | keeps the step size and the momentum |
| TraitsNdarrayOptimizers.AGD.Run | crates/simple_optimizers/src/traits_and_ndarray/optimizers.rs:98-120 | the weights after n_steps rounds are the heavy-ball iteration from a zero velocity |
| TraitsNdarrayOptimizers.AdaptiveAGD.constructor | crates/simple_optimizers/src/traits_and_ndarray/optimizers.rs:143-145 | keeps the step size |
| TraitsNdarrayOptimizers.AdaptiveAGD.Run | crates/simple_optimizers/src/traits_and_ndarray/optimizers.rs:165-193 | the weights after n_steps rounds are the x-component of the NAG iteration from y_0 = x_0 and t_0 = 1 |
| PoissonElement.ShapeFunctions | crates/poisson_2d/src/element.rs:22-39 | one shape-function value per node: 3 for Tri3, 4 for Quad4 |
| PoissonElement.PartitionOfUnity | crates/poisson_2d/src/element.rs:22-39 | the shape functions of either element sum to 1 at every local point |
| PoissonElement.ShapeFunctionsKronecker | crates/poisson_2d/src/element.rs:22-39 | node i's shape function is 1 at reference node i and 0 at every other reference node |
| PoissonElement.WrittenShapeGradients | crates/poisson_2d/src/element.rs:41-69 | the gradient table as written: one entry per node, Tri3 constant, node 0's Tri3 entry (−1, 1) |
| PoissonElement.ShapeGradients | crates/poisson_2d/src/element.rs:41-69 | the gradient table with node 0's Tri3 entry corrected to (−1, −1); one entry per node |
| PoissonElement.CorrectionOnlyAtTri3Node0 | crates/poisson_2d/src/element.rs:43-67 | the corrected table equals the written one at a node exactly when the node is not Tri3's node 0 |
| PoissonElement.Quad4GradientsCancel | crates/poisson_2d/src/element.rs:50-67 | the four Quad4 gradients sum to the zero vector at every point |
| PoissonElement.Tri3GradientsConstant | crates/poisson_2d/src/element.rs:43-49 | the Tri3 gradients do not depend on the local point |
| PoissonElement.Quad4GradientsAreDerivatives | crates/poisson_2d/src/element.rs:29-37 | each Quad4 gradient component is the exact rate of change of its bilinear shape function along ξ and along η |
| PoissonElement.Tri3Node0GradientMismatch | crates/poisson_2d/src/element.rs:45 | the written η-entry 1 of node 0 disagrees with its shape function 1 − ξ − η, which falls by h under a step h; the η-entries sum to 2, not 0 |
| PoissonElement.Tri3GradientsCancel | crates/poisson_2d/src/element.rs:43-49 | the three corrected Tri3 gradients sum to the zero vector |
| PoissonElement.Tri3GradientsAreDerivatives | crates/poisson_2d/src/element.rs:24-28 | each corrected Tri3 gradient is the exact rate of change of its linear shape function in both directions |
| PoissonElement.Jacobian | crates/poisson_2d/src/element.rs:71-99 | the Jacobian is the vertex differences for Tri3 and, for Quad4, the loop's sums of gradient components times vertex coordinates over the zip |
| PoissonElement.AccumulateJacobian | crates/poisson_2d/src/element.rs:89-96 | the loop leaves the four sums over the zipped gradients and vertices |
| PoissonElement.ReferenceVertices | crates/poisson_2d/src/element.rs:12-18 | one reference vertex per node, equal to the reference node coordinates |
| PoissonElement.ReferenceJacobianIsIdentity | crates/poisson_2d/src/element.rs:71-99 | on the element's own reference vertices the Jacobian is the identity at every local point |
| PoissonElement.JacobianTranslationInvariant | crates/poisson_2d/src/element.rs:71-99 | translating all vertices leaves the Jacobian unchanged (for Quad4 with its four vertices, because its gradients cancel) |
| PoissonQuadrature.Triangle | crates/poisson_2d/src/quadrature.rs:10-26 | orders 1 and 2 give 1 and 3 points, as many weights, weights summing to 0.5 (the triangle's area) and points inside the reference triangle; other orders panic |
| PoissonQuadrature.TriangleExact | crates/poisson_2d/src/quadrature.rs:10-26 | the order-k rule integrates every monomial ξ^i·η^j with i + j ≤ k exactly: i!·j!/(i+j+2)! |
| PoissonQuadrature.QuadrilateralRule | crates/poisson_2d/src/quadrature.rs:28-49 | n = 1 or 2 gives n² points and as many weights |
| PoissonQuadrature.QuadrilateralRuleShape | crates/poisson_2d/src/quadrature.rs:34-46 | the 2×2 rule lists (−a,−a), (−a,a), (a,−a), (a,a) with a = 1/√3 and weight 1 each; both rules' weights sum to 4 and the points lie in the square |
| PoissonQuadrature.GaussAbscissaBounds | crates/poisson_2d/src/quadrature.rs:35 | 0 < 1/√3 < 1 |
| PoissonQuadrature.GaussLineExact | crates/poisson_2d/src/quadrature.rs:35-36 | the points ±a with 3a² = 1 integrate t^i exactly over [−1, 1] for i ≤ 3 |
| PoissonQuadrature.QuadrilateralExact | crates/poisson_2d/src/quadrature.rs:28-49 | the 2×2 rule integrates ξ^i·η^j exactly over the square for i, j ≤ 3, the one-point rule for i, j ≤ 1 |
| PoissonQuadrature.Quadrilateral | crates/poisson_2d/src/quadrature.rs:28-49 | the nested loops over ξ and η build exactly the rule QuadrilateralRule describes |
| PoissonMesh.NewMesh | crates/poisson_2d/src/mesh.rs:15-25 | the mesh stores its three arguments unchecked, each returned by its accessor |
| PoissonMesh.AccessorsRebuildMesh | crates/poisson_2d/src/mesh.rs:26-36 | building a mesh from its three accessors gives the same mesh |
| PoissonMesh.UnitSquareMesh | crates/poisson_2d/src/mesh.rs:46-65 | the test's unit-square mesh has 4 vertices, 1 element and type Q1 |
| PoissonAssembly.AssembledMatrix | crates/poisson_2d/src/solver.rs:77-82 | global entry (r, c) is the sum, over the elements in order, of the ke entries whose pair of vertex indices is (r, c) |
| PoissonAssembly.AssembledLoad | crates/poisson_2d/src/solver.rs:77-78 | global load entry r is the sum, over the elements, of the fe entries whose vertex index is r |
| PoissonAssembly.SumExchange | crates/poisson_2d/src/solver.rs:77-82 | summing an element's pair weights row by row or column by column gives the same total |
| PoissonAssembly.ContributionSymmetric | crates/poisson_2d/src/solver.rs:77-82 | a symmetric ke adds the same amount to (r, c) and (c, r), even with repeated vertex indices |
| PoissonAssembly.MatrixEntrySymmetric | crates/poisson_2d/src/solver.rs:31-83 | scattering symmetric local matrices gives symmetric global entries |
| PoissonAssembly.AssembledMatrixSymmetric | crates/poisson_2d/src/solver.rs:31-83 | the assembled n×n matrix is symmetric when every ke is |
| PoissonAssembly.MatrixEntryAppend | crates/poisson_2d/src/solver.rs:31-83 | assembling s1 then s2 gives the sum of the two assemblies, entry by entry |
| PoissonAssembly.LoadEntryAppend | crates/poisson_2d/src/solver.rs:31-83 | the load of s1 then s2 is the sum of the two loads |
| PoissonAssembly.AssemblyOrderIndependent | crates/poisson_2d/src/solver.rs:31-83 | swapping two groups of elements leaves A and b unchanged |
| PoissonAssembly.ContributionAvoids | crates/poisson_2d/src/solver.rs:77-82 | an element whose indices avoid v adds nothing to row v or column v |
| PoissonAssembly.UnusedVertexStaysZero | crates/poisson_2d/src/solver.rs:31-83 | a vertex no element names keeps a zero row, a zero column and a zero load entry |
| PoissonAssembly.ZeroLoadsStayZero | crates/poisson_2d/src/solver.rs:77-78 | zero local load vectors give a zero global load |
| PoissonSolver.QuadRuleForIsExact | crates/poisson_2d/src/solver.rs:25-28 | the rule chosen for each element type has one weight per point and integrates every monomial of degree ≤ 2 exactly over its reference element |
| PoissonSolver.Gather | crates/poisson_2d/src/solver.rs:33-37 | the element's nodes are the mesh vertices at its indices, in local order |
| PoissonSolver.PhysicalGradients | crates/poisson_2d/src/solver.rs:47-54 | each physical gradient is mapped back to its reference gradient by Jᵀ (it is J⁻ᵀ·g) |
| PoissonSolver.PointDataAt | crates/poisson_2d/src/solver.rs:42-67 | at each quadrature point: one physical gradient and one shape value per node, and a weight w·\|det J\| that is non-negative for w ≥ 0, for any gradient table with one entry per node, the table of element.rs as written included |
| PoissonSolver.PointDataList | crates/poisson_2d/src/solver.rs:42 | one point record per zipped (point, weight) pair, each fitting the element, for any gradient table with one entry per node, the table of element.rs as written included |
| PoissonSolver.AddPointStiffness | crates/poisson_2d/src/solver.rs:68-71 | one quadrature point adds (gᵢ·gⱼ)·weight to every ke[i][j] |
| PoissonSolver.AddPointLoad | crates/poisson_2d/src/solver.rs:72 | one quadrature point adds Nᵢ·f·weight to every fe[i] |
| PoissonSolver.LocalStiffness | crates/poisson_2d/src/solver.rs:40-74 | ke summed over the points is n×n and symmetric, whatever the gradients and weights |
| PoissonSolver.AddPointKeepsSymmetric | crates/poisson_2d/src/solver.rs:68-71 | one point's terms keep a symmetric ke symmetric |
| PoissonSolver.LocalLoad | crates/poisson_2d/src/solver.rs:41-74 | fe has n entries, and is zero when f vanishes at every quadrature point |
| PoissonSolver.ElementSystem | crates/poisson_2d/src/solver.rs:31-74 | an element's local system keeps its indices, a symmetric n×n ke and an fe of n entries, for any gradient table with one entry per node, the table of element.rs as written included |
| PoissonSolver.ElementSystems | crates/poisson_2d/src/solver.rs:31-83 | one local system per element of the mesh, in order, with that element's indices, for any gradient table with one entry per node, the table of element.rs as written included |
| PoissonSolver.DenseMatrixSymmetric | crates/poisson_2d/src/solver.rs:9-86 | the assembled stiffness matrix A is symmetric, for any gradient table with one entry per node, the table of element.rs as written included |
| PoissonSolver.DenseUnusedVertex | crates/poisson_2d/src/solver.rs:9-86 | a vertex no element uses has a zero row and column in A and a zero entry in b, for any gradient table with one entry per node, the table of element.rs as written included |
| PoissonSolver.DenseZeroSource | crates/poisson_2d/src/solver.rs:9-86 | with f ≡ 0 the load vector b is zero, for any gradient table with one entry per node, the table of element.rs as written included |
| PoissonSolver.SystemsOfAppend | crates/poisson_2d/src/solver.rs:31 | the local systems of E1 followed by E2 are those of E1 followed by those of E2 |
| PoissonSolver.DenseAssemblyOrderIndependent | crates/poisson_2d/src/solver.rs:9-86 | assembling the elements in the order E1, E2 or E2, E1 gives the same A and b, for any gradient table with one entry per node, the table of element.rs as written included |
| PoissonSolver.GatherNodes | crates/poisson_2d/src/solver.rs:33-37 | the loop collects exactly the gathered nodes |
| PoissonSolver.TransformGradients | crates/poisson_2d/src/solver.rs:50-54 | the loop collects J⁻ᵀ·g for every reference gradient, in order |
| PoissonSolver.PhysicalCoordinates | crates/poisson_2d/src/solver.rs:57-63 | the loop's (x, y) is the isoparametric image Σ Nᵢ·vᵢ over the zip of shape values and nodes |
| PoissonSolver.AccumulatePoint | crates/poisson_2d/src/solver.rs:68-73 | the loop over i leaves ke and fe with one point's terms added |
| PoissonSolver.AddToRow | crates/poisson_2d/src/solver.rs:69-71 | the loop over j adds (gᵢ·gⱼ)·weight to each entry of row i |
| PoissonSolver.PointQuantities | crates/poisson_2d/src/solver.rs:44-67 | the loop body computes exactly the point record of PointDataAt, for any gradient table with one entry per node, the table of element.rs as written included |
| PoissonSolver.LocalStep | crates/poisson_2d/src/solver.rs:42-74 | one more quadrature point extends ke and fe by that point's terms |
| PoissonSolver.LocalSystemAt | crates/poisson_2d/src/solver.rs:40-74 | the quadrature loop leaves ke and fe equal to the local stiffness and load over all zipped points, for any gradient table with one entry per node, the table of element.rs as written included |
| PoissonSolver.ScatterElement | crates/poisson_2d/src/solver.rs:77-82 | after the scatter loops, A gains the element's contribution at every (r, c) and b at every r |
| PoissonSolver.AddElement | crates/poisson_2d/src/solver.rs:31-83 | one pass of the element loop, with the written table, extends A and b from the scatter of the first k local systems to that of the first k + 1 |
| PoissonSolver.QuadRuleOf | crates/poisson_2d/src/solver.rs:25-28 | P1 takes triangle(2) and Q1 quadrilateral(2) |
| PoissonSolver.AssembleSystemDense | crates/poisson_2d/src/solver.rs:9-86 | with the Tri3 gradients of element.rs as written, A is \|vertices\|×\|vertices\| and b has \|vertices\| entries, each the scatter of the elements' local systems in mesh order |
| PoissonSolver.AssembleSystemSparse | crates/poisson_2d/src/solver.rs:89-104 | the coordinate triplets are (i, i, 1) for every vertex, so the matrix is the identity; b is zero; the source is ignored |
| PoissonSolver.ReferenceTriangleLocal | crates/poisson_2d/src/solver.rs:40-74 | on the reference triangle, J = I, so ke[i][j] of a three-point rule is Σ_q (gᵢ·gⱼ)(p_q)·w_q over the table's own gradients |
| PoissonSolver.ReferenceTriangleScatter | crates/poisson_2d/src/solver.rs:31-83 | for the one-element mesh on the reference triangle, A[i][j] is the element's ke[i][j] |
| PoissonSolver.WrittenReferenceTriangleCoupling | crates/poisson_2d/src/solver.rs:44-71 | with element.rs's table as written, ke[0][2] on the reference triangle is +(w₀ + w₁ + w₂) |
| PoissonSolver.CorrectedReferenceTriangleCoupling | crates/poisson_2d/src/solver.rs:44-71 | with node 0's gradient (−1, −1), the same entry is −(w₀ + w₁ + w₂) |
| PoissonSolver.WrittenAssembledCoupling | crates/poisson_2d/src/solver.rs:9-86 | as the code is written, A[0][2] of the one-element reference-triangle mesh is 0.5 |
| PoissonSolver.CorrectedAssembledCoupling | crates/poisson_2d/src/solver.rs:9-86 | with node 0's gradient corrected to (−1, −1), the same A[0][2] is −0.5 |
| Ridge1dFnEstimator.RidgeEstimator | crates/ridge_1d_fn/src/estimator.rs:19-35 | the estimate β solves the centred normal equation β·(Σ(xᵢ − x̄)² + λ₂n) = Σ(xᵢ − x̄)(yᵢ − ȳ) |
| Ridge1dFnEstimator.DenominatorPositive | crates/ridge_1d_fn/src/estimator.rs:32 | with λ₂ > 0 the denominator is positive, so the division never fails on non-empty data |
| Ridge1dFnEstimator.DenominatorShift | crates/ridge_1d_fn/src/estimator.rs:23-32 | translating every xᵢ by c leaves the denominator unchanged |
| Ridge1dFnEstimator.ShiftInvariant | crates/ridge_1d_fn/src/estimator.rs:19-35 | translating x by c and y by d leaves the estimate unchanged (and keeps the denominator non-zero) |
| Ridge1dFnEstimator.RidgeEstimatorTestValue | crates/ridge_1d_fn/src/estimator.rs:44-57 | on x = [1, 2], y = [0.1, 0.2] with λ₂ = 0 the estimate is exactly 0.1 |
| Ridge1dFnGradientDescent.InlineSum | crates/ridge_1d_fn/src/gradient_descent.rs:80-84 | the fused map-and-sum Σ 2(yᵢ − βxᵢ)xᵢ is twice the residual cross sum |
| Ridge1dFnGradientDescent.GradNaive | crates/ridge_1d_fn/src/gradient_descent.rs:41-53 | the residuals collected and dotted with x give −2·Σ(yᵢ − βxᵢ)xᵢ/n + 2λ₂β |
| Ridge1dFnGradientDescent.GradInline | crates/ridge_1d_fn/src/gradient_descent.rs:76-88 | the fused map-and-sum gives the same −2·Σ(yᵢ − βxᵢ)xᵢ/n + 2λ₂β, so the two versions are one gradient |
| Ridge1dFnGradientDescent.GradNaiveEqualsInline | crates/ridge_1d_fn/src/gradient_descent.rs:41-88 | the naive and the inline gradient agree on every equal-length non-empty input |
| Ridge1dFnGradientDescent.GradTestValues | crates/ridge_1d_fn/src/gradient_descent.rs:133-178 | on x = [1, 2], y = [0.1, 0.2], β = 0.1, λ₂ = 1 both gradients are 0.2 |
| Ridge1dFnGradientDescent.GradIsLossSlope | crates/ridge_1d_fn/src/gradient_descent.rs:76-88 | for the loss of loss_functions.rs, L(β + h) − L(β) = h·grad(β) + h²·(Σxᵢ²/n + λ₂): the gradient is the loss's derivative |
| Ridge1dFnGradientDescent.ClosedFormZeroesCentredGradient | crates/ridge_1d_fn/src/gradient_descent.rs:41-53 | on centred data the naive gradient vanishes at the closed-form estimate of estimator.rs |
| Ridge1dFnGradientDescent.NormalEquationZeroesCentredGradient | crates/ridge_1d_fn/src/gradient_descent.rs:41-53 | any β that solves the centred normal equation is a stationary point of the centred gradient |
| Ridge1dFnGradientDescent.CentredGradient | crates/ridge_1d_fn/src/gradient_descent.rs:41-53 | on centred data the gradient is −2(Sxy − βSxx)/n + 2λ₂β in the centred sums of the estimator |
| Ridge1dFnGradientDescent.GradInlineAffine | crates/ridge_1d_fn/src/gradient_descent.rs:76-88 | the inline gradient is its slope 2(Σxᵢ² + λ₂n)/n times the distance from β to Σxᵢyᵢ/(Σxᵢ² + λ₂n) |
| Ridge1dFnGradientDescent.InlineDescentContraction | crates/ridge_1d_fn/src/gradient_descent.rs:107-124 | after k rounds along the inline gradient, β − β* = (1 − lr·a)^k·(β₀ − β*), with β* the uncentred ridge coefficient and a the gradient's slope |
| Ridge1dFnGradientDescent.RidgeEstimator | crates/ridge_1d_fn/src/gradient_descent.rs:107-124 | the returned β is n_iters rounds of β −= lr·grad_fn(x, y, β, λ₂) from init_beta |
| Ridge1dFnLib.Fit | crates/ridge_1d_fn/src/lib.rs:19-21 | the fitted coefficient solves the centred normal equation |
| Ridge1dFnLib.FitIsStationary | crates/ridge_1d_fn/src/lib.rs:19-21 | the fitted coefficient zeroes the gradient of gradient_descent.rs on the centred data |
| Ridge1dFnLib.Predict | crates/ridge_1d_fn/src/lib.rs:33-35 | one prediction per input, the i-th being xᵢ·β; an empty input gives an empty prediction |
| RidgeLosses.LossNaive | crates/ridge_1d_fn/src/loss_functions.rs:87-95 | the loss is at least the penalty λ₂β² (the mean squared residual is non-negative) |
| RidgeLosses.LossInline | crates/ridge_1d_fn/src/loss_functions.rs:113-126 | the loss is at least the penalty λ₂β², also when x and y differ in length |
| RidgeLosses.SumOfSquaredResiduals | crates/ridge_1d_fn/src/loss_functions.rs:91-93 | squaring and summing the collected residual vector gives the fused residual sum |
| RidgeLosses.NaiveEqualsInline | crates/ridge_1d_fn/src/loss_functions.rs:87-126 | for equal-length non-empty input the two losses are equal |
| RidgeLosses.LossAtExactFit | crates/ridge_1d_fn/src/loss_functions.rs:87-126 | on data lying on y = βx both losses are the penalty alone |
| RidgeLosses.LossTestValues | crates/ridge_1d_fn/src/loss_functions.rs:135-166 | on the tests' data both losses equal 0.01, positive and equal |
| Ridge1dStruct.PredictFromBeta | crates/ridge_1d_struct/src/regressor.rs:40-42 | one prediction per input, the i-th being β·xᵢ |
| Ridge1dStruct.RidgeGradientDescent.constructor | crates/ridge_1d_struct/src/regressor.rs:48-54 | the model holds init_beta, n_iters and lr |
| Ridge1dStruct.RidgeGradientDescent.Fit | crates/ridge_1d_struct/src/regressor.rs:81-86 | beta becomes n_iters rounds of β −= lr·grad_function from the current beta; nothing else changes |
| Ridge1dStruct.RidgeGradientDescent.Predict | crates/ridge_1d_struct/src/regressor.rs:89-91 | one prediction per input, β·xᵢ with the stored beta |
| Ridge1dStruct.RidgeEstimator.constructor | crates/ridge_1d_struct/src/regressor.rs:98-100 | the model holds init_beta |
| Ridge1dStruct.RidgeEstimator.Fit | crates/ridge_1d_struct/src/regressor.rs:107-124 | beta is overwritten with the centred closed-form estimate, whatever it held |
| Ridge1dStruct.RidgeEstimator.Predict | crates/ridge_1d_struct/src/regressor.rs:127-129 | one prediction per input, β·xᵢ with the stored beta |
| Ridge1dStruct.GdTestConverges | crates/ridge_1d_struct/src/regressor.rs:157-172 | 100 rounds with lr 0.1 from 0 on the tests' data end within 1e-6 of 0.1 |
| Ridge1dStruct.TestDataContraction | crates/ridge_1d_struct/src/regressor.rs:60-86 | on the tests' data k rounds from 0 leave β − 0.1 = −0.1·0.5^k |
| Ridge1dStruct.TestDataSlope | crates/ridge_1d_struct/src/regressor.rs:60-74 | on the tests' data the gradient has slope 5 and vanishes at 0.1 |
| Ridge1dStruct.EstimatorTestScenario | crates/ridge_1d_struct/src/regressor.rs:139-154 | fitting the closed-form model on the tests' data from 0 gives exactly 0.1 |
| Ridge1dStruct.GdTestScenario | crates/ridge_1d_struct/src/regressor.rs:157-172 | the gradient-descent model fitted on the tests' data ends within 1e-6 of 0.1 |
| Ridge1dStruct.EstimatorVersusGdScenario | crates/ridge_1d_struct/src/regressor.rs:175-192 | the two models' coefficients agree within 1e-6 |
| RidgeUtils.MulScalarVec | crates/ridge_regression_1d/src/utils.rs:19-21 | one entry per input, each the input times the scalar |
| RidgeUtils.SubtractVectors | crates/ridge_regression_1d/src/utils.rs:39-42 | on equal lengths, the entrywise difference a[i] − b[i] with a's length |
| RidgeUtils.DotSymmetric | crates/ridge_1d_fn/src/gradient_descent.rs:15-18 | dot(a, b) = dot(b, a) for equal-length a and b; the same `dot`, with the same length assertion, is crates/ridge_regression_1d/src/utils.rs:59-62 |
| RidgeUtils.DotSelfNonNegative | crates/ridge_regression_1d/src/utils.rs:59-62 | dot(a, a) is never negative; the same holds for the `dot` of crates/ridge_1d_fn/src/gradient_descent.rs:15-18 |
| RidgeMath.Mean | crates/ridge_1d_fn/src/estimator.rs:23-24 | for non-empty s, the mean r satisfies r·n = Σs, with n = |s|; every closed-form estimator takes x̄ and ȳ this way (also crates/ridge_regression_1d/src/functional_std/analytical.rs:22-23, generics_std/gen_regressor.rs:52-53, structured_ndarray/regressor.rs:40-41) |
| RidgeUtils.Residuals | crates/ridge_regression_1d/src/grad_functions.rs:27-31 | one residual yi − β·xi per sample |
| RidgeUtils.DotResiduals | crates/ridge_regression_1d/src/grad_functions.rs:27-33 | dotting the collected residuals with x gives the fused sum Σ (yi − β·xi)·xi |
| RidgeUtils.CentredDotResiduals | crates/ridge_1d_fn/src/gradient_descent.rs:41-53 | on centred data, dot(residuals, x) is the centred cross sum minus β times the centred sum of squares |
| RidgeUtils.ResidualsBySubtraction | crates/ridge_regression_1d/src/utils.rs:19-42 | y − mul_scalar_vec(β, x) built with the two helpers is the residual vector |
| RidgeRegressionGradients.GradNaiveEqualsInline | crates/ridge_regression_1d/src/grad_functions.rs:23-69 | the gradient through collected residuals and `dot` equals the fused single-pass gradient |
| RidgeRegressionGradients.GradNaive | crates/ridge_regression_1d/src/grad_functions.rs:23-34 | −Σ(yi − β·xi)·xi/n + 2λ₂β, through the residual vector and `dot` |
| RidgeRegressionGradients.GradInline | crates/ridge_regression_1d/src/grad_functions.rs:57-69 | the fused pass splits into −(Σ xi·yi − β·Σ xi²)/n + 2λ₂β, affine in β |
| RidgeRegressionGradients.ExactFitGradient | crates/ridge_regression_1d/src/grad_functions.rs:23-69 | on data on the line y = β·x both gradients reduce to the penalty term 2·λ₂·β |
| RidgeRegressionGradients.GradInlineAffine | crates/ridge_regression_1d/src/grad_functions.rs:57-69 | the gradient is its positive slope (Σ xi² + 2λ₂n)/n times the distance from β to Σ xi·yi / (Σ xi² + 2λ₂n), where it vanishes |
| RidgeRegressionGradients.InlineDescentContraction | crates/ridge_regression_1d/src/grad_functions.rs:57-69 | k rounds of descent along this gradient multiply the distance to its zero by (1 − lr·slope)^k |
| RidgeRegressionOptimizer.GradientDescent | crates/ridge_regression_1d/src/optimizer.rs:17-34 | the loop returns the n_iters-th iterate of β ← β − lr·grad(x, y, β, λ₂), and init_beta when n_iters = 0 |
| RidgeRegressionOptimizer.ConstantGradientScenario | crates/ridge_regression_1d/src/optimizer.rs:17-34 | with a gradient that is constantly g the result is init_beta − n_iters·lr·g |
| RidgeRegressionLib.Fit | crates/ridge_regression_1d/src/lib.rs:28-38 | `fit` is gradient descent with the fused gradient, returning init_beta after zero rounds |
| RidgeRegressionLib.FitContraction | crates/ridge_regression_1d/src/lib.rs:28-38 | the fitted β approaches Σ xi·yi / (Σ xi² + 2λ₂n) geometrically, by the factor (1 − lr·slope) per round |
| RidgeRegressionLib.Predict | crates/ridge_regression_1d/src/lib.rs:50-52 | one prediction xi·β per input |
| RidgeRegressionLib.PredictZero | crates/ridge_regression_1d/src/lib.rs:50-52 | β = 0 predicts zero everywhere |
| RidgeRegressionLib.PredictLinear | crates/ridge_regression_1d/src/lib.rs:50-52 | prediction is linear in the coefficient |
| RidgeRegressionLib.PredictReproducesExactData | crates/ridge_regression_1d/src/lib.rs:50-52 | on data on the line y = β·x the prediction reproduces the targets |
| Ridge1dGeneric.GenRidgeEstimator.constructor | crates/ridge_1d_generic/src/regressor.rs:30-32 | the estimator starts from the given β |
| Ridge1dGeneric.GenRidgeEstimator.Fit | crates/ridge_1d_generic/src/regressor.rs:47-64 | β becomes the closed-form centred ridge estimate of the 1-D function crate |
| Ridge1dGeneric.GenRidgeEstimator.Predict | crates/ridge_1d_generic/src/regressor.rs:73-75 | one prediction xi·β per input |
| Ridge1dGeneric.SolutionScenario | crates/ridge_1d_generic/src/regressor.rs:85-100 | fitting x = [1, 2], y = [0.1, 0.2] with λ₂ = 0 from β = 0 gives β = 0.1 |
| FunctionalStd.Fit | crates/ridge_regression_1d/src/functional_std/mod.rs:26-36 | `fit` is gradient descent with the fused gradient from init_beta, which it returns after zero rounds |
| FunctionalStd.Predict | crates/ridge_regression_1d/src/functional_std/mod.rs:48-50 | one prediction xi·β per input |
| FunctionalStd.PredictAdditive | crates/ridge_regression_1d/src/functional_std/mod.rs:48-50 | predicting with a + b adds the predictions with a and with b |
| FunctionalStdAnalytical.RidgeEstimator | crates/ridge_regression_1d/src/functional_std/analytical.rs:18-34 | the estimate β solves β·(Σ(xi − x̄)² + λ₂) = Σ(xi − x̄)(yi − ȳ) |
| FunctionalStdAnalytical.DenominatorPositive | crates/ridge_regression_1d/src/functional_std/analytical.rs:31 | with λ₂ > 0 the denominator is positive, so the division is defined |
| FunctionalStdAnalytical.ShiftInvariant | crates/ridge_regression_1d/src/functional_std/analytical.rs:22-33 | adding a constant to every x and another to every y leaves the estimate unchanged |
| FunctionalStdAnalytical.AgreesWithScaledPenalty | crates/ridge_regression_1d/src/functional_std/analytical.rs:31 | with the penalty λ₂·n this estimator equals the ridge_1d_fn estimator with the penalty λ₂: the crates differ only in how the penalty is scaled |
| FunctionalStdAnalytical.AgreesAtZeroPenalty | crates/ridge_regression_1d/src/functional_std/analytical.rs:18-34 | without a penalty the two closed forms coincide |
| FunctionalStdLosses.WrittenLossSlopeIsTwiceGradient | crates/ridge_regression_1d/src/functional_std/loss_functions.rs:45-84 | as written, at x = [1], y = [1], β = 0, λ₂ = 0 both losses have slope −2 while the crate's gradient is −1 |
| FunctionalStdLosses.HalvedLoss | crates/ridge_regression_1d/src/functional_std/loss_functions.rs:22 | the documented loss Σ(yi − β·xi)²/(2n) + λ₂β² is at least its penalty term |
| FunctionalStdLosses.GradIsHalvedLossSlope | crates/ridge_regression_1d/src/grad_functions.rs:57-69 | moving β by h changes the documented loss by h times the crate's gradient plus h²·(Σ xi²/(2n) + λ₂), so the gradient is its exact slope |
| StructuredStd.Loss | crates/ridge_regression_1d/src/structured_std/regressor.rs:6-19 | the loss over the zipped prefix, divided by 2n with n = \|y\|, is at least the penalty λ₂β² |
| StructuredStd.Gradient | crates/ridge_regression_1d/src/structured_std/regressor.rs:21-35 | `grad_function` is −(Σ xi·yi − β·Σ xi²)/n + 2λ₂β, affine in β |
| StructuredStd.GradientIsLossSlope | crates/ridge_regression_1d/src/structured_std/regressor.rs:6-35 | moving β by h changes the loss by h times `grad_function` plus a term in h², so the gradient is the loss's slope |
| StructuredStd.ExactFit | crates/ridge_regression_1d/src/structured_std/regressor.rs:6-35 | on data on the line y = β·x the loss is λ₂β² and the gradient is its derivative 2λ₂β |
| StructuredStd.RidgeRegressor.Fit | crates/ridge_regression_1d/src/structured_std/regressor.rs:37-54 | β is reset to init_beta and descended for max(n_iters, 0) rounds, whatever it was before; the returned loss is the loss at the final β |
| StructuredStd.RidgeRegressor.Predict | crates/ridge_regression_1d/src/structured_std/regressor.rs:56-58 | one prediction β·xi per input |
| StructuredNdarray.RidgeEstimator.constructor | crates/ridge_regression_1d/src/structured_ndarray/regressor.rs:21-23 | a new estimator has no coefficient |
| StructuredNdarray.RidgeEstimator.Fit | crates/ridge_regression_1d/src/structured_ndarray/regressor.rs:34-47 | β becomes Some of the centred closed-form estimate with penalty λ₂·n |
| StructuredNdarray.RidgeEstimator.Predict | crates/ridge_regression_1d/src/structured_ndarray/regressor.rs:61-66 | fails with "Model not fitted" exactly when there is no coefficient; otherwise one prediction β·xi per input |
| StructuredNdarray.UnfittedScenario | crates/ridge_regression_1d/src/structured_ndarray/regressor.rs:83-90 | predicting with a new estimator fails with "Model not fitted" |
| StructuredNdarray.SolutionScenario | crates/ridge_regression_1d/src/structured_ndarray/regressor.rs:93-110 | fitting x = [1, 2], y = [0.1, 0.2] with λ₂ = 0 stores Some(0.1), and the model then predicts [0.1, 0.2] |
| GenericsStdGenRegressor.GenRidgeEstimator.constructor | crates/ridge_regression_1d/src/generics_std/gen_regressor.rs:30-32 | the estimator starts from the given β |
| GenericsStdGenRegressor.GenRidgeEstimator.Fit | crates/ridge_regression_1d/src/generics_std/gen_regressor.rs:47-64 | β becomes the centred closed-form estimate with penalty λ₂·n, whatever it was before |
| GenericsStdGenRegressor.GenRidgeEstimator.Predict | crates/ridge_regression_1d/src/generics_std/gen_regressor.rs:73-75 | one prediction xi·β per input |
| GenericsStdGenRegressor.SolutionScenario | crates/ridge_regression_1d/src/generics_std/gen_regressor.rs:47-64 | fitting x = [1, 2], y = [0.1, 0.2] with λ₂ = 0 from β = 0 gives β = 0.1 |
| GenericsStdGenericRegressor.GenRidgeRegressor.LossFunction | crates/ridge_regression_1d/src/generics_std/generic_regressor.rs:10-24 | the loss over the zipped prefix divided by 2n, n = \|x\|, is at least the penalty λ₂β² |
| GenericsStdGenericRegressor.LossNonNegative | crates/ridge_regression_1d/src/generics_std/generic_regressor.rs:10-24 | with λ₂ ≥ 0 the loss is non-negative |
| GenericsStdGenericRegressor.LossAtExactFit | crates/ridge_regression_1d/src/generics_std/generic_regressor.rs:10-24 | on data on the line y = β·x only the penalty λ₂β² is left |
| Matrix2Algebra.Inverse | crates/poisson_2d/src/solver.rs:47 | `try_inverse` of a matrix with non-zero determinant is a two-sided inverse |
| Matrix2Algebra.InverseTransposeUndone | crates/poisson_2d/src/solver.rs:47-54 | Jᵀ maps the physical gradient J⁻ᵀ·g back to the reference gradient g, the chain rule the assembly relies on |
| KrrModel.KernelColumn | crates/krr_ndarray/src/model.rs:75-80 | one kernel value per training row, the j-th being k(x_j, t) |

## Left out

- Floating point: `real` replaces `f64`, so rounding, overflow, NaN and infinities are not modelled. The exception is the LOO error, where a division by a zero diagonal entry or by n = 0 is the value `NotFinite`.
- Divisions that yield NaN or ±∞ in the source are preconditions instead: a mean or gradient over empty data, and a zero closed-form denominator. This covers all the ridge estimators, gradients and losses.
- Ridge1dStruct.RidgeGradientDescent.Fit: requires non-empty data when at least one round runs, because the gradient divides by n. With zero rounds it accepts any data, as the source never evaluates the gradient. The same holds for the other gradient-descent loops.
- Foreign numeric code is represented by parameters with the laws listed above: `exp`, `sqrt`, √3, the Cholesky factorisation and solve, `solve_into`, `inv` and `try_inverse`.
  - `inv` is taken to return an n×n matrix, so the `expect("Inversion failed")` panic at crates/krr_ndarray/src/model_selection.rs:25 is not modelled.
  - `try_inverse().unwrap()` in the Poisson assembly is a precondition: the Jacobian is invertible at every quadrature point.
- The random default Kalman state (`thread_rng` and `StandardNormal`) is the parameter `draw`.
- Convergence to a tolerance with f64 arithmetic is not stated. The contraction lemmas state the exact geometric rate over the reals instead.
- ndarray broadcasting and its shape-mismatch panics are not modelled. Operands of equal length or shape are preconditions; this is why KrrModel.KRRModel.Predict requires test rows with as many columns as the training rows.
- KrrModel.KRRModel.FitUnchecked: requires |y| to equal the number of training rows, as `_fit` is only reached from `fit` after that check.
- The generic parameter `K: Kernel` of `KRRModel`, `loo_cv_error` and `tune_lengthscale` is fixed to `RBFKernel`, the only implementation. The KRRModel constructor requires a valid kernel, which `RBFKernel::new` guarantees.
- The trait-generic drivers (`run_optimization<O: Optimizer>`) are instantiated once per implementor, because the model has no traits.
- crates/ridge_regression_1d/src/functional_std/grad_functions.rs is not part of this model. `functional_std::fit` is modelled with the crate-level fused gradient of crates/ridge_regression_1d/src/grad_functions.rs.
- The `optimizers` module of simple_optimizers_enums is not part of this model. Its `run_optimization` is modelled over the enum optimizer of crates/simple_optimizers/src/enum_based/optimizers.rs.
- crates/ridge_regression_1d/src/loss_functions.rs, declared in that crate's lib.rs, is not part of this model.
- Console output is not modelled: the `run_demo` functions, the two `main.rs` files, and the `eprintln!` calls at crates/krr_ndarray/src/model.rs:51, 57 and 61.
- Files that only wire modules together are not modelled: the `lib.rs` and `mod.rs` re-export files, and the dispatcher at crates/poisson_2d/src/lib.rs:34-50, whose targets are not defined in crates/poisson_2d/src/solver.rs.
- Poisson code that only calls solvers or does nothing is not modelled: `_solve_dense` and `_solve_sparse` (crates/poisson_2d/src/solver.rs:113-121) and the empty `_apply_dirichlet_dense` and `_apply_dirichlet_sparse` (solver.rs:107 and 110).
- `Element` and `ElementType`, which crates/poisson_2d/src/mesh.rs imports from a module that does not define them, are declared in `PoissonMesh`. Index ranges and element homogeneity are not validated by the mesh, so the assembly requires them.
- The reads of the private `KRRModel` fields at crates/krr_ndarray/src/model_selection.rs:9-10 are modelled as plain field reads.
- PoissonElement.Jacobian: the Quad4 Jacobian is proved equal to the accumulation loop, to the identity on the reference square and invariant under translation. That it is the derivative of the isoparametric map is not stated.

## Findings

| source | as written | input that shows it | evidently intended | confidence | as-written member | corrected member |
|---|---|---|---|---|---|---|
| crates/ridge_regression_1d/src/functional_std/loss_functions.rs:51 | both losses divide the squared residual sum by n | x = [1], y = [1], β = 0, λ₂ = 0: the loss has slope −2 in β, while the crate's gradient is −1 | Σ(yi − β·xi)²/(2n) + λ₂β², as the doc comment at line 22 states and as the gradient of grad_functions.rs assumes | not executed | FunctionalStdLosses.WrittenLossSlopeIsTwiceGradient | FunctionalStdLosses.HalvedLoss, FunctionalStdLosses.GradIsHalvedLossSlope |
| crates/poisson_2d/src/element.rs:45 | the Tri3 gradient of node 0 is (−1, 1) | any point p: the η-derivative of N₀ = 1 − ξ − η is −1, and the three listed η-gradients sum to 2 instead of 0; on the one-element reference-triangle mesh, A[0][2] = 0.5 | (−1, −1), the gradient of N₀, giving A[0][2] = −0.5 | not executed | PoissonElement.WrittenShapeGradients, PoissonElement.Tri3Node0GradientMismatch, PoissonSolver.WrittenAssembledCoupling | PoissonElement.ShapeGradients, PoissonElement.Tri3GradientsAreDerivatives, PoissonSolver.CorrectedAssembledCoupling |

- The losses of functional_std are modelled as written, by `RidgeLosses`, whose code is identical. `FunctionalStdLosses.HalvedLoss` is the documented loss, and the crate's gradient is proved to be its exact slope.
- `PoissonElement.WrittenShapeGradients` keeps the table as written. `CorrectionOnlyAtTri3Node0` proves that it differs from the corrected `ShapeGradients` only at Tri3 node 0. The assembly of `PoissonSolver` takes the gradient table as a parameter, and `AssembleSystemDense` uses the table as written. `WrittenAssembledCoupling` and `CorrectedAssembledCoupling` show the effect on the reference triangle: A[0][2] is 0.5 as written and −0.5 with the corrected gradient. The properties proved about the assembly (symmetry, additivity, element-order independence, untouched vertices, zero loads) hold for any gradient table.
