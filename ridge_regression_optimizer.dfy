/**
 * ridge_regression_1d/src/optimizer.rs: `gradient_descent` runs `n_iters`
 * rounds of beta -= lr * grad_fn(x, y, beta, lambda2) from `init_beta`.
 */
module RidgeRegressionOptimizer {
  import opened RidgeMath

  method GradientDescent(gradFn: (seq<real>, seq<real>, real, real) --> real, x: seq<real>, y: seq<real>,
                         lambda2: real, lr: real, nIters: nat, initBeta: real) returns (beta: real)
    requires nIters > 0 ==> forall b :: gradFn.requires(x, y, b, lambda2)
    ensures beta == GdBeta(gradFn, x, y, lambda2, lr, nIters, initBeta)
    ensures nIters == 0 ==> beta == initBeta
  {
    beta := initBeta;
    for i := 0 to nIters
      invariant beta == GdBeta(gradFn, x, y, lambda2, lr, i, initBeta)
    {
      var grad := gradFn(x, y, beta, lambda2);
      beta := beta - lr * grad;
    }
  }

  /** With a constant gradient `g` the result is init_beta - n_iters·lr·g. */
  method ConstantGradientScenario(g: real, x: seq<real>, y: seq<real>, lambda2: real, lr: real, nIters: nat,
                                  initBeta: real) returns (beta: real)
    ensures beta == initBeta - (nIters as real) * lr * g
  {
    beta := GradientDescent((_, _, _, _) => g, x, y, lambda2, lr, nIters, initBeta);
    GdBetaConstantGradient(g, x, y, lambda2, lr, nIters, initBeta);
  }
}
