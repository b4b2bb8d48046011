/**
 * kalman_filter/src/algorithm.rs: a linear Kalman filter with state x,
 * covariance P, transition A, observation H and noise covariances Q and R.
 * `new` validates the dimensions with an ordered list of guards, `step`
 * predicts and then, when an observation is given, updates with the Joseph
 * form of the covariance update. The Cholesky factorisation of the
 * innovation covariance is a foreign call: it is a pair of parameters, a
 * test `isSpd` that says whether the factorisation exists and a `solve`
 * with the law `SolverLaw`. The random default state is the parameter
 * `draw` (one standard-normal sample per coordinate).
 */
module KalmanFilterAlgorithm {
  import opened Outcomes
  import opened DenseMatrix

  /** `KalmanError`: the innovation covariance has no Cholesky factor, or a dimension is wrong. */
  datatype KalmanError = InnovationNotSpd | Dim(message: string)

  const ASquare: string := "A must be square"
  const QShape: string := "Q must be n × n"
  const HShape: string := "H must be m x n"
  const RShape: string := "R must be m × m"
  const X0Length: string := "x0 must have length n"
  const P0Shape: string := "P0 must be n×n"

  /** All the shapes agree, with n = ncols(A) and m = nrows(H). */
  predicate Consistent(x: seq<real>, p: Matrix, a: Matrix, h: Matrix, q: Matrix, r: Matrix)
  {
    var n := a.cols;
    HasShape(a, n, n) && HasShape(q, n, n) && HasShape(h, h.rows, n) && HasShape(r, h.rows, h.rows)
    && |x| == n && HasShape(p, n, n)
  }

  /** The initial state: the given one, or n draws. */
  function StartState(initState: Option<seq<real>>, n: nat, draw: nat -> real): (x: seq<real>)
    ensures initState.Some? ==> x == initState.value
    ensures initState.None? ==> |x| == n && forall i :: 0 <= i < n ==> x[i] == draw(i)
  {
    match initState
    case Some(x0) => x0
    case None => seq(n, i requires 0 <= i < n => draw(i))
  }

  /** The initial covariance: the given one, or the n×n identity. */
  function StartCovariance(initCovariance: Option<Matrix>, n: nat): (p: Matrix)
    requires initCovariance.Some? ==> IsWf(initCovariance.value)
    ensures IsWf(p)
    ensures initCovariance.Some? ==> p == initCovariance.value
    ensures initCovariance.None? ==> HasShape(p, n, n)
    ensures initCovariance.None? ==> forall i, j :: 0 <= i < n && 0 <= j < n ==> p.e[i][j] == if i == j then 1.0 else 0.0
  {
    match initCovariance
    case Some(p0) => p0
    case None => Identity(n, n)
  }

  /**
   * The first failing guard of `new`, in the source's order; None exactly
   * when all shapes agree.
   */
  function DimensionCheck(x: seq<real>, p: Matrix, a: Matrix, h: Matrix, q: Matrix, r: Matrix): (err: Option<KalmanError>)
    requires IsWf(a) && IsWf(h) && IsWf(q) && IsWf(r) && IsWf(p)
    ensures err.None? <==> Consistent(x, p, a, h, q, r)
    ensures a.rows != a.cols ==> err == Some(Dim(ASquare))
    ensures a.rows == a.cols && !HasShape(q, a.cols, a.cols) ==> err == Some(Dim(QShape))
    ensures a.rows == a.cols && HasShape(q, a.cols, a.cols) && h.cols != a.cols ==> err == Some(Dim(HShape))
    ensures a.rows == a.cols && HasShape(q, a.cols, a.cols) && h.cols == a.cols && !HasShape(r, h.rows, h.rows)
            ==> err == Some(Dim(RShape))
    ensures (a.rows == a.cols && HasShape(q, a.cols, a.cols) && h.cols == a.cols && HasShape(r, h.rows, h.rows)
             && |x| != a.cols) ==> err == Some(Dim(X0Length))
    ensures (a.rows == a.cols && HasShape(q, a.cols, a.cols) && h.cols == a.cols && HasShape(r, h.rows, h.rows)
             && |x| == a.cols && !HasShape(p, a.cols, a.cols)) ==> err == Some(Dim(P0Shape))
  {
    var n := a.cols;
    if a.rows != n then Some(Dim(ASquare))
    else if (q.rows, q.cols) != (n, n) then Some(Dim(QShape))
    else if h.cols != n then Some(Dim(HShape))
    else if (r.rows, r.cols) != (h.rows, h.rows) then Some(Dim(RShape))
    else if |x| != n then Some(Dim(X0Length))
    else if (p.rows, p.cols) != (n, n) then Some(Dim(P0Shape))
    else None
  }

  /** The shapes that predict and update rely on. */
  predicate Shapes(a: Matrix, h: Matrix, q: Matrix, r: Matrix)
  {
    var n := a.cols;
    HasShape(a, n, n) && HasShape(q, n, n) && HasShape(h, h.rows, n) && HasShape(r, h.rows, h.rows)
  }

  /** The state estimate and its covariance. */
  datatype Estimate = Estimate(x: seq<real>, p: Matrix)

  predicate Fits(est: Estimate, n: nat)
  {
    |est.x| == n && HasShape(est.p, n, n)
  }

  /** P := A·P·Aᵀ + Q, symmetric whenever P and Q are. */
  function PredictedCovariance(a: Matrix, p: Matrix, q: Matrix): (r: Matrix)
    requires HasShape(a, a.cols, a.cols) && HasShape(p, a.cols, a.cols) && HasShape(q, a.cols, a.cols)
    ensures HasShape(r, a.cols, a.cols)
    ensures IsSymmetric(p) && IsSymmetric(q) ==> IsSymmetric(r)
  {
    var c := Add(Mul(Mul(a, p), Transpose(a)), q);
    assert IsSymmetric(p) && IsSymmetric(q) ==> IsSymmetric(c) by {
      if IsSymmetric(p) && IsSymmetric(q) {
        CongruenceSymmetric(a, p);
        AddSymmetric(Mul(Mul(a, p), Transpose(a)), q);
      }
    }
    c
  }

  /** `predict_step`: x := A·x and P := A·P·Aᵀ + Q. */
  function Predict(a: Matrix, q: Matrix, est: Estimate): (r: Estimate)
    requires HasShape(a, a.cols, a.cols) && HasShape(q, a.cols, a.cols) && Fits(est, a.cols)
    ensures Fits(r, a.cols)
    ensures r.x == MatVec(a, est.x) && r.p == PredictedCovariance(a, est.p, q)
  {
    Estimate(MatVec(a, est.x), PredictedCovariance(a, est.p, q))
  }

  /** S = H·P·Hᵀ + R, symmetric whenever P and R are. */
  function InnovationCovariance(h: Matrix, p: Matrix, r: Matrix): (s: Matrix)
    requires IsWf(h) && HasShape(p, h.cols, h.cols) && HasShape(r, h.rows, h.rows)
    ensures HasShape(s, h.rows, h.rows)
    ensures IsSymmetric(p) && IsSymmetric(r) ==> IsSymmetric(s)
  {
    var s := Add(Mul(Mul(h, p), Transpose(h)), r);
    assert IsSymmetric(p) && IsSymmetric(r) ==> IsSymmetric(s) by {
      if IsSymmetric(p) && IsSymmetric(r) {
        CongruenceSymmetric(h, p);
        AddSymmetric(Mul(Mul(h, p), Transpose(h)), r);
      }
    }
    s
  }

  /**
   * What the Cholesky solve of the source provides: for every square s whose
   * factorisation exists, solve(s, b) has b's shape and s·solve(s, b) == b.
   */
  ghost predicate SolverLaw(isSpd: Matrix -> bool, solve: (Matrix, Matrix) -> Matrix)
  {
    forall s: Matrix, b: Matrix {:trigger solve(s, b)} ::
      HasShape(s, s.rows, s.rows) && isSpd(s) && HasShape(b, s.rows, b.cols) ==>
        HasShape(solve(s, b), s.rows, b.cols) && Mul(s, solve(s, b)) == b
  }

  /** K = (S⁻¹·(H·P))ᵀ, the gain whose transpose solves S·Kᵀ = H·P. */
  function KalmanGain(s: Matrix, hp: Matrix, isSpd: Matrix -> bool, solve: (Matrix, Matrix) -> Matrix): (k: Matrix)
    requires SolverLaw(isSpd, solve) && HasShape(s, s.rows, s.rows) && isSpd(s) && HasShape(hp, s.rows, hp.cols)
    ensures HasShape(k, hp.cols, s.rows)
    ensures Mul(s, Transpose(k)) == hp
  {
    var kt := solve(s, hp);
    TransposeInvolutive(kt);
    Transpose(kt)
  }

  /** x := x + K·(z − H·x). */
  function UpdatedState(x: seq<real>, k: Matrix, h: Matrix, z: seq<real>): (r: seq<real>)
    requires IsWf(h) && |x| == h.cols && |z| == h.rows && HasShape(k, h.cols, h.rows)
    ensures |r| == |x|
  {
    VecAdd(x, MatVec(k, VecSub(z, MatVec(h, x))))
  }

  /** P := (I − K·H)·P·(I − K·H)ᵀ + K·R·Kᵀ, symmetric whenever P and R are. */
  function JosephCovariance(p: Matrix, k: Matrix, h: Matrix, r: Matrix): (c: Matrix)
    requires IsWf(h) && HasShape(p, h.cols, h.cols) && HasShape(k, h.cols, h.rows) && HasShape(r, h.rows, h.rows)
    ensures HasShape(c, h.cols, h.cols)
    ensures IsSymmetric(p) && IsSymmetric(r) ==> IsSymmetric(c)
  {
    var n := p.rows;
    var ikh := Sub(Identity(n, n), Mul(k, h));
    var c := Add(Mul(Mul(ikh, p), Transpose(ikh)), Mul(Mul(k, r), Transpose(k)));
    assert IsSymmetric(p) && IsSymmetric(r) ==> IsSymmetric(c) by {
      if IsSymmetric(p) && IsSymmetric(r) {
        CongruenceSymmetric(ikh, p);
        CongruenceSymmetric(k, r);
        AddSymmetric(Mul(Mul(ikh, p), Transpose(ikh)), Mul(Mul(k, r), Transpose(k)));
      }
    }
    c
  }

  /**
   * `update_step`: InnovationNotSpd when S has no Cholesky factor, otherwise
   * the state corrected by the gain and the Joseph covariance.
   */
  function Update(h: Matrix, r: Matrix, est: Estimate, z: seq<real>, isSpd: Matrix -> bool, solve: (Matrix, Matrix) -> Matrix)
    : (res: Result<Estimate, KalmanError>)
    requires IsWf(h) && HasShape(r, h.rows, h.rows) && Fits(est, h.cols) && |z| == h.rows && SolverLaw(isSpd, solve)
    ensures res.Err? <==> !isSpd(InnovationCovariance(h, est.p, r))
    ensures res.Err? ==> res.error == InnovationNotSpd
    ensures res.Ok? ==> Fits(res.value, h.cols)
    ensures res.Ok? && IsSymmetric(est.p) && IsSymmetric(r) ==> IsSymmetric(res.value.p)
  {
    var hp := Mul(h, est.p);
    var s := InnovationCovariance(h, est.p, r);
    if !isSpd(s) then Err(InnovationNotSpd)
    else
      var k := KalmanGain(s, hp, isSpd, solve);
      Ok(Estimate(UpdatedState(est.x, k, h, z), JosephCovariance(est.p, k, h, r)))
  }

  /** `step`: the outcome and the estimate after predict and the optional update. */
  function StepResult(a: Matrix, h: Matrix, q: Matrix, r: Matrix, est: Estimate, observation: Option<seq<real>>,
                isSpd: Matrix -> bool, solve: (Matrix, Matrix) -> Matrix): (res: (Result<(), KalmanError>, Estimate))
    requires Shapes(a, h, q, r) && Fits(est, a.cols) && SolverLaw(isSpd, solve)
    requires observation.Some? ==> |observation.value| == h.rows
    ensures Fits(res.1, a.cols)
    ensures observation.None? ==> res == (Ok(()), Predict(a, q, est))
    ensures res.0.Err? ==> res.0.error == InnovationNotSpd && res.1 == Predict(a, q, est)
  {
    var predicted := Predict(a, q, est);
    match observation
    case None => (Ok(()), predicted)
    case Some(z) =>
      match Update(h, r, predicted, z, isSpd, solve)
      case Ok(updated) => (Ok(()), updated)
      case Err(e) => (Err(e), predicted)
  }

  /** A step keeps the covariance symmetric when P, Q and R are symmetric, whether or not the update fails. */
  lemma StepKeepsSymmetric(a: Matrix, h: Matrix, q: Matrix, r: Matrix, est: Estimate, observation: Option<seq<real>>,
                           isSpd: Matrix -> bool, solve: (Matrix, Matrix) -> Matrix)
    requires Shapes(a, h, q, r) && Fits(est, a.cols) && SolverLaw(isSpd, solve)
    requires observation.Some? ==> |observation.value| == h.rows
    requires IsSymmetric(est.p) && IsSymmetric(q) && IsSymmetric(r)
    ensures IsSymmetric(StepResult(a, h, q, r, est, observation, isSpd, solve).1.p)
  {
  }

  /** An observation equal to H·x leaves the predicted state where it is. */
  lemma ZeroInnovationKeepsState(x: seq<real>, k: Matrix, h: Matrix, z: seq<real>)
    requires IsWf(h) && |x| == h.cols && |z| == h.rows && HasShape(k, h.cols, h.rows)
    requires z == MatVec(h, x)
    ensures UpdatedState(x, k, h, z) == x
  {
    var y := VecSub(z, MatVec(h, x));
    forall i | 0 <= i < k.rows
      ensures MatVec(k, y)[i] == 0.0
    {
      DotSymmetric(k.e[i], y);
      DotZeroLeft(y, k.e[i]);
    }
  }

  class KalmanFilter {
    var state: seq<real>
    var covariance: Matrix
    var stateTransitionMatrix: Matrix
    var observationMatrix: Matrix
    var stateNoiseCovariance: Matrix
    var observationNoiseCovariance: Matrix

    /** The shapes `new` establishes. */
    predicate Valid()
      reads this
    {
      Consistent(state, covariance, stateTransitionMatrix, observationMatrix, stateNoiseCovariance, observationNoiseCovariance)
    }

    function Current(): (r: Estimate)
      reads this
    {
      Estimate(state, covariance)
    }

    /** The struct literal at the end of `new`. */
    constructor (x: seq<real>, p: Matrix, a: Matrix, h: Matrix, q: Matrix, r: Matrix)
      requires Consistent(x, p, a, h, q, r)
      ensures Valid()
      ensures state == x && covariance == p && stateTransitionMatrix == a && observationMatrix == h
      ensures stateNoiseCovariance == q && observationNoiseCovariance == r
    {
      state, covariance := x, p;
      stateTransitionMatrix, observationMatrix := a, h;
      stateNoiseCovariance, observationNoiseCovariance := q, r;
    }

    /**
     * `KalmanFilter::new`: picks the initial state and covariance, then runs
     * the guards in order; on success every field holds its input.
     */
    static method New(initState: Option<seq<real>>, initCovariance: Option<Matrix>, a: Matrix, h: Matrix, q: Matrix,
                      r: Matrix, draw: nat -> real)
      returns (res: Result<KalmanFilter, KalmanError>)
      requires IsWf(a) && IsWf(h) && IsWf(q) && IsWf(r)
      requires initCovariance.Some? ==> IsWf(initCovariance.value)
      ensures var x, p := StartState(initState, a.cols, draw), StartCovariance(initCovariance, a.cols);
              match DimensionCheck(x, p, a, h, q, r)
              case Some(err) => res == Err(err)
              case None =>
                res.Ok? && fresh(res.value) && res.value.Valid() && res.value.state == x && res.value.covariance == p
                && res.value.stateTransitionMatrix == a && res.value.observationMatrix == h
                && res.value.stateNoiseCovariance == q && res.value.observationNoiseCovariance == r
    {
      var n := a.cols;
      var x := StartState(initState, n, draw);
      var p := StartCovariance(initCovariance, n);
      if a.rows != n {
        return Err(Dim(ASquare));
      }
      if (q.rows, q.cols) != (n, n) {
        return Err(Dim(QShape));
      }
      var m := h.rows;
      if h.cols != n {
        return Err(Dim(HShape));
      }
      if (r.rows, r.cols) != (m, m) {
        return Err(Dim(RShape));
      }
      if |x| != n {
        return Err(Dim(X0Length));
      }
      if (p.rows, p.cols) != (n, n) {
        return Err(Dim(P0Shape));
      }
      var filter := new KalmanFilter(x, p, a, h, q, r);
      return Ok(filter);
    }

    /** `predict_step`. */
    method PredictStep()
      requires Valid()
      modifies this
      ensures stateTransitionMatrix == old(stateTransitionMatrix) && observationMatrix == old(observationMatrix)
      ensures stateNoiseCovariance == old(stateNoiseCovariance) && observationNoiseCovariance == old(observationNoiseCovariance)
      ensures Valid() && Current() == Predict(stateTransitionMatrix, stateNoiseCovariance, old(Current()))
    {
      state := MatVec(stateTransitionMatrix, state);
      covariance := PredictedCovariance(stateTransitionMatrix, covariance, stateNoiseCovariance);
    }

    /** `update_step`: on InnovationNotSpd nothing changes. */
    method UpdateStep(observation: seq<real>, isSpd: Matrix -> bool, solve: (Matrix, Matrix) -> Matrix)
      returns (res: Result<(), KalmanError>)
      requires Valid() && |observation| == observationMatrix.rows && SolverLaw(isSpd, solve)
      modifies this
      ensures Valid()
      ensures stateTransitionMatrix == old(stateTransitionMatrix) && observationMatrix == old(observationMatrix)
      ensures stateNoiseCovariance == old(stateNoiseCovariance) && observationNoiseCovariance == old(observationNoiseCovariance)
      ensures match Update(observationMatrix, observationNoiseCovariance, old(Current()), observation, isSpd, solve)
              case Err(e) => res == Err(e) && Current() == old(Current())
              case Ok(est) => res == Ok(()) && Current() == est
    {
      var h, r := observationMatrix, observationNoiseCovariance;
      var hp := Mul(h, covariance);
      var s := InnovationCovariance(h, covariance, r);
      if !isSpd(s) {
        return Err(InnovationNotSpd);
      }
      var k := KalmanGain(s, hp, isSpd, solve);
      state := UpdatedState(state, k, h, observation);
      covariance := JosephCovariance(covariance, k, h, r);
      return Ok(());
    }

    /** `step`: predict, then update when there is an observation; an update error is passed on after the prediction. */
    method Step(observation: Option<seq<real>>, isSpd: Matrix -> bool, solve: (Matrix, Matrix) -> Matrix)
      returns (res: Result<(), KalmanError>)
      requires Valid() && SolverLaw(isSpd, solve)
      requires observation.Some? ==> |observation.value| == observationMatrix.rows
      modifies this
      ensures Valid()
      ensures stateTransitionMatrix == old(stateTransitionMatrix) && observationMatrix == old(observationMatrix)
      ensures stateNoiseCovariance == old(stateNoiseCovariance) && observationNoiseCovariance == old(observationNoiseCovariance)
      ensures (res, Current()) == StepResult(stateTransitionMatrix, observationMatrix, stateNoiseCovariance,
                                                             observationNoiseCovariance, old(Current()), observation, isSpd, solve)
    {
      PredictStep();
      if observation.Some? {
        res := UpdateStep(observation.value, isSpd, solve);
        if res.Err? {
          return res;
        }
      }
      return Ok(());
    }
  }

  /** The 2-D constant model with no initial state or covariance: `new` accepts it with a length-2 state and 2×2 covariance. */
  lemma ConstructorAcceptsSquareModel(draw: nat -> real)
    ensures var i2 := Identity(2, 2);
            var x, p := StartState(None, 2, draw), StartCovariance(None, 2);
            DimensionCheck(x, p, i2, i2, Scale(0.001, i2), Scale(0.01, i2)).None? && |x| == 2 && HasShape(p, 2, 2)
  {
  }

  /** A 2×3 observation matrix with a 2×2 transition is rejected with the H message. */
  lemma ConstructorRejectsWideObservation(draw: nat -> real)
    ensures var i2 := Identity(2, 2);
            DimensionCheck(StartState(None, 2, draw), StartCovariance(None, 2), i2, Identity(2, 3), Scale(0.001, i2),
                           Scale(0.01, i2)) == Some(Dim(HShape))
  {
  }
}
