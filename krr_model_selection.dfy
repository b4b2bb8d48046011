/**
 * krr_ndarray/src/model_selection.rs: leave-one-out cross-validation of a
 * fitted model, (1/n)·Σ (α_i / (K + λI)⁻¹_ii)², and the choice of the RBF
 * lengthscale with the smallest such error among a list of candidates.
 * Matrix inversion (`inv`) is a foreign call and a parameter. An f64 result
 * that is infinite or NaN (a zero diagonal entry, or n = 0) is `NotFinite`.
 */
module KrrModelSelection {
  import opened Outcomes
  import opened RealSeqs
  import opened DenseMatrix
  import opened KrrKernel
  import opened KrrErrors
  import opened KrrModel

  /** An f64 value: a number, or one of ±∞ and NaN. */
  datatype LooValue = Finite(value: real) | NotFinite

  /** `inv` as a parameter: the inverse of an n×n matrix is n×n. */
  ghost predicate InverseLaw(inv: Matrix -> Matrix)
  {
    forall a: Matrix {:trigger inv(a)} :: IsWf(a) && a.rows == a.cols ==> HasShape(inv(a), a.rows, a.rows)
  }

  /** f64 addition where a non-finite operand gives a non-finite sum. */
  function AddLoo(acc: LooValue, t: LooValue): (r: LooValue)
    ensures r.Finite? <==> acc.Finite? && t.Finite?
    ensures r.Finite? ==> r.value == acc.value + t.value
  {
    if acc.Finite? && t.Finite? then Finite(acc.value + t.value) else NotFinite
  }

  /** (α_i / d_i)²; dividing by d_i = 0 gives ±∞ or NaN. */
  function LooTerm(a: real, d: real): (t: LooValue)
    ensures t.Finite? <==> d != 0.0
    ensures t.Finite? ==> t.value >= 0.0
  {
    assert d != 0.0 ==> Product(a / d, a / d) >= 0.0 by {
      if d != 0.0 {
        ProductSelfNonNegative(a / d);
      }
    }
    if d == 0.0 then NotFinite else Finite(Product(a / d, a / d))
  }

  /** `loo_error` after the first m terms. */
  function LooSum(alpha: seq<real>, aInv: Matrix, m: nat): (s: LooValue)
    requires HasShape(aInv, |alpha|, |alpha|) && m <= |alpha|
    ensures s.Finite? <==> forall i :: 0 <= i < m ==> aInv.e[i][i] != 0.0
    ensures s.Finite? ==> s.value >= 0.0
    decreases m
  {
    if m == 0 then Finite(0.0) else AddLoo(LooSum(alpha, aInv, m - 1), LooTerm(alpha[m - 1], aInv.e[m - 1][m - 1]))
  }

  /** `loo_error / n`: finite exactly when n > 0 and no diagonal entry of A⁻¹ is zero, and then ≥ 0. */
  function LooScore(alpha: seq<real>, aInv: Matrix): (v: LooValue)
    requires HasShape(aInv, |alpha|, |alpha|)
    ensures v.Finite? <==> |alpha| > 0 && forall i :: 0 <= i < |alpha| ==> aInv.e[i][i] != 0.0
    ensures v.Finite? ==> v.value >= 0.0
  {
    var n := |alpha|;
    match LooSum(alpha, aInv, n)
    case NotFinite => NotFinite
    case Finite(s) => if n == 0 then NotFinite else Finite(s / n as real)
  }

  /** What `loo_cv_error` computes for a model fitted on x with coefficients α. */
  function LooCv(kernel: RBFKernel, lambda: real, exp: real -> real, inv: Matrix -> Matrix, x: Matrix, alpha: seq<real>): (v: LooValue)
    requires ValidKernel(kernel) && IsWf(x) && |alpha| == x.rows && InverseLaw(inv)
    ensures v.Finite? ==> v.value >= 0.0
  {
    LooScore(alpha, inv(Regularised(kernel, lambda, exp, x)))
  }

  /**
   * `loo_cv_error`: `NotFitted` before a successful fit; otherwise rebuild
   * A = K + λI from the stored rows, invert it and average the squared ratios.
   */
  method LooCvError(model: KRRModel, exp: real -> real, inv: Matrix -> Matrix) returns (res: Result<LooValue, KRRPredictError>)
    requires model.Valid() && InverseLaw(inv)
    ensures model.alpha.None? ==> res == Err(NotFitted)
    ensures model.alpha.Some? ==> res == Ok(LooCv(model.kernel, model.lambda, exp, inv, model.xTrain.value, model.alpha.value))
  {
    if model.alpha.None? || model.xTrain.None? {
      return Err(NotFitted);
    }
    var alpha, x := model.alpha.value, model.xTrain.value;
    var n := x.rows;
    var k := GramMatrix(model.kernel, exp, x);
    var a := Add(k, Scale(model.lambda, Identity(n, n)));
    var aInv := inv(a);
    var looError := Finite(0.0);
    for i := 0 to n
      invariant looError == LooSum(alpha, aInv, i)
    {
      var ai, di := alpha[i], aInv.e[i][i];
      if di == 0.0 {
        looError := NotFinite;
      } else {
        var r := ai / di;
        looError := AddLoo(looError, Finite(Product(r, r)));
      }
    }
    if n == 0 || looError.NotFinite? {
      res := Ok(NotFinite);
    } else {
      res := Ok(Finite(looError.value / n as real));
    }
  }

  /** The kernel the builder makes for every candidate lengthscale, in order. */
  function Candidates(builder: real -> RBFKernel, lengthscales: seq<real>): (ks: seq<RBFKernel>)
    ensures |ks| == |lengthscales| && forall i :: 0 <= i < |ks| ==> ks[i] == builder(lengthscales[i])
  {
    seq(|lengthscales|, i requires 0 <= i < |lengthscales| => builder(lengthscales[i]))
  }

  /** The error a candidate kernel is judged by: none when `fit` fails or the LOO error is not finite. */
  function KernelScore(kernel: RBFKernel, lambda: real, exp: real -> real, solve: (Matrix, seq<real>) -> Result<seq<real>, string>,
                       inv: Matrix -> Matrix, x: Matrix, y: seq<real>): (s: Option<real>)
    requires ValidKernel(kernel) && IsWf(x) && SolveLaw(solve) && InverseLaw(inv)
    ensures s.Some? <==> (FitOutcome(kernel, lambda, exp, solve, x, y).Ok? &&
      LooCv(kernel, lambda, exp, inv, x, FitOutcome(kernel, lambda, exp, solve, x, y).value).Finite?)
    ensures s.Some? ==> s == Some(LooCv(kernel, lambda, exp, inv, x, FitOutcome(kernel, lambda, exp, solve, x, y).value).value)
    ensures s.Some? ==> s.value >= 0.0
  {
    match FitOutcome(kernel, lambda, exp, solve, x, y)
    case Err(_) => None
    case Ok(alpha) =>
      match LooCv(kernel, lambda, exp, inv, x, alpha)
      case NotFinite => None
      case Finite(e) => Some(e)
  }

  function Scores(ks: seq<RBFKernel>, lambda: real, exp: real -> real, solve: (Matrix, seq<real>) -> Result<seq<real>, string>,
                  inv: Matrix -> Matrix, x: Matrix, y: seq<real>): (ss: seq<Option<real>>)
    requires forall i :: 0 <= i < |ks| ==> ValidKernel(ks[i])
    requires IsWf(x) && SolveLaw(solve) && InverseLaw(inv)
    ensures |ss| == |ks| && forall i :: 0 <= i < |ks| ==> ss[i] == KernelScore(ks[i], lambda, exp, solve, inv, x, y)
  {
    seq(|ks|, i requires 0 <= i < |ks| => KernelScore(ks[i], lambda, exp, solve, inv, x, y))
  }

  /** One pass of the loop: a candidate with an error replaces the best only when strictly smaller. */
  function Consider(best: Option<(RBFKernel, real)>, k: RBFKernel, s: Option<real>): (r: Option<(RBFKernel, real)>)
  {
    if s.Some? && (best.None? || s.value < best.value.1) then Some((k, s.value)) else best
  }

  /**
   * The best kernel and error after visiting the candidates in order. No
   * kernel is chosen exactly when no candidate has an error (in particular
   * for an empty list).
   */
  function ChooseBest(ks: seq<RBFKernel>, ss: seq<Option<real>>): (r: Option<(RBFKernel, real)>)
    requires |ks| == |ss|
    ensures r.None? <==> forall i :: 0 <= i < |ss| ==> ss[i].None?
    decreases |ks|
  {
    if |ks| == 0 then None
    else
      var m := |ks| - 1;
      assert forall i :: 0 <= i < m ==> ss[..m][i] == ss[i];
      Consider(ChooseBest(ks[..m], ss[..m]), ks[m], ss[m])
  }

  /** What `tune_lengthscale` returns: "Tuning failed" exactly when no candidate has an error, else an Ok. */
  function TuneOutcome(ks: seq<RBFKernel>, ss: seq<Option<real>>): (r: Result<(RBFKernel, real), string>)
    requires |ks| == |ss|
    ensures r.Err? ==> r == Err("Tuning failed")
    ensures r.Err? <==> forall i :: 0 <= i < |ss| ==> ss[i].None?
  {
    match ChooseBest(ks, ss)
    case None => Err("Tuning failed")
    case Some(p) => Ok(p)
  }

  /** The chosen candidate has an error, no later one beats it, and every earlier one is strictly worse. */
  predicate EarliestMinimum(ks: seq<RBFKernel>, ss: seq<Option<real>>, i: nat, k: RBFKernel, e: real)
    requires |ks| == |ss|
  {
    i < |ks| && ks[i] == k && ss[i] == Some(e) &&
    (forall j :: 0 <= j < i && ss[j].Some? ==> e < ss[j].value) &&
    (forall j :: i <= j < |ss| && ss[j].Some? ==> e <= ss[j].value)
  }

  /** The chosen kernel is the earliest candidate with the minimum error, and carries that error. */
  lemma {:induction false} ChooseBestIsEarliestMinimum(ks: seq<RBFKernel>, ss: seq<Option<real>>)
    requires |ks| == |ss| && ChooseBest(ks, ss).Some?
    ensures exists i :: EarliestMinimum(ks, ss, i, ChooseBest(ks, ss).value.0, ChooseBest(ks, ss).value.1)
    decreases |ks|
  {
    var m := |ks| - 1;
    var prev := ChooseBest(ks[..m], ss[..m]);
    var k, e := ChooseBest(ks, ss).value.0, ChooseBest(ks, ss).value.1;
    assert forall j :: 0 <= j < m ==> ss[..m][j] == ss[j] && ks[..m][j] == ks[j];
    if prev.None? {
      assert EarliestMinimum(ks, ss, m, k, e);
    } else {
      ChooseBestIsEarliestMinimum(ks[..m], ss[..m]);
      var i :| EarliestMinimum(ks[..m], ss[..m], i, prev.value.0, prev.value.1);
      if ss[m].Some? && ss[m].value < prev.value.1 {
        assert EarliestMinimum(ks, ss, m, k, e);
      } else {
        assert EarliestMinimum(ks, ss, i, k, e);
      }
    }
  }

  /**
   * Refitting with the returned kernel and recomputing the LOO error gives
   * the returned error, which is ≥ 0; the kernel is the earliest candidate
   * with the minimum error.
   */
  lemma TunedErrorIsReproducible(builder: real -> RBFKernel, lengthscales: seq<real>, lambda: real, exp: real -> real,
                                 solve: (Matrix, seq<real>) -> Result<seq<real>, string>, inv: Matrix -> Matrix, x: Matrix, y: seq<real>)
    requires forall i :: 0 <= i < |lengthscales| ==> ValidKernel(builder(lengthscales[i]))
    requires IsWf(x) && SolveLaw(solve) && InverseLaw(inv)
    ensures var ks := Candidates(builder, lengthscales);
      var ss := Scores(ks, lambda, exp, solve, inv, x, y);
      TuneOutcome(ks, ss).Ok? ==>
        var (k, e) := TuneOutcome(ks, ss).value;
        ValidKernel(k) && KernelScore(k, lambda, exp, solve, inv, x, y) == Some(e) && e >= 0.0 &&
        exists i :: EarliestMinimum(ks, ss, i, k, e)
  {
    var ks := Candidates(builder, lengthscales);
    var ss := Scores(ks, lambda, exp, solve, inv, x, y);
    if TuneOutcome(ks, ss).Ok? {
      ChooseBestIsEarliestMinimum(ks, ss);
    }
  }

  /**
   * `tune_lengthscale`: fit a fresh model per candidate, skip it when `fit`
   * fails, and keep it when its LOO error is strictly below the best so far.
   */
  method TuneLengthscale(x: Matrix, y: seq<real>, lambda: real, lengthscales: seq<real>, builder: real -> RBFKernel,
                         exp: real -> real, solve: (Matrix, seq<real>) -> Result<seq<real>, string>, inv: Matrix -> Matrix)
    returns (res: Result<(RBFKernel, real), string>)
    requires forall i :: 0 <= i < |lengthscales| ==> ValidKernel(builder(lengthscales[i]))
    requires IsWf(x) && SolveLaw(solve) && InverseLaw(inv)
    ensures var ks := Candidates(builder, lengthscales);
      res == TuneOutcome(ks, Scores(ks, lambda, exp, solve, inv, x, y))
  {
    ghost var ks := Candidates(builder, lengthscales);
    ghost var ss := Scores(ks, lambda, exp, solve, inv, x, y);
    var bestError := 0.0;
    var bestKernel: Option<RBFKernel> := None;
    for i := 0 to |lengthscales|
      invariant match ChooseBest(ks[..i], ss[..i])
        case None => bestKernel.None?
        case Some(p) => bestKernel == Some(p.0) && bestError == p.1
    {
      assert ks[..i + 1][..i] == ks[..i] && ss[..i + 1][..i] == ss[..i];
      var l := lengthscales[i];
      var kernel := builder(l);
      var model := new KRRModel(kernel, lambda);
      var fitted := model.Fit(x, y, exp, solve);
      if fitted.Err? {
        continue;
      }
      var loo := LooCvError(model, exp, inv);
      if loo.Ok? && loo.value.Finite? && (bestKernel.None? || loo.value.value < bestError) {
        bestError := loo.value.value;
        bestKernel := Some(kernel);
      }
    }
    assert ks[..|lengthscales|] == ks && ss[..|lengthscales|] == ss;
    if bestKernel.None? {
      res := Err("Tuning failed");
    } else {
      res := Ok((bestKernel.value, bestError));
    }
  }
}
