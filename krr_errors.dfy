/**
 * krr_ndarray/src/errors.rs: the two error types of kernel ridge regression
 * and the messages their `Display` implementations print. A `usize` field is
 * rendered in decimal without leading zeros, which `Decimal` models.
 */
module KrrErrors {

  /** `KRRFitError`: exactly two cases. */
  datatype KRRFitError = ShapeMismatch(xN: nat, yN: nat) | LinAlgError(detail: string)

  /** `KRRPredictError`: the single case `NotFitted`. */
  datatype KRRPredictError = NotFitted

  predicate IsDigit(c: char)
  {
    '0' <= c <= '9'
  }

  predicate AllDigits(s: string)
  {
    forall i :: 0 <= i < |s| ==> IsDigit(s[i])
  }

  function DigitChar(d: nat): (c: char)
    requires d < 10
    ensures IsDigit(c) && c as int - '0' as int == d
  {
    ('0' as int + d) as char
  }

  /** The decimal rendering of a natural number, most significant digit first. */
  function Decimal(n: nat): (s: string)
    ensures |s| > 0 && AllDigits(s)
    decreases n
  {
    if n < 10 then [DigitChar(n)] else Decimal(n / 10) + [DigitChar(n % 10)]
  }

  /** Reads a string of digits back as the number it denotes. */
  function ParseDecimal(s: string): (r: nat)
    requires AllDigits(s)
    decreases |s|
  {
    if |s| == 0 then 0 else 10 * ParseDecimal(s[..|s| - 1]) + (s[|s| - 1] as int - '0' as int)
  }

  /** Reading a rendered number gives the number back. */
  lemma {:induction false} DecimalRoundTrip(n: nat)
    ensures ParseDecimal(Decimal(n)) == n
    decreases n
  {
    if n >= 10 {
      var s := Decimal(n);
      assert s[..|s| - 1] == Decimal(n / 10);
      DecimalRoundTrip(n / 10);
    }
  }

  /** The length of the run of digits at the front of s. */
  function DigitRun(s: string): (k: nat)
    ensures k <= |s|
    decreases |s|
  {
    if |s| == 0 || !IsDigit(s[0]) then 0 else 1 + DigitRun(s[1..])
  }

  /** A run of digits followed by a non-digit (or nothing) is read off exactly. */
  lemma {:induction false} DigitRunAppend(d: string, t: string)
    requires AllDigits(d) && (|t| == 0 || !IsDigit(t[0]))
    ensures DigitRun(d + t) == |d|
    decreases |d|
  {
    if |d| > 0 {
      assert (d + t)[1..] == d[1..] + t;
      DigitRunAppend(d[1..], t);
    } else {
      assert d + t == t;
    }
  }

  const MismatchPrefix := "Shape mismatch: x has "
  const MismatchMiddle := " rows but y has "
  const MismatchSuffix := " elements"

  /** The `#[error(...)]` message of each case; the `LinAlgError` detail is not printed. */
  function Message(e: KRRFitError): (s: string)
    ensures e.ShapeMismatch? ==> MismatchPrefix <= s
    ensures e.LinAlgError? ==> s == "Solving the linear system failed"
  {
    match e
    case ShapeMismatch(xN, yN) => MismatchPrefix + Decimal(xN) + MismatchMiddle + Decimal(yN) + MismatchSuffix
    case LinAlgError(_) => "Solving the linear system failed"
  }

  function PredictMessage(e: KRRPredictError): (s: string)
    ensures s == "Model not fitted"
  {
    "Model not fitted"
  }

  /**
   * In p·da·m·db·x with da and db runs of digits and m and x starting with a
   * non-digit, the two runs are determined by the whole string.
   */
  lemma DigitFieldsDetermined(p: string, m: string, x: string, da: string, db: string, dc: string, dd: string)
    requires AllDigits(da) && AllDigits(db) && AllDigits(dc) && AllDigits(dd)
    requires |m| > 0 && !IsDigit(m[0]) && |x| > 0 && !IsDigit(x[0])
    requires p + da + m + db + x == p + dc + m + dd + x
    ensures da == dc && db == dd
  {
    var r1, r2 := da + (m + db + x), dc + (m + dd + x);
    assert (p + da + m + db + x)[|p|..] == r1 && (p + dc + m + dd + x)[|p|..] == r2;
    DigitRunAppend(da, m + db + x);
    DigitRunAppend(dc, m + dd + x);
    assert da == r1[..|da|] && dc == r2[..|dc|];
    var k := |da| + |m|;
    assert r1[k..] == db + x && r2[k..] == dd + x;
    assert db == (db + x)[..|db|] && dd == (dd + x)[..|dd|];
  }

  /** The `ShapeMismatch` message embeds both counts: it determines them. */
  lemma ShapeMismatchMessageDetermines(a: nat, b: nat, c: nat, d: nat)
    requires Message(ShapeMismatch(a, b)) == Message(ShapeMismatch(c, d))
    ensures a == c && b == d
  {
    assert MismatchMiddle[0] == ' ' && MismatchSuffix[0] == ' ';
    DigitFieldsDetermined(MismatchPrefix, MismatchMiddle, MismatchSuffix, Decimal(a), Decimal(b), Decimal(c), Decimal(d));
    DecimalRoundTrip(a);
    DecimalRoundTrip(b);
    DecimalRoundTrip(c);
    DecimalRoundTrip(d);
  }

  /** The two fit errors never print the same message. */
  lemma FitMessagesDistinguishCases(a: nat, b: nat, detail: string)
    ensures Message(ShapeMismatch(a, b)) != Message(LinAlgError(detail))
  {
    assert Message(ShapeMismatch(a, b))[1] == 'h';
    assert Message(LinAlgError(detail))[1] == 'o';
  }
}
