/**
 * Finite sums and powers over reals: the `iter().sum()`, `zip(..).map(..).sum()`
 * and `powi` building blocks shared by the numerical crates.
 */
module RealSeqs {

  function Min(a: nat, b: nat): (r: nat) { if a <= b then a else b }

  /** `s.iter().sum()` (0 for the empty sequence). */
  function Sum(s: seq<real>): (r: real)
  {
    if |s| == 0 then 0.0 else s[0] + Sum(s[1..])
  }

  /** `a.iter().zip(b).map(|(ai, bi)| f(ai, bi)).sum()`: the zip stops at the shorter sequence. */
  function ZipSum(f: (real, real) -> real, a: seq<real>, b: seq<real>): (r: real)
    decreases |a|
  {
    if |a| == 0 || |b| == 0 then 0.0 else f(a[0], b[0]) + ZipSum(f, a[1..], b[1..])
  }

  /** A zipped sum of f + c·g is the sum of f plus c times the sum of g. */
  lemma {:induction false} ZipSumAffine(f: (real, real) -> real, g: (real, real) -> real, h: (real, real) -> real,
                                        c: real, a: seq<real>, b: seq<real>)
    requires forall u, v :: h(u, v) == f(u, v) + c * g(u, v)
    ensures ZipSum(h, a, b) == ZipSum(f, a, b) + c * ZipSum(g, a, b)
    decreases |a|
  {
    if |a| > 0 && |b| > 0 {
      ZipSumAffine(f, g, h, c, a[1..], b[1..]);
    }
  }

  lemma SumOfThree(s: seq<real>)
    requires |s| == 3
    ensures Sum(s) == s[0] + s[1] + s[2]
  {
    assert Sum(s[2..]) == s[2] by {
      assert s[2..][1..] == [];
    }
    assert s[1..][1..] == s[2..];
  }

  lemma SumOfFour(s: seq<real>)
    requires |s| == 4
    ensures Sum(s) == s[0] + s[1] + s[2] + s[3]
  {
    SumOfThree(s[1..]);
  }

  /** The product u·v as a function value, the term of a dot product. */
  function Product(u: real, v: real): (r: real)
  {
    u * v
  }

  /** A zipped sum over prefixes grows by the term at the next position: how a left-to-right loop accumulates it. */
  lemma {:induction false} ZipSumSnoc(f: (real, real) -> real, a: seq<real>, b: seq<real>, i: nat)
    requires i < |a| && i < |b|
    ensures ZipSum(f, a[..i + 1], b[..i + 1]) == ZipSum(f, a[..i], b[..i]) + f(a[i], b[i])
  {
    if i > 0 {
      assert a[..i + 1][1..] == a[1..][..i] && b[..i + 1][1..] == b[1..][..i];
      assert a[..i][1..] == a[1..][..i - 1] && b[..i][1..] == b[1..][..i - 1];
      ZipSumSnoc(f, a[1..], b[1..], i - 1);
    }
  }

  /** The zipped sum only reads the common prefix. */
  lemma {:induction false} ZipSumCommonPrefix(f: (real, real) -> real, a: seq<real>, b: seq<real>, i: nat)
    requires i == Min(|a|, |b|)
    ensures ZipSum(f, a[..i], b[..i]) == ZipSum(f, a, b)
    decreases i
  {
    if i > 0 {
      assert a[..i][1..] == a[1..][..i - 1] && b[..i][1..] == b[1..][..i - 1];
      ZipSumCommonPrefix(f, a[1..], b[1..], i - 1);
    }
  }

  /** Dotting g with b shifted by t adds t times the sum of g, when b covers g. */
  lemma {:induction false} ZipProductShift(g: seq<real>, b: seq<real>, b': seq<real>, t: real)
    requires |g| <= |b| && |b'| == |b|
    requires forall i :: 0 <= i < |b| ==> b'[i] == b[i] + t
    ensures ZipSum(Product, g, b') == ZipSum(Product, g, b) + t * Sum(g)
  {
    if |g| > 0 {
      assert g[0] * b'[0] == g[0] * b[0] + t * g[0];
      ZipProductShift(g[1..], b[1..], b'[1..], t);
    }
  }

  /** Sum of f(k) for 0 <= k < n. */
  function SumRange(n: nat, f: int -> real): (r: real)
  {
    if n == 0 then 0.0 else SumRange(n - 1, f) + f(n - 1)
  }

  /** r^k for a natural exponent (`powi`). */
  function Pow(r: real, k: nat): (res: real)
  {
    if k == 0 then 1.0 else r * Pow(r, k - 1)
  }

  lemma SquareNonNegative(t: real)
    ensures t * t >= 0.0
  {
    if t < 0.0 {
      assert t * t == (-t) * (-t);
    }
  }

  lemma {:induction false} SumAppend(a: seq<real>, b: seq<real>)
    ensures Sum(a + b) == Sum(a) + Sum(b)
  {
    if |a| == 0 {
      assert a + b == b;
    } else {
      assert (a + b)[1..] == a[1..] + b;
      SumAppend(a[1..], b);
    }
  }

  /** A zipped sum of non-negative terms is non-negative. */
  lemma {:induction false} ZipSumNonNegative(f: (real, real) -> real, a: seq<real>, b: seq<real>)
    requires forall u, v :: f(u, v) >= 0.0
    ensures ZipSum(f, a, b) >= 0.0
    decreases |a|
  {
    if |a| > 0 && |b| > 0 {
      ZipSumNonNegative(f, a[1..], b[1..]);
    }
  }

  /** A zipped sum whose terms all vanish on the zipped prefix is 0. */
  lemma {:induction false} ZipSumZero(f: (real, real) -> real, a: seq<real>, b: seq<real>)
    requires forall i :: 0 <= i < |a| && i < |b| ==> f(a[i], b[i]) == 0.0
    ensures ZipSum(f, a, b) == 0.0
    decreases |a|
  {
    if |a| > 0 && |b| > 0 {
      assert f(a[0], b[0]) == 0.0;
      forall i | 0 <= i < |a[1..]| && i < |b[1..]|
        ensures f(a[1..][i], b[1..][i]) == 0.0
      {
        assert f(a[i + 1], b[i + 1]) == 0.0;
      }
      ZipSumZero(f, a[1..], b[1..]);
    }
  }

  /** Two zipped sums whose terms agree position by position are equal. */
  lemma {:induction false} ZipSumTermwise(f: (real, real) -> real, a: seq<real>, b: seq<real>,
                                          g: (real, real) -> real, c: seq<real>, d: seq<real>)
    requires |a| == |c| && |b| == |d|
    requires forall i :: 0 <= i < |a| && i < |b| ==> f(a[i], b[i]) == g(c[i], d[i])
    ensures ZipSum(f, a, b) == ZipSum(g, c, d)
    decreases |a|
  {
    if |a| > 0 && |b| > 0 {
      assert f(a[0], b[0]) == g(c[0], d[0]);
      forall i | 0 <= i < |a[1..]| && i < |b[1..]|
        ensures f(a[1..][i], b[1..][i]) == g(c[1..][i], d[1..][i])
      {
        assert f(a[i + 1], b[i + 1]) == g(c[i + 1], d[i + 1]);
      }
      ZipSumTermwise(f, a[1..], b[1..], g, c[1..], d[1..]);
    }
  }

  /** `s.iter().map(f).sum()`. */
  function MapSum(f: real -> real, s: seq<real>): (r: real)
  {
    if |s| == 0 then 0.0 else f(s[0]) + MapSum(f, s[1..])
  }

  lemma {:induction false} MapSumNonNegative(f: real -> real, s: seq<real>)
    requires forall u :: f(u) >= 0.0
    ensures MapSum(f, s) >= 0.0
  {
    if |s| > 0 {
      MapSumNonNegative(f, s[1..]);
    }
  }

  /** A mapped sum is the zipped sum of the sequence with itself. */
  lemma {:induction false} MapSumAsZipSum(f: real -> real, g: (real, real) -> real, s: seq<real>)
    requires forall u :: g(u, u) == f(u)
    ensures MapSum(f, s) == ZipSum(g, s, s)
  {
    if |s| > 0 {
      MapSumAsZipSum(f, g, s[1..]);
    }
  }

  /** A constant factor comes out of a zipped sum. */
  lemma {:induction false} ZipSumScale(f: (real, real) -> real, g: (real, real) -> real, c: real, a: seq<real>, b: seq<real>)
    requires forall u, v :: g(u, v) == c * f(u, v)
    ensures ZipSum(g, a, b) == c * ZipSum(f, a, b)
    decreases |a|
  {
    if |a| > 0 && |b| > 0 {
      ZipSumScale(f, g, c, a[1..], b[1..]);
    }
  }

  lemma {:induction false} SumRangeCongruent(n: nat, f: int -> real, g: int -> real)
    requires forall k :: 0 <= k < n ==> f(k) == g(k)
    ensures SumRange(n, f) == SumRange(n, g)
  {
    if n > 0 {
      SumRangeCongruent(n - 1, f, g);
    }
  }

  lemma {:induction false} SumRangeAdd(n: nat, f: int -> real, g: int -> real, h: int -> real)
    requires forall k :: 0 <= k < n ==> h(k) == f(k) + g(k)
    ensures SumRange(n, h) == SumRange(n, f) + SumRange(n, g)
  {
    if n > 0 {
      SumRangeAdd(n - 1, f, g, h);
    }
  }

  lemma {:induction false} SumRangeScale(n: nat, c: real, f: int -> real, g: int -> real)
    requires forall k :: 0 <= k < n ==> g(k) == c * f(k)
    ensures SumRange(n, g) == c * SumRange(n, f)
  {
    if n > 0 {
      SumRangeScale(n - 1, c, f, g);
    }
  }

  /** A sum of zeros is zero. */
  lemma {:induction false} SumRangeZero(n: nat, f: int -> real)
    requires forall k :: 0 <= k < n ==> f(k) == 0.0
    ensures SumRange(n, f) == 0.0
  {
    if n > 0 {
      SumRangeZero(n - 1, f);
    }
  }

  lemma {:induction false} PowNonNegative(r: real, k: nat)
    requires r >= 0.0
    ensures Pow(r, k) >= 0.0
  {
    if k > 0 {
      PowNonNegative(r, k - 1);
    }
  }

  lemma {:induction false} PowMonotone(r: real, s: real, k: nat)
    requires 0.0 <= r <= s
    ensures Pow(r, k) <= Pow(s, k)
  {
    if k > 0 {
      PowMonotone(r, s, k - 1);
      PowNonNegative(r, k - 1);
      assert r * Pow(r, k - 1) <= s * Pow(r, k - 1) <= s * Pow(s, k - 1);
    }
  }

  lemma {:induction false} PowMultiply(r: real, a: nat, b: nat)
    ensures Pow(r, a * b) == Pow(Pow(r, a), b)
  {
    if b > 0 {
      PowMultiply(r, a, b - 1);
      PowAdd(r, a, a * (b - 1));
      assert a * b == a + a * (b - 1);
    }
  }

  lemma {:induction false} PowAdd(r: real, a: nat, b: nat)
    ensures Pow(r, a + b) == Pow(r, a) * Pow(r, b)
  {
    if a > 0 {
      PowAdd(r, a - 1, b);
    }
  }
}
