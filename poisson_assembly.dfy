/**
 * The global scatter of poisson_2d/src/solver.rs (lines 77-82): every
 * element adds its local matrix ke at the (global row, global column) pairs
 * of its vertex indices, and its local vector fe at the global rows. The
 * assembled entry (r, c) is therefore the sum, over elements, of the ke
 * entries whose local pair maps to (r, c); this module states those sums and
 * proves symmetry, additivity and the zero rows of unused vertices.
 * Dense matrices are sequences of rows.
 */
module PoissonAssembly {
  import opened RealSeqs

  /** A dense matrix with `rows` rows of `cols` entries each. */
  predicate IsMatrix(m: seq<seq<real>>, rows: nat, cols: nat)
  {
    |m| == rows && forall r :: 0 <= r < rows ==> |m[r]| == cols
  }

  /** An n×n matrix equal to its transpose. */
  predicate IsSymmetric(m: seq<seq<real>>, n: nat)
  {
    IsMatrix(m, n, n) && forall r, c :: 0 <= r < n && 0 <= c < n ==> m[r][c] == m[c][r]
  }

  function Zeros(n: nat): (v: seq<real>)
    ensures |v| == n && forall k :: 0 <= k < n ==> v[k] == 0.0
  {
    seq(n, k => 0.0)
  }

  function ZeroMatrix(rows: nat, cols: nat): (m: seq<seq<real>>)
    ensures IsMatrix(m, rows, cols)
    ensures forall r, c :: 0 <= r < rows && 0 <= c < cols ==> m[r][c] == 0.0
  {
    seq(rows, r => Zeros(cols))
  }

  /**
   * Entry (a, b) of a local matrix; the scatter only reads pairs of local
   * indices below the number of element vertices, where the entry exists.
   */
  function Entry(m: seq<seq<real>>, a: nat, b: nat): (r: real)
  {
    if a < |m| && b < |m[a]| then m[a][b] else 0.0
  }

  function Component(v: seq<real>, a: nat): (r: real)
  {
    if a < |v| then v[a] else 0.0
  }

  /** An element's contribution to the global system: its vertex indices with its local ke and fe. */
  datatype LocalSystem = LocalSystem(indices: seq<nat>, ke: seq<seq<real>>, fe: seq<real>)

  /** What the local pair (a, b) adds to global entry (r, c). */
  function PairWeight(idx: seq<nat>, ke: seq<seq<real>>, r: nat, c: nat, a: nat, b: nat): (res: real)
    requires a < |idx| && b < |idx|
  {
    if idx[a] == r && idx[b] == c then Entry(ke, a, b) else 0.0
  }

  /** Σ_{b < m} of the pair weights of local row a. */
  function RowWeights(idx: seq<nat>, ke: seq<seq<real>>, r: nat, c: nat, a: nat, m: nat): (res: real)
    requires a < |idx| && m <= |idx|
  {
    if m == 0 then 0.0 else RowWeights(idx, ke, r, c, a, m - 1) + PairWeight(idx, ke, r, c, a, m - 1)
  }

  /** Σ_{a < m1} Σ_{b < m2}, row by row: the order of the scatter loops. */
  function RowsTotal(idx: seq<nat>, ke: seq<seq<real>>, r: nat, c: nat, m1: nat, m2: nat): (res: real)
    requires m1 <= |idx| && m2 <= |idx|
  {
    if m1 == 0 then 0.0 else RowsTotal(idx, ke, r, c, m1 - 1, m2) + RowWeights(idx, ke, r, c, m1 - 1, m2)
  }

  /** Σ_{a < m} of the pair weights of local column b. */
  function ColWeights(idx: seq<nat>, ke: seq<seq<real>>, r: nat, c: nat, b: nat, m: nat): (res: real)
    requires b < |idx| && m <= |idx|
  {
    if m == 0 then 0.0 else ColWeights(idx, ke, r, c, b, m - 1) + PairWeight(idx, ke, r, c, m - 1, b)
  }

  /** Σ_{b < m2} Σ_{a < m1}, column by column. */
  function ColsTotal(idx: seq<nat>, ke: seq<seq<real>>, r: nat, c: nat, m1: nat, m2: nat): (res: real)
    requires m1 <= |idx| && m2 <= |idx|
  {
    if m2 == 0 then 0.0 else ColsTotal(idx, ke, r, c, m1, m2 - 1) + ColWeights(idx, ke, r, c, m2 - 1, m1)
  }

  /** What one element adds to global entry (r, c). */
  function Contribution(idx: seq<nat>, ke: seq<seq<real>>, r: nat, c: nat): (res: real)
  {
    RowsTotal(idx, ke, r, c, |idx|, |idx|)
  }

  /** What the first m local rows of one element add to global row r of the load vector. */
  function LoadContribution(idx: seq<nat>, fe: seq<real>, r: nat, m: nat): (res: real)
    requires m <= |idx|
  {
    if m == 0 then 0.0
    else LoadContribution(idx, fe, r, m - 1) + (if idx[m - 1] == r then Component(fe, m - 1) else 0.0)
  }

  /** Global entry (r, c) after scattering the given element systems in order. */
  function MatrixEntry(systems: seq<LocalSystem>, r: nat, c: nat): (res: real)
  {
    if |systems| == 0 then 0.0
    else
      var last := systems[|systems| - 1];
      MatrixEntry(systems[..|systems| - 1], r, c) + Contribution(last.indices, last.ke, r, c)
  }

  /** Global load entry r after scattering the given element systems in order. */
  function LoadEntry(systems: seq<LocalSystem>, r: nat): (res: real)
  {
    if |systems| == 0 then 0.0
    else
      var last := systems[|systems| - 1];
      LoadEntry(systems[..|systems| - 1], r) + LoadContribution(last.indices, last.fe, r, |last.indices|)
  }

  /** The n×n matrix of global entries. */
  function AssembledMatrix(systems: seq<LocalSystem>, n: nat): (a: seq<seq<real>>)
    ensures IsMatrix(a, n, n)
    ensures forall r, c :: 0 <= r < n && 0 <= c < n ==> a[r][c] == MatrixEntry(systems, r, c)
  {
    seq(n, r requires 0 <= r < n => seq(n, c requires 0 <= c < n => MatrixEntry(systems, r, c)))
  }

  /** The n global load entries. */
  function AssembledLoad(systems: seq<LocalSystem>, n: nat): (b: seq<real>)
    ensures |b| == n && forall r :: 0 <= r < n ==> b[r] == LoadEntry(systems, r)
  {
    seq(n, r requires 0 <= r < n => LoadEntry(systems, r))
  }

  // Exchanging the two sums of a local contribution.

  lemma {:induction false} ColsTotalEmpty(idx: seq<nat>, ke: seq<seq<real>>, r: nat, c: nat, m2: nat)
    requires m2 <= |idx|
    ensures ColsTotal(idx, ke, r, c, 0, m2) == 0.0
  {
    if m2 > 0 {
      ColsTotalEmpty(idx, ke, r, c, m2 - 1);
    }
  }

  /** Adding local row m1 to every column sum adds that row's weights. */
  lemma {:induction false} ColsTotalStep(idx: seq<nat>, ke: seq<seq<real>>, r: nat, c: nat, m1: nat, m2: nat)
    requires m1 < |idx| && m2 <= |idx|
    ensures ColsTotal(idx, ke, r, c, m1 + 1, m2) == ColsTotal(idx, ke, r, c, m1, m2) + RowWeights(idx, ke, r, c, m1, m2)
  {
    if m2 > 0 {
      ColsTotalStep(idx, ke, r, c, m1, m2 - 1);
    }
  }

  /** Summing row by row or column by column gives the same total. */
  lemma {:induction false} SumExchange(idx: seq<nat>, ke: seq<seq<real>>, r: nat, c: nat, m1: nat, m2: nat)
    requires m1 <= |idx| && m2 <= |idx|
    ensures RowsTotal(idx, ke, r, c, m1, m2) == ColsTotal(idx, ke, r, c, m1, m2)
  {
    if m1 == 0 {
      ColsTotalEmpty(idx, ke, r, c, m2);
    } else {
      SumExchange(idx, ke, r, c, m1 - 1, m2);
      ColsTotalStep(idx, ke, r, c, m1 - 1, m2);
    }
  }

  /** A local matrix symmetric on the pairs of local indices the scatter reads. */
  predicate LocallySymmetric(ke: seq<seq<real>>, n: nat)
  {
    forall a: nat, b: nat :: a < n && b < n ==> Entry(ke, a, b) == Entry(ke, b, a)
  }

  /** For a symmetric ke, column b of the weights of (r, c) is row b of the weights of (c, r). */
  lemma {:induction false} ColumnIsTransposedRow(idx: seq<nat>, ke: seq<seq<real>>, r: nat, c: nat, b: nat, m: nat)
    requires b < |idx| && m <= |idx| && LocallySymmetric(ke, |idx|)
    ensures ColWeights(idx, ke, r, c, b, m) == RowWeights(idx, ke, c, r, b, m)
  {
    if m > 0 {
      ColumnIsTransposedRow(idx, ke, r, c, b, m - 1);
      assert Entry(ke, m - 1, b) == Entry(ke, b, m - 1);
    }
  }

  lemma {:induction false} ColsTotalTransposed(idx: seq<nat>, ke: seq<seq<real>>, r: nat, c: nat, m1: nat, m2: nat)
    requires m1 <= |idx| && m2 <= |idx| && LocallySymmetric(ke, |idx|)
    ensures ColsTotal(idx, ke, r, c, m1, m2) == RowsTotal(idx, ke, c, r, m2, m1)
  {
    if m2 > 0 {
      ColsTotalTransposed(idx, ke, r, c, m1, m2 - 1);
      ColumnIsTransposedRow(idx, ke, r, c, m2 - 1, m1);
    }
  }

  /** A symmetric local matrix makes a symmetric contribution, even with repeated vertex indices. */
  lemma ContributionSymmetric(idx: seq<nat>, ke: seq<seq<real>>, r: nat, c: nat)
    requires LocallySymmetric(ke, |idx|)
    ensures Contribution(idx, ke, r, c) == Contribution(idx, ke, c, r)
  {
    SumExchange(idx, ke, r, c, |idx|, |idx|);
    ColsTotalTransposed(idx, ke, r, c, |idx|, |idx|);
  }

  predicate AllLocallySymmetric(systems: seq<LocalSystem>)
  {
    forall k :: 0 <= k < |systems| ==> LocallySymmetric(systems[k].ke, |systems[k].indices|)
  }

  /** Scattering symmetric local matrices gives a symmetric global matrix. */
  lemma {:induction false} MatrixEntrySymmetric(systems: seq<LocalSystem>, r: nat, c: nat)
    requires AllLocallySymmetric(systems)
    ensures MatrixEntry(systems, r, c) == MatrixEntry(systems, c, r)
  {
    if |systems| > 0 {
      var last := systems[|systems| - 1];
      assert LocallySymmetric(last.ke, |last.indices|);
      MatrixEntrySymmetric(systems[..|systems| - 1], r, c);
      ContributionSymmetric(last.indices, last.ke, r, c);
    }
  }

  lemma AssembledMatrixSymmetric(systems: seq<LocalSystem>, n: nat)
    requires AllLocallySymmetric(systems)
    ensures IsSymmetric(AssembledMatrix(systems, n), n)
  {
    forall r, c | 0 <= r < n && 0 <= c < n
      ensures AssembledMatrix(systems, n)[r][c] == AssembledMatrix(systems, n)[c][r]
    {
      MatrixEntrySymmetric(systems, r, c);
    }
  }

  // Additivity and order independence.

  /** Assembling s1 then s2 adds the two assemblies. */
  lemma {:induction false} MatrixEntryAppend(s1: seq<LocalSystem>, s2: seq<LocalSystem>, r: nat, c: nat)
    ensures MatrixEntry(s1 + s2, r, c) == MatrixEntry(s1, r, c) + MatrixEntry(s2, r, c)
    decreases |s2|
  {
    if |s2| == 0 {
      assert s1 + s2 == s1;
    } else {
      assert (s1 + s2)[..|s1 + s2| - 1] == s1 + s2[..|s2| - 1];
      MatrixEntryAppend(s1, s2[..|s2| - 1], r, c);
    }
  }

  lemma {:induction false} LoadEntryAppend(s1: seq<LocalSystem>, s2: seq<LocalSystem>, r: nat)
    ensures LoadEntry(s1 + s2, r) == LoadEntry(s1, r) + LoadEntry(s2, r)
    decreases |s2|
  {
    if |s2| == 0 {
      assert s1 + s2 == s1;
    } else {
      assert (s1 + s2)[..|s1 + s2| - 1] == s1 + s2[..|s2| - 1];
      LoadEntryAppend(s1, s2[..|s2| - 1], r);
    }
  }

  /** Swapping two groups of elements leaves the assembled system unchanged. */
  lemma AssemblyOrderIndependent(s1: seq<LocalSystem>, s2: seq<LocalSystem>, n: nat)
    ensures AssembledMatrix(s1 + s2, n) == AssembledMatrix(s2 + s1, n)
    ensures AssembledLoad(s1 + s2, n) == AssembledLoad(s2 + s1, n)
  {
    forall r, c | 0 <= r < n && 0 <= c < n
      ensures AssembledMatrix(s1 + s2, n)[r][c] == AssembledMatrix(s2 + s1, n)[r][c]
    {
      MatrixEntryAppend(s1, s2, r, c);
      MatrixEntryAppend(s2, s1, r, c);
    }
    forall r | 0 <= r < n
      ensures AssembledLoad(s1 + s2, n)[r] == AssembledLoad(s2 + s1, n)[r]
    {
      LoadEntryAppend(s1, s2, r);
      LoadEntryAppend(s2, s1, r);
    }
    assert forall r | 0 <= r < n :: AssembledMatrix(s1 + s2, n)[r] == AssembledMatrix(s2 + s1, n)[r];
  }

  // Vertices that no element uses.

  predicate Unused(systems: seq<LocalSystem>, v: nat)
  {
    forall k, a :: 0 <= k < |systems| && 0 <= a < |systems[k].indices| ==> systems[k].indices[a] != v
  }

  lemma {:induction false} RowWeightsZero(idx: seq<nat>, ke: seq<seq<real>>, r: nat, c: nat, a: nat, m: nat)
    requires a < |idx| && m <= |idx|
    requires forall b :: 0 <= b < m ==> PairWeight(idx, ke, r, c, a, b) == 0.0
    ensures RowWeights(idx, ke, r, c, a, m) == 0.0
  {
    if m > 0 {
      RowWeightsZero(idx, ke, r, c, a, m - 1);
    }
  }

  lemma {:induction false} RowsTotalZero(idx: seq<nat>, ke: seq<seq<real>>, r: nat, c: nat, m1: nat, m2: nat)
    requires m1 <= |idx| && m2 <= |idx|
    requires forall a, b :: 0 <= a < m1 && 0 <= b < m2 ==> PairWeight(idx, ke, r, c, a, b) == 0.0
    ensures RowsTotal(idx, ke, r, c, m1, m2) == 0.0
  {
    if m1 > 0 {
      RowsTotalZero(idx, ke, r, c, m1 - 1, m2);
      RowWeightsZero(idx, ke, r, c, m1 - 1, m2);
    }
  }

  /** An element whose indices avoid v adds nothing to row v or column v. */
  lemma ContributionAvoids(idx: seq<nat>, ke: seq<seq<real>>, v: nat, c: nat)
    requires forall a :: 0 <= a < |idx| ==> idx[a] != v
    ensures Contribution(idx, ke, v, c) == 0.0 && Contribution(idx, ke, c, v) == 0.0
  {
    RowsTotalZero(idx, ke, v, c, |idx|, |idx|);
    RowsTotalZero(idx, ke, c, v, |idx|, |idx|);
  }

  lemma {:induction false} LoadContributionAvoids(idx: seq<nat>, fe: seq<real>, v: nat, m: nat)
    requires m <= |idx|
    requires forall a :: 0 <= a < |idx| ==> idx[a] != v
    ensures LoadContribution(idx, fe, v, m) == 0.0
  {
    if m > 0 {
      LoadContributionAvoids(idx, fe, v, m - 1);
    }
  }

  /** A vertex that no element uses keeps a zero row, a zero column and a zero load entry. */
  lemma {:induction false} UnusedVertexStaysZero(systems: seq<LocalSystem>, v: nat, c: nat)
    requires Unused(systems, v)
    ensures MatrixEntry(systems, v, c) == 0.0 && MatrixEntry(systems, c, v) == 0.0
    ensures LoadEntry(systems, v) == 0.0
  {
    if |systems| > 0 {
      var last := systems[|systems| - 1];
      UnusedVertexStaysZero(systems[..|systems| - 1], v, c);
      ContributionAvoids(last.indices, last.ke, v, c);
      LoadContributionAvoids(last.indices, last.fe, v, |last.indices|);
    }
  }

  // Zero load vectors.

  lemma {:induction false} LoadContributionZero(idx: seq<nat>, fe: seq<real>, r: nat, m: nat)
    requires m <= |idx|
    requires forall a :: 0 <= a < |fe| ==> fe[a] == 0.0
    ensures LoadContribution(idx, fe, r, m) == 0.0
  {
    if m > 0 {
      LoadContributionZero(idx, fe, r, m - 1);
    }
  }

  /** Scattering zero local vectors gives a zero global vector. */
  lemma {:induction false} ZeroLoadsStayZero(systems: seq<LocalSystem>, r: nat)
    requires forall k, a :: 0 <= k < |systems| && 0 <= a < |systems[k].fe| ==> systems[k].fe[a] == 0.0
    ensures LoadEntry(systems, r) == 0.0
  {
    if |systems| > 0 {
      var last := systems[|systems| - 1];
      ZeroLoadsStayZero(systems[..|systems| - 1], r);
      LoadContributionZero(last.indices, last.fe, r, |last.indices|);
    }
  }
}
