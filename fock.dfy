/**
 * The closed forms of the generalized and super-generalized Fock matrices, as
 * contractions of the one- and two-electron integrals h, g with a 1-RDM D and a
 * 2-RDM d, all in K orbitals:
 *
 *   F(p,q)     = Σ_r h(q,r)·D(p,r) + Σ_{r,s,t} g(q,r,s,t)·d(p,r,s,t)
 *   W(p,q,r,s) = [r = q]·F(p,s) − h(s,p)·D(r,q)
 *                + Σ_{t,u} ( g(s,t,q,u)·d(r,t,p,u) − g(s,t,u,p)·d(r,t,u,q) − g(s,p,t,u)·d(r,q,t,u) )
 *
 * Every sum runs over 0 … K-1, in the order of the library's loops.
 */
module Fock {
  import opened Sums
  import opened Matrices

  /** h and D are K×K, g and d are K×K×K×K. */
  predicate Compatible(h: Matrix, g: Tensor4, D: Matrix, d: Tensor4, K: nat)
  {
    IsMatrix(h, K) && IsTensor(g, K) && IsMatrix(D, K) && IsTensor(d, K)
  }

  /** h(q,r)·D(p,r), r = 0 … K-1. */
  function OneElectronTerms(h: Matrix, D: Matrix, K: nat, p: nat, q: nat): (r: seq<real>)
    requires IsMatrix(h, K) && IsMatrix(D, K) && p < K && q < K
    ensures |r| == K
  {
    seq(K, r requires 0 <= r < K => h[q][r] * D[p][r])
  }

  /** g(q,r,s,t)·d(p,r,s,t), t = 0 … K-1. */
  function TwoElectronTerms(g: Tensor4, d: Tensor4, K: nat, p: nat, q: nat, r: nat, s: nat): (x: seq<real>)
    requires IsTensor(g, K) && IsTensor(d, K) && p < K && q < K && r < K && s < K
    ensures |x| == K
  {
    seq(K, t requires 0 <= t < K => g[q][r][s][t] * d[p][r][s][t])
  }

  /** Σ_t g(q,r,s,t)·d(p,r,s,t), s = 0 … K-1. */
  function TwoElectronRow(g: Tensor4, d: Tensor4, K: nat, p: nat, q: nat, r: nat): (x: seq<real>)
    requires IsTensor(g, K) && IsTensor(d, K) && p < K && q < K && r < K
    ensures |x| == K
  {
    seq(K, s requires 0 <= s < K => Sum(TwoElectronTerms(g, d, K, p, q, r, s)))
  }

  /** Σ_{s,t} g(q,r,s,t)·d(p,r,s,t), r = 0 … K-1. */
  function TwoElectronColumn(g: Tensor4, d: Tensor4, K: nat, p: nat, q: nat): (x: seq<real>)
    requires IsTensor(g, K) && IsTensor(d, K) && p < K && q < K
    ensures |x| == K
  {
    seq(K, r requires 0 <= r < K => Sum(TwoElectronRow(g, d, K, p, q, r)))
  }

  /** F(p,q). */
  function GeneralizedFockElement(h: Matrix, g: Tensor4, D: Matrix, d: Tensor4, K: nat, p: nat, q: nat): real
    requires Compatible(h, g, D, d, K) && p < K && q < K
  {
    Sum(OneElectronTerms(h, D, K, p, q)) + Sum(TwoElectronColumn(g, d, K, p, q))
  }

  /** Row p of F. */
  function GeneralizedFockRow(h: Matrix, g: Tensor4, D: Matrix, d: Tensor4, K: nat, p: nat): (row: seq<real>)
    requires Compatible(h, g, D, d, K) && p < K
    ensures |row| == K
  {
    seq(K, q requires 0 <= q < K => GeneralizedFockElement(h, g, D, d, K, p, q))
  }

  /** The K×K generalized Fock matrix F. */
  function GeneralizedFock(h: Matrix, g: Tensor4, D: Matrix, d: Tensor4, K: nat): (F: Matrix)
    requires Compatible(h, g, D, d, K)
    ensures IsMatrix(F, K)
  {
    seq(K, p requires 0 <= p < K => GeneralizedFockRow(h, g, D, d, K, p))
  }

  /** The three two-electron terms of W(p,q,r,s) for one t and u. */
  function SuperTerm(g: Tensor4, d: Tensor4, K: nat, p: nat, q: nat, r: nat, s: nat, t: nat, u: nat): real
    requires IsTensor(g, K) && IsTensor(d, K) && p < K && q < K && r < K && s < K && t < K && u < K
  {
    g[s][t][q][u] * d[r][t][p][u] - g[s][t][u][p] * d[r][t][u][q] - g[s][p][t][u] * d[r][q][t][u]
  }

  /** SuperTerm for one t, u = 0 … K-1. */
  function SuperTerms(g: Tensor4, d: Tensor4, K: nat, p: nat, q: nat, r: nat, s: nat, t: nat): (x: seq<real>)
    requires IsTensor(g, K) && IsTensor(d, K) && p < K && q < K && r < K && s < K && t < K
    ensures |x| == K
  {
    seq(K, u requires 0 <= u < K => SuperTerm(g, d, K, p, q, r, s, t, u))
  }

  /** Σ_u of the two-electron terms of W(p,q,r,s), t = 0 … K-1. */
  function SuperRow(g: Tensor4, d: Tensor4, K: nat, p: nat, q: nat, r: nat, s: nat): (x: seq<real>)
    requires IsTensor(g, K) && IsTensor(d, K) && p < K && q < K && r < K && s < K
    ensures |x| == K
  {
    seq(K, t requires 0 <= t < K => Sum(SuperTerms(g, d, K, p, q, r, s, t)))
  }

  /** W(p,q,r,s). */
  function SuperGeneralizedFockElement(h: Matrix, g: Tensor4, D: Matrix, d: Tensor4, K: nat,
                                       p: nat, q: nat, r: nat, s: nat): real
    requires Compatible(h, g, D, d, K) && p < K && q < K && r < K && s < K
  {
    (if r == q then GeneralizedFockElement(h, g, D, d, K, p, s) else 0.0)
    - h[s][p] * D[r][q]
    + Sum(SuperRow(g, d, K, p, q, r, s))
  }

  /** W(p,q,r,s), s = 0 … K-1. */
  function SuperGeneralizedFockRow(h: Matrix, g: Tensor4, D: Matrix, d: Tensor4, K: nat,
                                   p: nat, q: nat, r: nat): (row: seq<real>)
    requires Compatible(h, g, D, d, K) && p < K && q < K && r < K
    ensures |row| == K
  {
    seq(K, s requires 0 <= s < K => SuperGeneralizedFockElement(h, g, D, d, K, p, q, r, s))
  }

  /** W(p,q,r,·), r = 0 … K-1. */
  function SuperGeneralizedFockPlane(h: Matrix, g: Tensor4, D: Matrix, d: Tensor4, K: nat,
                                     p: nat, q: nat): (plane: seq<seq<real>>)
    requires Compatible(h, g, D, d, K) && p < K && q < K
    ensures IsMatrix(plane, K)
  {
    seq(K, r requires 0 <= r < K => SuperGeneralizedFockRow(h, g, D, d, K, p, q, r))
  }

  /** W(p,q,·,·), q = 0 … K-1. */
  function SuperGeneralizedFockBlock(h: Matrix, g: Tensor4, D: Matrix, d: Tensor4, K: nat,
                                     p: nat): (block: seq<seq<seq<real>>>)
    requires Compatible(h, g, D, d, K) && p < K
    ensures |block| == K && forall q :: 0 <= q < K ==> IsMatrix(block[q], K)
  {
    seq(K, q requires 0 <= q < K => SuperGeneralizedFockPlane(h, g, D, d, K, p, q))
  }

  /** The K×K×K×K super-generalized Fock matrix W. */
  function SuperGeneralizedFock(h: Matrix, g: Tensor4, D: Matrix, d: Tensor4, K: nat): (W: Tensor4)
    requires Compatible(h, g, D, d, K)
    ensures IsTensor(W, K)
  {
    seq(K, p requires 0 <= p < K => SuperGeneralizedFockBlock(h, g, D, d, K, p))
  }

  lemma GeneralizedFockAt(h: Matrix, g: Tensor4, D: Matrix, d: Tensor4, K: nat, p: nat, q: nat)
    requires Compatible(h, g, D, d, K) && p < K && q < K
    ensures GeneralizedFock(h, g, D, d, K)[p][q] == GeneralizedFockElement(h, g, D, d, K, p, q)
  {
    assert GeneralizedFock(h, g, D, d, K)[p] == GeneralizedFockRow(h, g, D, d, K, p);
  }

  /** Every entry of a K×K matrix is zero. */
  predicate AllZeroMatrix(m: Matrix, K: nat)
    requires IsMatrix(m, K)
  {
    forall i, j :: 0 <= i < K && 0 <= j < K ==> m[i][j] == 0.0
  }

  /** Every entry of a K×K×K×K tensor is zero. */
  predicate AllZeroTensor(t: Tensor4, K: nat)
    requires IsTensor(t, K)
  {
    forall i, j, k, l :: 0 <= i < K && 0 <= j < K && 0 <= k < K && 0 <= l < K ==> t[i][j][k][l] == 0.0
  }

  /** Contracting against vanishing density matrices gives a vanishing F. */
  lemma GeneralizedFockOfZeroRDMs(h: Matrix, g: Tensor4, D: Matrix, d: Tensor4, K: nat)
    requires Compatible(h, g, D, d, K) && AllZeroMatrix(D, K) && AllZeroTensor(d, K)
    ensures AllZeroMatrix(GeneralizedFock(h, g, D, d, K), K)
  {
    forall p, q | 0 <= p < K && 0 <= q < K
      ensures GeneralizedFockElement(h, g, D, d, K, p, q) == 0.0
    {
      GeneralizedFockElementOfZeroRDMs(h, g, D, d, K, p, q);
    }
  }

  lemma GeneralizedFockElementOfZeroRDMs(h: Matrix, g: Tensor4, D: Matrix, d: Tensor4, K: nat, p: nat, q: nat)
    requires Compatible(h, g, D, d, K) && AllZeroMatrix(D, K) && AllZeroTensor(d, K)
    requires p < K && q < K
    ensures GeneralizedFockElement(h, g, D, d, K, p, q) == 0.0
  {
    SumOfZeros(OneElectronTerms(h, D, K, p, q));
    forall r | 0 <= r < K
      ensures Sum(TwoElectronRow(g, d, K, p, q, r)) == 0.0
    {
      forall s | 0 <= s < K
        ensures Sum(TwoElectronTerms(g, d, K, p, q, r, s)) == 0.0
      {
        SumOfZeros(TwoElectronTerms(g, d, K, p, q, r, s));
      }
      SumOfZeros(TwoElectronRow(g, d, K, p, q, r));
    }
    SumOfZeros(TwoElectronColumn(g, d, K, p, q));
  }

  /** Contracting against vanishing density matrices gives a vanishing W. */
  lemma SuperGeneralizedFockOfZeroRDMs(h: Matrix, g: Tensor4, D: Matrix, d: Tensor4, K: nat)
    requires Compatible(h, g, D, d, K) && AllZeroMatrix(D, K) && AllZeroTensor(d, K)
    ensures AllZeroTensor(SuperGeneralizedFock(h, g, D, d, K), K)
  {
    forall p, q, r, s | 0 <= p < K && 0 <= q < K && 0 <= r < K && 0 <= s < K
      ensures SuperGeneralizedFockElement(h, g, D, d, K, p, q, r, s) == 0.0
    {
      GeneralizedFockElementOfZeroRDMs(h, g, D, d, K, p, s);
      forall t | 0 <= t < K
        ensures Sum(SuperTerms(g, d, K, p, q, r, s, t)) == 0.0
      {
        SumOfZeros(SuperTerms(g, d, K, p, q, r, s, t));
      }
      SumOfZeros(SuperRow(g, d, K, p, q, r, s));
    }
  }

  /** The entrywise sum of two K×K matrices. */
  function MatrixAdd(a: Matrix, b: Matrix, K: nat): (c: Matrix)
    requires IsMatrix(a, K) && IsMatrix(b, K)
    ensures IsMatrix(c, K)
  {
    seq(K, i requires 0 <= i < K => seq(K, j requires 0 <= j < K => a[i][j] + b[i][j]))
  }

  /** The entrywise sum of two K×K×K×K tensors. */
  function TensorAdd(a: Tensor4, b: Tensor4, K: nat): (c: Tensor4)
    requires IsTensor(a, K) && IsTensor(b, K)
    ensures IsTensor(c, K)
  {
    seq(K, i requires 0 <= i < K =>
      seq(K, j requires 0 <= j < K =>
        seq(K, k requires 0 <= k < K =>
          seq(K, l requires 0 <= l < K => a[i][j][k][l] + b[i][j][k][l]))))
  }

  /** F(p,q) is additive in the density matrices (D, d). */
  lemma GeneralizedFockElementAdditive(h: Matrix, g: Tensor4, D1: Matrix, d1: Tensor4, D2: Matrix, d2: Tensor4,
                                       K: nat, p: nat, q: nat)
    requires Compatible(h, g, D1, d1, K) && Compatible(h, g, D2, d2, K) && p < K && q < K
    ensures GeneralizedFockElement(h, g, MatrixAdd(D1, D2, K), TensorAdd(d1, d2, K), K, p, q) ==
            GeneralizedFockElement(h, g, D1, d1, K, p, q) + GeneralizedFockElement(h, g, D2, d2, K, p, q)
  {
    var D, d := MatrixAdd(D1, D2, K), TensorAdd(d1, d2, K);
    forall r | 0 <= r < K
      ensures OneElectronTerms(h, D, K, p, q)[r] == OneElectronTerms(h, D1, K, p, q)[r] + OneElectronTerms(h, D2, K, p, q)[r]
    {
      assert D[p][r] == D1[p][r] + D2[p][r];
      OneElectronTermAt(h, D, K, p, q, r);
      OneElectronTermAt(h, D1, K, p, q, r);
      OneElectronTermAt(h, D2, K, p, q, r);
    }
    SumAdd(OneElectronTerms(h, D1, K, p, q), OneElectronTerms(h, D2, K, p, q), OneElectronTerms(h, D, K, p, q));
    forall r | 0 <= r < K
      ensures TwoElectronColumn(g, d, K, p, q)[r] == TwoElectronColumn(g, d1, K, p, q)[r] + TwoElectronColumn(g, d2, K, p, q)[r]
    {
      TwoElectronRowAdditive(g, d1, d2, K, p, q, r);
    }
    SumAdd(TwoElectronColumn(g, d1, K, p, q), TwoElectronColumn(g, d2, K, p, q), TwoElectronColumn(g, d, K, p, q));
  }

  lemma TwoElectronRowAdditive(g: Tensor4, d1: Tensor4, d2: Tensor4, K: nat, p: nat, q: nat, r: nat)
    requires IsTensor(g, K) && IsTensor(d1, K) && IsTensor(d2, K) && p < K && q < K && r < K
    ensures Sum(TwoElectronRow(g, TensorAdd(d1, d2, K), K, p, q, r)) ==
            Sum(TwoElectronRow(g, d1, K, p, q, r)) + Sum(TwoElectronRow(g, d2, K, p, q, r))
  {
    var d := TensorAdd(d1, d2, K);
    forall s | 0 <= s < K
      ensures TwoElectronRow(g, d, K, p, q, r)[s] == TwoElectronRow(g, d1, K, p, q, r)[s] + TwoElectronRow(g, d2, K, p, q, r)[s]
    {
      forall t | 0 <= t < K
        ensures TwoElectronTerms(g, d, K, p, q, r, s)[t] ==
                TwoElectronTerms(g, d1, K, p, q, r, s)[t] + TwoElectronTerms(g, d2, K, p, q, r, s)[t]
      {
        assert d[p][r][s][t] == d1[p][r][s][t] + d2[p][r][s][t];
        TwoElectronTermAt(g, d, K, p, q, r, s, t);
        TwoElectronTermAt(g, d1, K, p, q, r, s, t);
        TwoElectronTermAt(g, d2, K, p, q, r, s, t);
      }
      SumAdd(TwoElectronTerms(g, d1, K, p, q, r, s), TwoElectronTerms(g, d2, K, p, q, r, s), TwoElectronTerms(g, d, K, p, q, r, s));
    }
    SumAdd(TwoElectronRow(g, d1, K, p, q, r), TwoElectronRow(g, d2, K, p, q, r), TwoElectronRow(g, d, K, p, q, r));
  }

  /** The generalized Fock matrix is additive in the density matrices. */
  lemma GeneralizedFockAdditive(h: Matrix, g: Tensor4, D1: Matrix, d1: Tensor4, D2: Matrix, d2: Tensor4, K: nat)
    requires Compatible(h, g, D1, d1, K) && Compatible(h, g, D2, d2, K)
    ensures GeneralizedFock(h, g, MatrixAdd(D1, D2, K), TensorAdd(d1, d2, K), K) ==
            MatrixAdd(GeneralizedFock(h, g, D1, d1, K), GeneralizedFock(h, g, D2, d2, K), K)
  {
    var D, d := MatrixAdd(D1, D2, K), TensorAdd(d1, d2, K);
    var F, F1, F2 := GeneralizedFock(h, g, D, d, K), GeneralizedFock(h, g, D1, d1, K), GeneralizedFock(h, g, D2, d2, K);
    var sum := MatrixAdd(F1, F2, K);
    forall p | 0 <= p < K
      ensures F[p] == sum[p]
    {
      forall q | 0 <= q < K
        ensures F[p][q] == sum[p][q]
      {
        GeneralizedFockAt(h, g, D, d, K, p, q);
        GeneralizedFockAt(h, g, D1, d1, K, p, q);
        GeneralizedFockAt(h, g, D2, d2, K, p, q);
        GeneralizedFockElementAdditive(h, g, D1, d1, D2, d2, K, p, q);
      }
    }
  }

  lemma SuperRowAdditive(g: Tensor4, d1: Tensor4, d2: Tensor4, K: nat, p: nat, q: nat, r: nat, s: nat)
    requires IsTensor(g, K) && IsTensor(d1, K) && IsTensor(d2, K) && p < K && q < K && r < K && s < K
    ensures Sum(SuperRow(g, TensorAdd(d1, d2, K), K, p, q, r, s)) ==
            Sum(SuperRow(g, d1, K, p, q, r, s)) + Sum(SuperRow(g, d2, K, p, q, r, s))
  {
    var d := TensorAdd(d1, d2, K);
    forall t | 0 <= t < K
      ensures SuperRow(g, d, K, p, q, r, s)[t] == SuperRow(g, d1, K, p, q, r, s)[t] + SuperRow(g, d2, K, p, q, r, s)[t]
    {
      forall u | 0 <= u < K
        ensures SuperTerms(g, d, K, p, q, r, s, t)[u] ==
                SuperTerms(g, d1, K, p, q, r, s, t)[u] + SuperTerms(g, d2, K, p, q, r, s, t)[u]
      {
        assert d[r][t][p][u] == d1[r][t][p][u] + d2[r][t][p][u];
        assert d[r][t][u][q] == d1[r][t][u][q] + d2[r][t][u][q];
        assert d[r][q][t][u] == d1[r][q][t][u] + d2[r][q][t][u];
        SuperTermAt(g, d, K, p, q, r, s, t, u);
        SuperTermAt(g, d1, K, p, q, r, s, t, u);
        SuperTermAt(g, d2, K, p, q, r, s, t, u);
      }
      SumAdd(SuperTerms(g, d1, K, p, q, r, s, t), SuperTerms(g, d2, K, p, q, r, s, t), SuperTerms(g, d, K, p, q, r, s, t));
      SuperRowAt(g, d, K, p, q, r, s, t);
      SuperRowAt(g, d1, K, p, q, r, s, t);
      SuperRowAt(g, d2, K, p, q, r, s, t);
    }
    SumAdd(SuperRow(g, d1, K, p, q, r, s), SuperRow(g, d2, K, p, q, r, s), SuperRow(g, d, K, p, q, r, s));
  }

  /** W(p,q,r,s) is additive in the density matrices (D, d). */
  lemma SuperGeneralizedFockElementAdditive(h: Matrix, g: Tensor4, D1: Matrix, d1: Tensor4, D2: Matrix, d2: Tensor4,
                                            K: nat, p: nat, q: nat, r: nat, s: nat)
    requires Compatible(h, g, D1, d1, K) && Compatible(h, g, D2, d2, K) && p < K && q < K && r < K && s < K
    ensures SuperGeneralizedFockElement(h, g, MatrixAdd(D1, D2, K), TensorAdd(d1, d2, K), K, p, q, r, s) ==
            SuperGeneralizedFockElement(h, g, D1, d1, K, p, q, r, s) + SuperGeneralizedFockElement(h, g, D2, d2, K, p, q, r, s)
  {
    var D, d := MatrixAdd(D1, D2, K), TensorAdd(d1, d2, K);
    assert D[r][q] == D1[r][q] + D2[r][q];
    Distributes(h[s][p], D1[r][q], D2[r][q]);
    GeneralizedFockElementAdditive(h, g, D1, d1, D2, d2, K, p, s);
    SuperRowAdditive(g, d1, d2, K, p, q, r, s);
    SuperGeneralizedFockElementFromParts(h, g, D, d, D1, d1, D2, d2, K, p, q, r, s);
  }

  /** W(p,q,r,s) adds up once F(p,s), D(r,q) and the two-electron sum do. */
  lemma SuperGeneralizedFockElementFromParts(h: Matrix, g: Tensor4, D: Matrix, d: Tensor4, D1: Matrix, d1: Tensor4,
                                             D2: Matrix, d2: Tensor4, K: nat, p: nat, q: nat, r: nat, s: nat)
    requires Compatible(h, g, D, d, K) && Compatible(h, g, D1, d1, K) && Compatible(h, g, D2, d2, K)
    requires p < K && q < K && r < K && s < K
    requires GeneralizedFockElement(h, g, D, d, K, p, s) ==
             GeneralizedFockElement(h, g, D1, d1, K, p, s) + GeneralizedFockElement(h, g, D2, d2, K, p, s)
    requires h[s][p] * D[r][q] == h[s][p] * D1[r][q] + h[s][p] * D2[r][q]
    requires Sum(SuperRow(g, d, K, p, q, r, s)) == Sum(SuperRow(g, d1, K, p, q, r, s)) + Sum(SuperRow(g, d2, K, p, q, r, s))
    ensures SuperGeneralizedFockElement(h, g, D, d, K, p, q, r, s) ==
            SuperGeneralizedFockElement(h, g, D1, d1, K, p, q, r, s) + SuperGeneralizedFockElement(h, g, D2, d2, K, p, q, r, s)
  {
    SuperGeneralizedFockElementParts(h, g, D, d, K, p, q, r, s);
    SuperGeneralizedFockElementParts(h, g, D1, d1, K, p, q, r, s);
    SuperGeneralizedFockElementParts(h, g, D2, d2, K, p, q, r, s);
    Combine(r == q, GeneralizedFockElement(h, g, D, d, K, p, s), GeneralizedFockElement(h, g, D1, d1, K, p, s),
            GeneralizedFockElement(h, g, D2, d2, K, p, s), h[s][p] * D[r][q], h[s][p] * D1[r][q], h[s][p] * D2[r][q],
            Sum(SuperRow(g, d, K, p, q, r, s)), Sum(SuperRow(g, d1, K, p, q, r, s)), Sum(SuperRow(g, d2, K, p, q, r, s)));
  }

  lemma SuperGeneralizedFockElementParts(h: Matrix, g: Tensor4, D: Matrix, d: Tensor4, K: nat, p: nat, q: nat, r: nat, s: nat)
    requires Compatible(h, g, D, d, K) && p < K && q < K && r < K && s < K
    ensures SuperGeneralizedFockElement(h, g, D, d, K, p, q, r, s) ==
            (if r == q then GeneralizedFockElement(h, g, D, d, K, p, s) else 0.0) - h[s][p] * D[r][q] + Sum(SuperRow(g, d, K, p, q, r, s))
  {
  }

  /** The shape of W(p,q,r,s) is additive once its three parts are. */
  lemma Combine(c: bool, f: real, f1: real, f2: real, m: real, m1: real, m2: real, t: real, t1: real, t2: real)
    requires f == f1 + f2 && m == m1 + m2 && t == t1 + t2
    ensures (if c then f else 0.0) - m + t == ((if c then f1 else 0.0) - m1 + t1) + ((if c then f2 else 0.0) - m2 + t2)
  {
  }

  lemma Distributes(x: real, a: real, b: real)
    ensures x * (a + b) == x * a + x * b
  {
  }

  /** The super-generalized Fock matrix is additive in the density matrices. */
  lemma SuperGeneralizedFockAdditive(h: Matrix, g: Tensor4, D1: Matrix, d1: Tensor4, D2: Matrix, d2: Tensor4, K: nat)
    requires Compatible(h, g, D1, d1, K) && Compatible(h, g, D2, d2, K)
    ensures SuperGeneralizedFock(h, g, MatrixAdd(D1, D2, K), TensorAdd(d1, d2, K), K) ==
            TensorAdd(SuperGeneralizedFock(h, g, D1, d1, K), SuperGeneralizedFock(h, g, D2, d2, K), K)
  {
    var D, d := MatrixAdd(D1, D2, K), TensorAdd(d1, d2, K);
    var W, W1, W2 := SuperGeneralizedFock(h, g, D, d, K), SuperGeneralizedFock(h, g, D1, d1, K), SuperGeneralizedFock(h, g, D2, d2, K);
    var sum := TensorAdd(W1, W2, K);
    forall p, q, r, s | 0 <= p < K && 0 <= q < K && 0 <= r < K && 0 <= s < K
      ensures W[p][q][r][s] == sum[p][q][r][s]
    {
      SuperGeneralizedFockAt(h, g, D, d, K, p, q, r, s);
      SuperGeneralizedFockAt(h, g, D1, d1, K, p, q, r, s);
      SuperGeneralizedFockAt(h, g, D2, d2, K, p, q, r, s);
      SuperGeneralizedFockElementAdditive(h, g, D1, d1, D2, d2, K, p, q, r, s);
    }
    TensorExtensionality(W, sum);
  }

  lemma SuperGeneralizedFockAt(h: Matrix, g: Tensor4, D: Matrix, d: Tensor4, K: nat, p: nat, q: nat, r: nat, s: nat)
    requires Compatible(h, g, D, d, K) && p < K && q < K && r < K && s < K
    ensures SuperGeneralizedFock(h, g, D, d, K)[p][q][r][s] == SuperGeneralizedFockElement(h, g, D, d, K, p, q, r, s)
  {
    var W := SuperGeneralizedFock(h, g, D, d, K);
    assert W[p] == SuperGeneralizedFockBlock(h, g, D, d, K, p);
    assert W[p][q] == SuperGeneralizedFockPlane(h, g, D, d, K, p, q);
    assert W[p][q][r] == SuperGeneralizedFockRow(h, g, D, d, K, p, q, r);
  }

  lemma OneElectronTermAt(h: Matrix, D: Matrix, K: nat, p: nat, q: nat, r: nat)
    requires IsMatrix(h, K) && IsMatrix(D, K) && p < K && q < K && r < K
    ensures OneElectronTerms(h, D, K, p, q)[r] == h[q][r] * D[p][r]
  {
  }

  lemma TwoElectronTermAt(g: Tensor4, d: Tensor4, K: nat, p: nat, q: nat, r: nat, s: nat, t: nat)
    requires IsTensor(g, K) && IsTensor(d, K) && p < K && q < K && r < K && s < K && t < K
    ensures TwoElectronTerms(g, d, K, p, q, r, s)[t] == g[q][r][s][t] * d[p][r][s][t]
  {
  }

  /** F(p,q), accumulated as the library does: the r loop, then the r, s, t loops. */
  method GeneralizedFockEntry(h: Matrix, g: Tensor4, D: Matrix, d: Tensor4, K: nat, p: nat, q: nat)
    returns (f: real)
    requires Compatible(h, g, D, d, K) && p < K && q < K
    ensures f == GeneralizedFockElement(h, g, D, d, K, p, q)
  {
    ghost var one := OneElectronTerms(h, D, K, p, q);
    ghost var column := TwoElectronColumn(g, d, K, p, q);
    f := 0.0;
    for r := 0 to K
      invariant f == Sum(one[..r])
    {
      OneElectronTermAt(h, D, K, p, q, r);
      SumStep(one, r);
      f := f + h[q][r] * D[p][r];
    }
    assert one[..K] == one;
    ghost var oneElectron := f;
    for r := 0 to K
      invariant f == oneElectron + Sum(column[..r])
    {
      ghost var row := TwoElectronRow(g, d, K, p, q, r);
      ghost var start := f;
      for s := 0 to K
        invariant f == start + Sum(row[..s])
      {
        ghost var terms := TwoElectronTerms(g, d, K, p, q, r, s);
        ghost var partial := f;
        for t := 0 to K
          invariant f == partial + Sum(terms[..t])
        {
          TwoElectronTermAt(g, d, K, p, q, r, s, t);
          SumStep(terms, t);
          f := f + g[q][r][s][t] * d[p][r][s][t];
        }
        assert terms[..K] == terms;
        assert row[s] == Sum(terms);
        SumStep(row, s);
      }
      assert row[..K] == row;
      assert column[r] == Sum(row);
      SumStep(column, r);
    }
    assert column[..K] == column;
  }

  lemma SuperTermAt(g: Tensor4, d: Tensor4, K: nat, p: nat, q: nat, r: nat, s: nat, t: nat, u: nat)
    requires IsTensor(g, K) && IsTensor(d, K) && p < K && q < K && r < K && s < K && t < K && u < K
    ensures SuperTerms(g, d, K, p, q, r, s, t)[u] == SuperTerm(g, d, K, p, q, r, s, t, u)
  {
  }

  lemma SuperRowAt(g: Tensor4, d: Tensor4, K: nat, p: nat, q: nat, r: nat, s: nat, t: nat)
    requires IsTensor(g, K) && IsTensor(d, K) && p < K && q < K && r < K && s < K && t < K
    ensures SuperRow(g, d, K, p, q, r, s)[t] == Sum(SuperTerms(g, d, K, p, q, r, s, t))
  {
  }

  /** W(p,q,r,s), accumulated as the library does, given F(p,s) already computed. */
  method SuperGeneralizedFockEntry(h: Matrix, g: Tensor4, D: Matrix, d: Tensor4, K: nat, F: Matrix,
                                   p: nat, q: nat, r: nat, s: nat)
    returns (w: real)
    requires Compatible(h, g, D, d, K) && p < K && q < K && r < K && s < K
    requires IsMatrix(F, K) && F[p][s] == GeneralizedFockElement(h, g, D, d, K, p, s)
    ensures w == SuperGeneralizedFockElement(h, g, D, d, K, p, q, r, s)
  {
    ghost var row := SuperRow(g, d, K, p, q, r, s);
    w := 0.0;
    if r == q {
      w := w + F[p][s];
    }
    w := w - h[s][p] * D[r][q];
    ghost var before := w;
    for t := 0 to K
      invariant w == before + Sum(row[..t])
    {
      ghost var terms := SuperTerms(g, d, K, p, q, r, s, t);
      ghost var partial := w;
      for u := 0 to K
        invariant w == partial + Sum(terms[..u])
      {
        SuperTermAt(g, d, K, p, q, r, s, t, u);
        SumStep(terms, u);
        w := w + SuperTerm(g, d, K, p, q, r, s, t, u);
      }
      assert terms[..K] == terms;
      SuperRowAt(g, d, K, p, q, r, s, t);
      SumStep(row, t);
    }
    assert row[..K] == row;
    assert w == (if r == q then F[p][s] else 0.0) - h[s][p] * D[r][q] + Sum(row);
  }

  /** The loops over p and q of calculateGeneralizedFockMatrix, filling F one entry at a time. */
  method GeneralizedFockMatrix(h: Matrix, g: Tensor4, D: Matrix, d: Tensor4, K: nat) returns (F: Matrix)
    requires Compatible(h, g, D, d, K)
    ensures F == GeneralizedFock(h, g, D, d, K)
  {
    F := [];
    for p := 0 to K
      invariant |F| == p
      invariant forall i :: 0 <= i < p ==> F[i] == GeneralizedFockRow(h, g, D, d, K, i)
    {
      ghost var expected := GeneralizedFockRow(h, g, D, d, K, p);
      var row: seq<real> := [];
      for q := 0 to K
        invariant row == expected[..q]
      {
        var f := GeneralizedFockEntry(h, g, D, d, K, p, q);
        row := row + [f];
      }
      assert row == expected;
      F := F + [row];
    }
  }

  /**
   * The loops over p, q, r and s of calculateSuperGeneralizedFockMatrix, filling
   * W one entry at a time from the generalized Fock matrix F.
   */
  method SuperGeneralizedFockMatrix(h: Matrix, g: Tensor4, D: Matrix, d: Tensor4, K: nat, F: Matrix)
    returns (W: Tensor4)
    requires Compatible(h, g, D, d, K) && F == GeneralizedFock(h, g, D, d, K)
    ensures W == SuperGeneralizedFock(h, g, D, d, K)
  {
    W := [];
    for p := 0 to K
      invariant |W| == p
      invariant forall i :: 0 <= i < p ==> W[i] == SuperGeneralizedFockBlock(h, g, D, d, K, i)
    {
      var block := SuperGeneralizedFockBlockOf(h, g, D, d, K, F, p);
      W := W + [block];
    }
  }

  /** W(p,·,·,·): the loops over q, r and s for one p. */
  method SuperGeneralizedFockBlockOf(h: Matrix, g: Tensor4, D: Matrix, d: Tensor4, K: nat, F: Matrix, p: nat)
    returns (block: seq<seq<seq<real>>>)
    requires Compatible(h, g, D, d, K) && F == GeneralizedFock(h, g, D, d, K) && p < K
    ensures block == SuperGeneralizedFockBlock(h, g, D, d, K, p)
  {
    block := [];
    for q := 0 to K
      invariant |block| == q
      invariant forall i :: 0 <= i < q ==> block[i] == SuperGeneralizedFockPlane(h, g, D, d, K, p, i)
    {
      var plane: seq<seq<real>> := [];
      for r := 0 to K
        invariant |plane| == r
        invariant forall i :: 0 <= i < r ==> plane[i] == SuperGeneralizedFockRow(h, g, D, d, K, p, q, i)
      {
        ghost var expected := SuperGeneralizedFockRow(h, g, D, d, K, p, q, r);
        var row: seq<real> := [];
        for s := 0 to K
          invariant row == expected[..s]
        {
          GeneralizedFockAt(h, g, D, d, K, p, s);
          var w := SuperGeneralizedFockEntry(h, g, D, d, K, F, p, q, r, s);
          row := row + [w];
        }
        assert row == expected;
        plane := plane + [row];
      }
      assert plane == SuperGeneralizedFockPlane(h, g, D, d, K, p, q);
      block := block + [plane];
    }
  }
}
