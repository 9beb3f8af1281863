/**
 * The basis-change laws of the one- and two-electron operators.
 *
 * OneElectronOperator and TwoElectronOperator are not part of this model; their
 * `transform(T)` is given here by the standard tensor transformation law for a
 * basis b' = b·T: every leg of the operator is contracted with T.
 */
module Operators {
  import opened Sums
  import opened Matrices

  /** The one-electron law M' = Tᵀ·M·T. */
  function TransformOneElectron(m: Matrix, t: Matrix): (r: Matrix)
    requires IsMatrix(m, |m|) && IsMatrix(t, |m|)
    ensures IsMatrix(r, |m|)
  {
    MatMul(MatMul(Transpose(t), m), t)
  }

  /** The terms t(a,p)·g(a,b,c,d), a = 0 … K-1. */
  function LegTerms(g: Tensor4, t: Matrix, b: nat, c: nat, d: nat, p: nat): (r: seq<real>)
    requires IsTensor(g, |g|) && IsMatrix(t, |g|)
    requires b < |g| && c < |g| && d < |g| && p < |g|
    ensures |r| == |g|
  {
    seq(|g|, a requires 0 <= a < |g| => t[a][p] * g[a][b][c][d])
  }

  /**
   * Contract the first leg of g with t and move the new leg to the back:
   * r(b,c,d,p) = Σ_a t(a,p)·g(a,b,c,d).
   */
  function ContractLeg(g: Tensor4, t: Matrix): (r: Tensor4)
    requires IsTensor(g, |g|) && IsMatrix(t, |g|)
    ensures IsTensor(r, |g|)
  {
    var K := |g|;
    seq(K, b requires 0 <= b < K =>
      seq(K, c requires 0 <= c < K =>
        seq(K, d requires 0 <= d < K =>
          seq(K, p requires 0 <= p < K => Sum(LegTerms(g, t, b, c, d, p))))))
  }

  /**
   * The two-electron law: four leg contractions give
   * g'(p,q,r,s) = Σ_{a,b,c,d} t(a,p)·t(b,q)·t(c,r)·t(d,s)·g(a,b,c,d).
   */
  function TransformTwoElectron(g: Tensor4, t: Matrix): (r: Tensor4)
    requires IsTensor(g, |g|) && IsMatrix(t, |g|)
    ensures IsTensor(r, |g|)
  {
    ContractLeg(ContractLeg(ContractLeg(ContractLeg(g, t), t), t), t)
  }

  /** Transforming with the identity changes nothing. */
  lemma TransformOneElectronIdentity(m: Matrix)
    requires IsMatrix(m, |m|)
    ensures TransformOneElectron(m, Identity(|m|)) == m
  {
    TransposeIdentity(|m|);
    MatMulIdentityLeft(m);
    MatMulIdentity(m);
  }

  /** Transforming with t1 and then with t2 is transforming once with t1·t2. */
  lemma TransformOneElectronComposes(m: Matrix, t1: Matrix, t2: Matrix)
    requires IsMatrix(m, |m|) && IsMatrix(t1, |m|) && IsMatrix(t2, |m|)
    ensures TransformOneElectron(TransformOneElectron(m, t1), t2) == TransformOneElectron(m, MatMul(t1, t2))
  {
    var a, b := Transpose(t1), Transpose(t2);
    var am := MatMul(a, m);
    TransposeOfProduct(t1, t2);
    // (b·a)·m = b·(a·m)
    MatMulAssociative(b, a, m);
    // (b·(a·m))·(t1·t2) = ((b·(a·m))·t1)·t2
    MatMulAssociative(MatMul(b, am), t1, t2);
    // b·((a·m)·t1) = (b·(a·m))·t1
    MatMulAssociative(b, am, t1);
  }

  /** Contracting a leg with the identity only moves that leg to the back. */
  lemma ContractLegIdentity(g: Tensor4, b: nat, c: nat, d: nat, p: nat)
    requires IsTensor(g, |g|) && b < |g| && c < |g| && d < |g| && p < |g|
    ensures ContractLeg(g, Identity(|g|))[b][c][d][p] == g[p][b][c][d]
  {
    var terms := LegTerms(g, Identity(|g|), b, c, d, p);
    SumSingle(terms, p);
  }

  /** Entry (p,q,r,s) of the two-electron law under the identity. */
  lemma TransformTwoElectronIdentityEntry(g: Tensor4, p: nat, q: nat, r: nat, s: nat)
    requires IsTensor(g, |g|) && p < |g| && q < |g| && r < |g| && s < |g|
    ensures TransformTwoElectron(g, Identity(|g|))[p][q][r][s] == g[p][q][r][s]
  {
    var id := Identity(|g|);
    var g1 := ContractLeg(g, id);
    var g2 := ContractLeg(g1, id);
    var g3 := ContractLeg(g2, id);
    ContractLegIdentity(g3, p, q, r, s);
    ContractLegIdentity(g2, s, p, q, r);
    ContractLegIdentity(g1, r, s, p, q);
    ContractLegIdentity(g, q, r, s, p);
  }

  /** Transforming with the identity changes nothing. */
  lemma TransformTwoElectronIdentity(g: Tensor4)
    requires IsTensor(g, |g|)
    ensures TransformTwoElectron(g, Identity(|g|)) == g
  {
    var K := |g|;
    var g4 := TransformTwoElectron(g, Identity(K));
    forall p, q, r, s | 0 <= p < K && 0 <= q < K && 0 <= r < K && 0 <= s < K
      ensures g4[p][q][r][s] == g[p][q][r][s]
    {
      TransformTwoElectronIdentityEntry(g, p, q, r, s);
    }
    TensorExtensionality(g4, g);
  }
}
