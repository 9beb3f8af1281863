/**
 * The two-electron reduced density matrix: an immutable K×K×K×K tensor d with
 * its trace and its partial contraction over the last two indices.
 */
module RDM {
  import opened Sums
  import opened Matrices

  /** The tolerance `operator==` passes to `isEqualTo`. */
  const DefaultTolerance: real := 0.00000001

  /** The diagonal m(p,p), p = 0 … K-1. */
  function Diagonal(m: Matrix): (r: seq<real>)
    requires IsMatrix(m, |m|)
    ensures |r| == |m|
  {
    seq(|m|, p requires 0 <= p < |m| => m[p][p])
  }

  /** Σ_p m(p,p), for the trace of a reduced 1-RDM. */
  function MatrixTrace(m: Matrix): real
    requires IsMatrix(m, |m|)
  {
    Sum(Diagonal(m))
  }

  datatype TwoRDM = TwoRDM(d: Tensor4)
  {
    /** The tensor is K×K×K×K with K its first dimension. */
    predicate Valid()
    {
      IsTensor(d, |d|)
    }

    /** get_dim(): the number of orbitals K. */
    function Dim(): nat
    {
      |d|
    }

    /** operator()(p,q,r,s): the stored element, unchanged. */
    function Element(p: nat, q: nat, r: nat, s: nat): (x: real)
      requires Valid() && p < Dim() && q < Dim() && r < Dim() && s < Dim()
      ensures x == d[p][q][r][s]
    {
      d[p][q][r][s]
    }

    /** d(p,p,q,q), q = 0 … K-1. */
    function TraceRow(p: nat): (r: seq<real>)
      requires Valid() && p < Dim()
      ensures |r| == Dim()
    {
      seq(Dim(), q requires 0 <= q < Dim() => d[p][p][q][q])
    }

    /** Σ_q d(p,p,q,q), p = 0 … K-1. */
    function TraceTerms(): (r: seq<real>)
      requires Valid()
      ensures |r| == Dim()
    {
      seq(Dim(), p requires 0 <= p < Dim() => Sum(TraceRow(p)))
    }

    /** trace(): Σ_{p,q} d(p,p,q,q), which is also the trace of reduce(). */
    function Trace(): (t: real)
      requires Valid()
      ensures t == MatrixTrace(Reduce())
    {
      DiagonalOfReduce(this);
      Sum(TraceTerms())
    }

    /** d(p,q,r,r), r = 0 … K-1. */
    function ReduceTerms(p: nat, q: nat): (r: seq<real>)
      requires Valid() && p < Dim() && q < Dim()
      ensures |r| == Dim()
    {
      seq(Dim(), r requires 0 <= r < Dim() => d[p][q][r][r])
    }

    /** reduce(): the K×K matrix D(p,q) = Σ_r d(p,q,r,r). */
    function Reduce(): (D: Matrix)
      requires Valid()
      ensures IsMatrix(D, Dim())
    {
      seq(Dim(), p requires 0 <= p < Dim() =>
        seq(Dim(), q requires 0 <= q < Dim() => Sum(ReduceTerms(p, q))))
    }

    /** isEqualTo(other, tol): the same dimension and every element within tol. */
    predicate IsEqualTo(other: TwoRDM, tolerance: real): (b: bool)
      requires Valid() && other.Valid()
      ensures b ==> other.Dim() == Dim()
      ensures b && Dim() > 0 ==> 0.0 <= tolerance
    {
      var K := Dim();
      var b := other.Dim() == K &&
        forall p, q, r, s :: 0 <= p < K && 0 <= q < K && 0 <= r < K && 0 <= s < K ==>
          -tolerance <= d[p][q][r][s] - other.d[p][q][r][s] <= tolerance;
      assert b && K > 0 ==> -tolerance <= d[0][0][0][0] - other.d[0][0][0][0] <= tolerance;
      b
    }

    /** operator==: isEqualTo with the default tolerance, which makes it symmetric. */
    predicate Equals(other: TwoRDM): (b: bool)
      requires Valid() && other.Valid()
      ensures b <==> other.IsEqualTo(this, DefaultTolerance)
    {
      IsEqualTo(other, DefaultTolerance)
    }
  }

  /** The diagonal of the reduced matrix holds the inner sums of the trace. */
  lemma DiagonalOfReduce(rdm: TwoRDM)
    requires rdm.Valid()
    ensures Diagonal(rdm.Reduce()) == rdm.TraceTerms()
  {
    var K := rdm.Dim();
    var D := rdm.Reduce();
    forall p | 0 <= p < K
      ensures D[p][p] == Sum(rdm.TraceRow(p))
    {
      assert rdm.ReduceTerms(p, p) == rdm.TraceRow(p);
    }
    assert Diagonal(D) == rdm.TraceTerms();
  }

  /** The element accessor exposes the whole tensor: 2-RDMs with the same elements are the same. */
  lemma ElementsDetermineRDM(a: TwoRDM, b: TwoRDM)
    requires a.Valid() && b.Valid() && a.Dim() == b.Dim()
    requires forall p, q, r, s :: 0 <= p < a.Dim() && 0 <= q < a.Dim() && 0 <= r < a.Dim() && 0 <= s < a.Dim() ==>
               a.Element(p, q, r, s) == b.Element(p, q, r, s)
    ensures a == b
  {
    var K := a.Dim();
    forall p, q, r, s | 0 <= p < K && 0 <= q < K && 0 <= r < K && 0 <= s < K
      ensures a.d[p][q][r][s] == b.d[p][q][r][s]
    {
      assert a.Element(p, q, r, s) == b.Element(p, q, r, s);
    }
    TensorExtensionality(a.d, b.d);
  }

  /** With tolerance zero, isEqualTo holds exactly when the two tensors are identical. */
  lemma IsEqualToZeroTolerance(a: TwoRDM, b: TwoRDM)
    requires a.Valid() && b.Valid()
    ensures a.IsEqualTo(b, 0.0) <==> a == b
  {
    if a.IsEqualTo(b, 0.0) {
      var K := a.Dim();
      forall p, q, r | 0 <= p < K && 0 <= q < K && 0 <= r < K
        ensures a.d[p][q][r] == b.d[p][q][r]
      {
        assert forall s | 0 <= s < K :: a.d[p][q][r][s] == b.d[p][q][r][s];
      }
      forall p, q | 0 <= p < K && 0 <= q < K
        ensures a.d[p][q] == b.d[p][q]
      {
      }
      forall p | 0 <= p < K
        ensures a.d[p] == b.d[p]
      {
      }
    }
  }

  /** operator== is reflexive and symmetric. */
  lemma EqualsReflexiveSymmetric(a: TwoRDM, b: TwoRDM)
    requires a.Valid() && b.Valid()
    ensures a.Equals(a)
    ensures a.Equals(b) ==> b.Equals(a)
  {
  }
}
