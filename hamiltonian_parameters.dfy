/**
 * The Hamiltonian parameters: the overlap S, the one-electron integrals h and
 * the two-electron integrals g in K orbitals, with the coefficient matrix C
 * that expresses the current orbitals in the initial atomic orbitals.
 */
module Parameters {
  import opened Errors
  import opened Matrices
  import opened Operators
  import opened RDM
  import opened Fock

  /** The tolerance below which every overlap entry counts as zero. */
  const OverlapZeroTolerance: real := 0.00000001

  /** The tolerance `rotate` allows on UᵀU = I. */
  const UnitaryTolerance: real := 0.000000000001

  /** The shared AO basis, which may be absent (a null pointer). */
  datatype AOBasis = NoBasis | Basis(numberOfBasisFunctions: nat)

  /**
   * The constructor's dimension rule: a present AO basis has K functions, and
   * h, g and C (rows and columns) have dimension K, where K is S's dimension.
   */
  predicate DimensionsCompatible(aoBasis: AOBasis, S: Matrix, h: Matrix, g: Tensor4, C: Matrix)
  {
    var K := |S|;
    (aoBasis.Basis? ==> aoBasis.numberOfBasisFunctions == K) &&
    |h| == K && |g| == K && |C| == K && Cols(C) == K
  }

  class HamiltonianParameters {
    const aoBasis: AOBasis
    const K: nat
    var S: Matrix
    var h: Matrix
    var g: Tensor4
    var C: Matrix

    /** Every representation is K-dimensional, and so is a present AO basis. */
    predicate Valid()
      reads this
    {
      IsMatrix(S, K) && IsMatrix(h, K) && IsTensor(g, K) && IsMatrix(C, K) &&
      (aoBasis.Basis? ==> aoBasis.numberOfBasisFunctions == K)
    }

    /** The member initialisation of the checking constructor; Create performs the checks. */
    constructor Init(aoBasis: AOBasis, S: Matrix, h: Matrix, g: Tensor4, C: Matrix)
      requires IsMatrix(S, |S|) && IsMatrix(h, |h|) && IsTensor(g, |g|) && IsRectangular(C)
      requires DimensionsCompatible(aoBasis, S, h, g, C)
      ensures Valid()
      ensures this.aoBasis == aoBasis && K == |S|
      ensures this.S == S && this.h == h && this.g == g && this.C == C
    {
      this.aoBasis := aoBasis;
      K := |S|;
      this.S := S;
      this.h := h;
      this.g := g;
      this.C := C;
    }

    /**
     * The checking constructor: K is the dimension of S; incompatible
     * dimensions, then a zero overlap matrix, are refused.
     */
    static method Create(aoBasis: AOBasis, S: Matrix, h: Matrix, g: Tensor4, C: Matrix)
      returns (r: Result<HamiltonianParameters>)
      requires IsMatrix(S, |S|) && IsMatrix(h, |h|) && IsTensor(g, |g|) && IsRectangular(C)
      ensures !DimensionsCompatible(aoBasis, S, h, g, C) ==> r == Err(InvalidArgument(IncompatibleDimensions))
      ensures DimensionsCompatible(aoBasis, S, h, g, C) && IsZero(S, OverlapZeroTolerance) ==>
                r == Err(InvalidArgument(ZeroOverlapMatrix))
      ensures r.Ok? <==> DimensionsCompatible(aoBasis, S, h, g, C) && !IsZero(S, OverlapZeroTolerance)
      ensures r.Ok? ==> fresh(r.value) && r.value.Valid() && r.value.aoBasis == aoBasis && r.value.K == |S|
      ensures r.Ok? ==> r.value.S == S && r.value.h == h && r.value.g == g && r.value.C == C
    {
      if aoBasis.Basis? && aoBasis.numberOfBasisFunctions != |S| {
        return Err(InvalidArgument(IncompatibleDimensions));
      }
      if |h| != |S| || |g| != |S| || Cols(C) != |S| || |C| != |S| {
        return Err(InvalidArgument(IncompatibleDimensions));
      }
      if IsZero(S, OverlapZeroTolerance) {
        return Err(InvalidArgument(ZeroOverlapMatrix));
      }
      var p := new HamiltonianParameters.Init(aoBasis, S, h, g, C);
      return Ok(p);
    }

    /** The implicit copy constructor. */
    constructor Copy(other: HamiltonianParameters)
      requires other.Valid()
      ensures Valid()
      ensures aoBasis == other.aoBasis && K == other.K
      ensures S == other.S && h == other.h && g == other.g && C == other.C
    {
      aoBasis := other.aoBasis;
      K := other.K;
      S := other.S;
      h := other.h;
      g := other.g;
      C := other.C;
    }

    /** The copy-and-transform constructor: a copy of other, then transform(T). */
    constructor Transformed(other: HamiltonianParameters, T: Matrix)
      requires other.Valid() && IsMatrix(T, other.K)
      ensures Valid()
      ensures aoBasis == other.aoBasis && K == other.K
      ensures S == TransformOneElectron(other.S, T) && h == TransformOneElectron(other.h, T)
      ensures g == TransformTwoElectron(other.g, T) && C == MatMul(other.C, T)
    {
      aoBasis := other.aoBasis;
      K := other.K;
      S := other.S;
      h := other.h;
      g := other.g;
      C := other.C;
      new;
      Transform(T);
    }

    /**
     * transform(T) for the basis change b' = b·T: every representation is
     * transformed and C accumulates T on the right.
     */
    method Transform(T: Matrix)
      requires Valid() && IsMatrix(T, K)
      modifies this
      ensures Valid()
      ensures S == TransformOneElectron(old(S), T) && h == TransformOneElectron(old(h), T)
      ensures g == TransformTwoElectron(old(g), T)
      ensures C == MatMul(old(C), T)
    {
      S := TransformOneElectron(S, T);
      h := TransformOneElectron(h, T);
      g := TransformTwoElectron(g, T);
      C := MatMul(C, T);
    }

    /** rotate(U): refuses a non-unitary U before changing anything, and is transform(U) otherwise. */
    method Rotate(U: Matrix) returns (o: Outcome)
      requires Valid() && IsMatrix(U, K)
      modifies this
      ensures Valid()
      ensures o.Fail? <==> !IsUnitary(U, UnitaryTolerance)
      ensures o.Fail? ==> o.error == InvalidArgument(NotUnitary)
      ensures o.Fail? ==> S == old(S) && h == old(h) && g == old(g) && C == old(C)
      ensures o.Pass? ==> S == TransformOneElectron(old(S), U) && h == TransformOneElectron(old(h), U)
      ensures o.Pass? ==> g == TransformTwoElectron(old(g), U) && C == MatMul(old(C), U)
    {
      if !IsUnitary(U, UnitaryTolerance) {
        return Fail(InvalidArgument(NotUnitary));
      }
      Transform(U);
      return Pass;
    }

    /**
     * calculateGeneralizedFockMatrix(D, d): refuses a 1-RDM, then a 2-RDM, of
     * the wrong dimension, and otherwise returns the generalized Fock matrix.
     */
    method CalculateGeneralizedFockMatrix(D: Matrix, d: TwoRDM) returns (r: Result<Matrix>)
      requires Valid() && IsMatrix(D, |D|) && d.Valid()
      ensures |D| != K ==> r == Err(InvalidArgument(IncompatibleOneRDM))
      ensures |D| == K && d.Dim() != K ==> r == Err(InvalidArgument(IncompatibleTwoRDM))
      ensures |D| == K && d.Dim() == K ==> r == Ok(GeneralizedFock(h, g, D, d.d, K))
    {
      if |D| != K {
        return Err(InvalidArgument(IncompatibleOneRDM));
      }
      if d.Dim() != K {
        return Err(InvalidArgument(IncompatibleTwoRDM));
      }
      var F := GeneralizedFockMatrix(h, g, D, d.d, K);
      return Ok(F);
    }

    /**
     * calculateSuperGeneralizedFockMatrix(D, d): the same checks, then the
     * generalized Fock matrix F, then the super-generalized Fock matrix.
     */
    method CalculateSuperGeneralizedFockMatrix(D: Matrix, d: TwoRDM) returns (r: Result<Tensor4>)
      requires Valid() && IsMatrix(D, |D|) && d.Valid()
      ensures |D| != K ==> r == Err(InvalidArgument(IncompatibleOneRDM))
      ensures |D| == K && d.Dim() != K ==> r == Err(InvalidArgument(IncompatibleTwoRDM))
      ensures |D| == K && d.Dim() == K ==> r == Ok(SuperGeneralizedFock(h, g, D, d.d, K))
    {
      if |D| != K {
        return Err(InvalidArgument(IncompatibleOneRDM));
      }
      if d.Dim() != K {
        return Err(InvalidArgument(IncompatibleTwoRDM));
      }
      var fock := CalculateGeneralizedFockMatrix(D, d);
      var W := SuperGeneralizedFockMatrix(h, g, D, d.d, K, fock.value);
      return Ok(W);
    }
  }

  /** Two transformations leave C = C·T1·T2 and S, h transformed once by T1·T2. */
  method TransformTwice(ham: HamiltonianParameters, T1: Matrix, T2: Matrix)
    requires ham.Valid() && IsMatrix(T1, ham.K) && IsMatrix(T2, ham.K)
    modifies ham
    ensures ham.Valid()
    ensures ham.C == MatMul(old(ham.C), MatMul(T1, T2))
    ensures ham.S == TransformOneElectron(old(ham.S), MatMul(T1, T2))
    ensures ham.h == TransformOneElectron(old(ham.h), MatMul(T1, T2))
  {
    ham.Transform(T1);
    ham.Transform(T2);
    MatMulAssociative(old(ham.C), T1, T2);
    TransformOneElectronComposes(old(ham.S), T1, T2);
    TransformOneElectronComposes(old(ham.h), T1, T2);
  }

  /** Transforming with the identity leaves every representation as it was. */
  method TransformIdentity(ham: HamiltonianParameters)
    requires ham.Valid()
    modifies ham
    ensures ham.Valid()
    ensures ham.S == old(ham.S) && ham.h == old(ham.h) && ham.g == old(ham.g) && ham.C == old(ham.C)
  {
    ham.Transform(Identity(ham.K));
    MatMulIdentity(old(ham.C));
    TransformOneElectronIdentity(old(ham.S));
    TransformOneElectronIdentity(old(ham.h));
    TransformTwoElectronIdentity(old(ham.g));
  }
}
