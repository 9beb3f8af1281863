/**
 * AP1roG geminal coefficients: for N_P electron pairs in K spatial orbitals,
 * the free coefficients G(i,a) with occupied i < N_P and virtual N_P <= a < K,
 * stored row by row in a vector of N_P·(K-N_P) entries.
 *
 * The class's implementation file is not part of this model; its behaviour is
 * the one its unit tests fix.
 */
module Geminals {
  import opened Errors
  import opened Matrices

  /** The number of free coefficients for N_P geminals in K orbitals; fails if N_P >= K. */
  function NumberOfGeminalCoefficients(N_P: nat, K: nat): (r: Result<nat>)
    ensures r.Ok? <==> N_P < K
    ensures r.Err? ==> r.error == InvalidArgument(TooManyGeminals)
  {
    if N_P >= K then Err(InvalidArgument(TooManyGeminals)) else Ok(N_P * (K - N_P))
  }

  datatype GeminalCoefficients = GeminalCoefficients(N_P: nat, K: nat, g: Vector)
  {
    /** The vector holds exactly one entry per (occupied, virtual) pair. */
    predicate Valid()
    {
      N_P <= K && |g| == N_P * (K - N_P)
    }

    /** The position of G(i,a) in the vector, without the argument checks. */
    function Index(i: nat, a: nat): int
    {
      i * (K - N_P) + (a - N_P)
    }

    /**
     * vectorIndex(i,a): the position of G(i,a) in the vector; fails for an occupied
     * index i >= N_P and for a virtual index a < N_P.
     */
    function VectorIndex(i: nat, a: nat): (r: Result<nat>)
      requires Valid()
      ensures r.Ok? <==> i < N_P && N_P <= a
      ensures r.Err? ==> r.error == InvalidArgument(if i >= N_P then OccupiedIndexOutOfRange
                                                    else VirtualIndexOutOfRange)
      ensures r.Ok? && a < K ==> r.value < N_P * (K - N_P)
    {
      if i >= N_P then Err(InvalidArgument(OccupiedIndexOutOfRange))
      else if a < N_P then Err(InvalidArgument(VirtualIndexOutOfRange))
      else
        IndexBelowCount(i, a);
        Ok(Index(i, a))
    }

    lemma IndexBelowCount(i: nat, a: nat)
      requires N_P <= K && i < N_P && N_P <= a
      ensures 0 <= Index(i, a)
      ensures a < K ==> Index(i, a) < N_P * (K - N_P)
    {
      var w := K - N_P;
      MulMonotone(i + 1, N_P, w);
      assert i * w + w == (i + 1) * w;
    }

    /** a <= b implies a·w <= b·w, stated as an implication so callers need no case split. */
    static lemma MulMonotone(a: nat, b: nat, w: nat)
      ensures a <= b ==> a * w <= b * w
    {
      if a <= b {
        assert b * w == a * w + (b - a) * w;
      }
    }

    /** matrixIndexMajor(v): the occupied index of the v-th coefficient. */
    function MatrixIndexMajor(v: nat): (i: nat)
      requires N_P < K
      ensures v < N_P * (K - N_P) ==> i < N_P
    {
      MajorBelow(v);
      v / (K - N_P)
    }

    lemma MajorBelow(v: nat)
      requires N_P < K
      ensures v < N_P * (K - N_P) ==> v / (K - N_P) < N_P
    {
      var w := K - N_P;
      MulMonotone(N_P, v / w, w);
      assert (v / w) * w <= v;
    }

    /** matrixIndexMinor(v): the virtual index of the v-th coefficient. */
    function MatrixIndexMinor(v: nat): (a: nat)
      requires N_P < K
      ensures N_P <= a < K
    {
      v % (K - N_P) + N_P
    }

    /** operator()(v): the v-th coefficient, which is G at (major, minor) of v. */
    function Coefficient(v: nat): (c: real)
      requires Valid() && v < |g|
      ensures N_P < K && c == AsMatrix()[MatrixIndexMajor(v)][MatrixIndexMinor(v)]
    {
      PositiveCountHasVirtuals(v);
      AsMatrixAtVectorPosition(v);
      g[v]
    }

    lemma PositiveCountHasVirtuals(v: nat)
      requires Valid() && v < |g|
      ensures N_P < K
    {
      assert N_P == K ==> N_P * (K - N_P) == 0;
    }

    /** operator()(i,a): G(i,a) looked up through vectorIndex, with its failures. */
    function CoefficientAt(i: nat, a: nat): (r: Result<real>)
      requires Valid() && a < K
      ensures r.Ok? <==> i < N_P && N_P <= a
      ensures r.Err? ==> r.error == VectorIndex(i, a).error
      ensures r.Ok? ==> r.value == AsMatrix()[i][a]
    {
      match VectorIndex(i, a)
      case Err(e) => Err(e)
      case Ok(v) => Ok(g[v])
    }

    /**
     * asMatrix(): the N_P×K matrix whose occupied block is the identity and whose
     * virtual block holds the vector entries row by row.
     */
    function AsMatrix(): (G: Matrix)
      requires Valid()
      ensures |G| == N_P && forall i :: 0 <= i < N_P ==> |G[i]| == K
      ensures forall i, j :: 0 <= i < N_P && 0 <= j < N_P ==> G[i][j] == if i == j then 1.0 else 0.0
      ensures forall i, a :: 0 <= i < N_P && N_P <= a < K ==>
                VectorIndex(i, a).Ok? && G[i][a] == g[VectorIndex(i, a).value]
    {
      seq(N_P, i requires 0 <= i < N_P =>
        seq(K, j requires 0 <= j < K =>
          if j < N_P then (if i == j then 1.0 else 0.0)
          else IndexBelowCount(i, j); g[Index(i, j)]))
    }

    /** vectorIndex undoes (matrixIndexMajor, matrixIndexMinor) on [0, N_P·(K-N_P)). */
    lemma {:induction false} VectorIndexOfMatrixIndex(v: nat)
      requires Valid() && N_P < K && v < N_P * (K - N_P)
      ensures VectorIndex(MatrixIndexMajor(v), MatrixIndexMinor(v)) == Ok(v)
    {
      var w := K - N_P;
      assert v == (v / w) * w + v % w;
    }

    /** (matrixIndexMajor, matrixIndexMinor) undoes vectorIndex on the virtual block. */
    lemma {:induction false} MatrixIndexOfVectorIndex(i: nat, a: nat)
      requires Valid() && i < N_P && N_P <= a < K
      ensures VectorIndex(i, a).Ok?
      ensures MatrixIndexMajor(VectorIndex(i, a).value) == i
      ensures MatrixIndexMinor(VectorIndex(i, a).value) == a
    {
      var w := K - N_P;
      var v := i * w + (a - N_P);
      assert 0 <= a - N_P < w;
      DivModUnique(v, w, i, a - N_P);
    }

    static lemma DivModUnique(v: nat, w: nat, q: nat, m: nat)
      requires 0 <= m < w && v == q * w + m
      ensures v / w == q && v % w == m
    {
      var q', m' := v / w, v % w;
      assert v == q' * w + m';
      MulMonotone(q + 1, q', w);
      MulMonotone(q' + 1, q, w);
      assert (q + 1) * w == q * w + w && (q' + 1) * w == q' * w + w;
      assert q' == q;
    }

    /** Every vector entry appears in asMatrix() at its (major, minor) position. */
    lemma AsMatrixAtVectorPosition(v: nat)
      requires Valid() && N_P < K && v < |g|
      ensures MatrixIndexMajor(v) < N_P
      ensures AsMatrix()[MatrixIndexMajor(v)][MatrixIndexMinor(v)] == g[v]
    {
      VectorIndexOfMatrixIndex(v);
    }
  }

  /** The (N_P,K) constructor: all N_P·(K-N_P) coefficients zero; fails if N_P >= K. */
  function Zeros(N_P: nat, K: nat): (r: Result<GeminalCoefficients>)
    ensures r.Ok? <==> N_P < K
    ensures r.Err? ==> r.error == InvalidArgument(TooManyGeminals)
    ensures r.Ok? ==> r.value.Valid() && r.value.N_P == N_P && r.value.K == K
    ensures r.Ok? ==> forall v :: 0 <= v < |r.value.g| ==> r.value.g[v] == 0.0
  {
    match NumberOfGeminalCoefficients(N_P, K)
    case Err(e) => Err(e)
    case Ok(n) => Ok(GeminalCoefficients(N_P, K, seq(n, _ => 0.0)))
  }

  /**
   * The (g, N_P, K) constructor: accepts g only if its length is the number of
   * coefficients for (N_P, K); fails if N_P >= K or on a length mismatch.
   */
  function FromVector(g: Vector, N_P: nat, K: nat): (r: Result<GeminalCoefficients>)
    ensures r.Ok? <==> N_P < K && |g| == N_P * (K - N_P)
    ensures r.Err? ==> r.error == InvalidArgument(if N_P >= K then TooManyGeminals
                                                  else IncompatibleVectorSize)
    ensures r.Ok? ==> r.value.Valid() && r.value == GeminalCoefficients(N_P, K, g)
  {
    match NumberOfGeminalCoefficients(N_P, K)
    case Err(e) => Err(e)
    case Ok(n) =>
      if |g| != n then Err(InvalidArgument(IncompatibleVectorSize))
      else Ok(GeminalCoefficients(N_P, K, g))
  }

  /** The default constructor: no geminals in no orbitals. */
  function Empty(): (r: GeminalCoefficients)
    ensures r.Valid() && r.N_P == 0 && r.g == []
  {
    GeminalCoefficients(0, 0, [])
  }

  // The unit tests, as lemmas about the model.

  lemma NumberOfGeminalCoefficientsTest()
    ensures NumberOfGeminalCoefficients(2, 5) == Ok(6)
    ensures NumberOfGeminalCoefficients(4, 4).Err?
  {
  }

  lemma ConstructorTest()
    ensures Zeros(4, 6).Ok?
    ensures Zeros(4, 4) == Err(InvalidArgument(TooManyGeminals))
  {
  }

  lemma ConstructorVectorTest()
    ensures FromVector(seq(6, _ => 0.0), 2, 5).Ok?
    ensures FromVector(seq(6, _ => 0.0), 2, 4).Err?
    ensures FromVector(seq(6, _ => 0.0), 1, 5).Err?
  {
  }

  lemma AsMatrixTest()
    ensures GeminalCoefficients(2, 5, [1.0, 2.0, 3.0, 4.0, 5.0, 6.0]).AsMatrix()
         == [[1.0, 0.0, 1.0, 2.0, 3.0],
             [0.0, 1.0, 4.0, 5.0, 6.0]]
  {
    var G := GeminalCoefficients(2, 5, [1.0, 2.0, 3.0, 4.0, 5.0, 6.0]).AsMatrix();
    assert G[0] == [1.0, 0.0, 1.0, 2.0, 3.0];
    assert G[1] == [0.0, 1.0, 4.0, 5.0, 6.0];
  }

  lemma VectorIndexTest()
    ensures var gc := GeminalCoefficients(2, 11, seq(18, _ => 0.0));
      && gc.VectorIndex(0, 2) == Ok(0) && gc.VectorIndex(0, 3) == Ok(1)
      && gc.VectorIndex(1, 2) == Ok(9) && gc.VectorIndex(1, 3) == Ok(10)
      && gc.VectorIndex(3, 3) == Err(InvalidArgument(OccupiedIndexOutOfRange))
      && gc.VectorIndex(0, 1) == Err(InvalidArgument(VirtualIndexOutOfRange))
  {
  }

  lemma MatrixIndexTest()
    ensures var gc := GeminalCoefficients(2, 11, seq(18, _ => 0.0));
      && gc.MatrixIndexMajor(0) == 0 && gc.MatrixIndexMajor(1) == 0
      && gc.MatrixIndexMajor(9) == 1 && gc.MatrixIndexMajor(10) == 1
      && gc.MatrixIndexMinor(0) == 2 && gc.MatrixIndexMinor(1) == 3
      && gc.MatrixIndexMinor(4) == 6 && gc.MatrixIndexMinor(5) == 7
  {
  }

  lemma OperatorCallVectorTest()
    ensures var gc := GeminalCoefficients(2, 5, [1.0, 2.0, 3.0, 4.0, 5.0, 6.0]);
      forall v :: 0 <= v < 6 ==> gc.Coefficient(v) == (v + 1) as real
  {
    var g := [1.0, 2.0, 3.0, 4.0, 5.0, 6.0];
    var gc := GeminalCoefficients(2, 5, g);
    assert gc.Valid();
    forall v | 0 <= v < 6
      ensures gc.Coefficient(v) == (v + 1) as real
    {
      assert g[v] == (v + 1) as real;
    }
  }

  lemma OperatorCallMatrixTest()
    ensures var gc := GeminalCoefficients(2, 5, [1.0, 2.0, 3.0, 4.0, 5.0, 6.0]);
      && gc.CoefficientAt(0, 2) == Ok(1.0) && gc.CoefficientAt(0, 3) == Ok(2.0)
      && gc.CoefficientAt(0, 4) == Ok(3.0) && gc.CoefficientAt(1, 2) == Ok(4.0)
      && gc.CoefficientAt(1, 3) == Ok(5.0) && gc.CoefficientAt(1, 4) == Ok(6.0)
  {
  }
}
