/**
 * The AP1roG wave function (converged geminal coefficients with their
 * electronic energy) and the AP1roG energy in an orthonormal orbital basis:
 *
 *   E = Σ_{j<N_P} [ 2·h(j,j) + Σ_{k<N_P} (2·g(k,k,j,j) − g(k,j,j,k)) + Σ_{N_P≤b<K} g(j,b,j,b)·G(j,b) ]
 *
 * with N_P and K those of the geminal coefficients G.
 */
module AP1roGEnergy {
  import opened Errors
  import opened Sums
  import opened Matrices
  import opened Geminals
  import opened Parameters

  datatype AP1roG = AP1roG(geminalCoefficients: GeminalCoefficients, electronicEnergy: real)

  /** The default constructor: the default geminal coefficients and a zero energy. */
  function Default(): (r: AP1roG)
    ensures r.electronicEnergy == 0.0
    ensures r.geminalCoefficients.Valid() && r.geminalCoefficients.N_P == 0
  {
    AP1roG(Empty(), 0.0)
  }

  /** The integrals cover the orbitals of the geminal coefficients. */
  predicate Compatible(G: GeminalCoefficients, h: Matrix, g: Tensor4)
  {
    G.Valid() && G.K <= |h| && IsMatrix(h, |h|) && IsTensor(g, |h|)
  }

  /** 2·g(k,k,j,j) − g(k,j,j,k), k = 0 … N_P-1. */
  function CoulombExchangeTerms(G: GeminalCoefficients, h: Matrix, g: Tensor4, j: nat): (r: seq<real>)
    requires Compatible(G, h, g) && j < G.N_P
    ensures |r| == G.N_P
  {
    seq(G.N_P, k requires 0 <= k < G.N_P => 2.0 * g[k][k][j][j] - g[k][j][j][k])
  }

  /** g(j,b,j,b)·G(j,b), with G(j,b) read through operator()(j,b). */
  function CorrelationTerm(G: GeminalCoefficients, h: Matrix, g: Tensor4, j: nat, b: nat): real
    requires Compatible(G, h, g) && j < G.N_P && G.N_P <= b < G.K
  {
    g[j][b][j][b] * G.CoefficientAt(j, b).value
  }

  /** CorrelationTerm for b = N_P … K-1. */
  function CorrelationTerms(G: GeminalCoefficients, h: Matrix, g: Tensor4, j: nat): (r: seq<real>)
    requires Compatible(G, h, g) && j < G.N_P
    ensures |r| == G.K - G.N_P
  {
    seq(G.K - G.N_P, i requires 0 <= i < G.K - G.N_P => CorrelationTerm(G, h, g, j, G.N_P + i))
  }

  lemma CoulombExchangeTermAt(G: GeminalCoefficients, h: Matrix, g: Tensor4, j: nat, k: nat)
    requires Compatible(G, h, g) && j < G.N_P && k < G.N_P
    ensures CoulombExchangeTerms(G, h, g, j)[k] == 2.0 * g[k][k][j][j] - g[k][j][j][k]
  {
  }

  lemma CorrelationTermAt(G: GeminalCoefficients, h: Matrix, g: Tensor4, j: nat, b: nat)
    requires Compatible(G, h, g) && j < G.N_P && G.N_P <= b < G.K
    ensures CorrelationTerms(G, h, g, j)[b - G.N_P] == CorrelationTerm(G, h, g, j, b)
  {
  }

  /** The reference part of pair j: 2·h(j,j) + Σ_k (2·g(k,k,j,j) − g(k,j,j,k)). */
  function ReferencePairEnergy(G: GeminalCoefficients, h: Matrix, g: Tensor4, j: nat): real
    requires Compatible(G, h, g) && j < G.N_P
  {
    2.0 * h[j][j] + Sum(CoulombExchangeTerms(G, h, g, j))
  }

  /** Pair j's whole contribution to the energy. */
  function PairEnergy(G: GeminalCoefficients, h: Matrix, g: Tensor4, j: nat): real
    requires Compatible(G, h, g) && j < G.N_P
  {
    ReferencePairEnergy(G, h, g, j) + Sum(CorrelationTerms(G, h, g, j))
  }

  function PairEnergies(G: GeminalCoefficients, h: Matrix, g: Tensor4): (r: seq<real>)
    requires Compatible(G, h, g)
    ensures |r| == G.N_P
  {
    seq(G.N_P, j requires 0 <= j < G.N_P => PairEnergy(G, h, g, j))
  }

  /** The AP1roG energy of G for the integrals h, g. */
  function Energy(G: GeminalCoefficients, h: Matrix, g: Tensor4): real
    requires Compatible(G, h, g)
  {
    Sum(PairEnergies(G, h, g))
  }

  function ReferencePairEnergies(G: GeminalCoefficients, h: Matrix, g: Tensor4): (r: seq<real>)
    requires Compatible(G, h, g)
    ensures |r| == G.N_P
  {
    seq(G.N_P, j requires 0 <= j < G.N_P => ReferencePairEnergy(G, h, g, j))
  }

  /** The energy of the reference determinant: every geminal coefficient zero. */
  function ReferenceEnergy(G: GeminalCoefficients, h: Matrix, g: Tensor4): real
    requires Compatible(G, h, g)
  {
    Sum(ReferencePairEnergies(G, h, g))
  }

  function CorrelationPairEnergies(G: GeminalCoefficients, h: Matrix, g: Tensor4): (r: seq<real>)
    requires Compatible(G, h, g)
    ensures |r| == G.N_P
  {
    seq(G.N_P, j requires 0 <= j < G.N_P => Sum(CorrelationTerms(G, h, g, j)))
  }

  /** The part of the energy the geminal coefficients contribute. */
  function CorrelationEnergy(G: GeminalCoefficients, h: Matrix, g: Tensor4): real
    requires Compatible(G, h, g)
  {
    Sum(CorrelationPairEnergies(G, h, g))
  }

  /** The energy is the reference energy plus the correlation energy. */
  lemma EnergyDecomposes(G: GeminalCoefficients, h: Matrix, g: Tensor4)
    requires Compatible(G, h, g)
    ensures Energy(G, h, g) == ReferenceEnergy(G, h, g) + CorrelationEnergy(G, h, g)
  {
    SumAdd(ReferencePairEnergies(G, h, g), CorrelationPairEnergies(G, h, g), PairEnergies(G, h, g));
  }

  /** Only the virtual coefficients G(j,b), b >= N_P, enter: with all of them zero the energy is the reference energy. */
  lemma EnergyOfZeroCoefficients(G: GeminalCoefficients, h: Matrix, g: Tensor4)
    requires Compatible(G, h, g)
    requires forall v :: 0 <= v < |G.g| ==> G.g[v] == 0.0
    ensures Energy(G, h, g) == ReferenceEnergy(G, h, g)
  {
    forall j | 0 <= j < G.N_P
      ensures Sum(CorrelationTerms(G, h, g, j)) == 0.0
    {
      var terms := CorrelationTerms(G, h, g, j);
      forall i | 0 <= i < |terms|
        ensures terms[i] == 0.0
      {
        assert G.g[G.VectorIndex(j, G.N_P + i).value] == 0.0;
        assert terms[i] == CorrelationTerm(G, h, g, j, G.N_P + i);
      }
      SumOfZeros(terms);
    }
    SumOfZeros(CorrelationPairEnergies(G, h, g));
    EnergyDecomposes(G, h, g);
  }

  /** With no electron pairs the energy is zero; in particular for the default wave function. */
  lemma EnergyWithoutPairs(G: GeminalCoefficients, h: Matrix, g: Tensor4)
    requires Compatible(G, h, g) && G.N_P == 0
    ensures Energy(G, h, g) == 0.0
    ensures Compatible(Default().geminalCoefficients, h, g)
    ensures Energy(Default().geminalCoefficients, h, g) == Default().electronicEnergy
  {
  }

  /** calculateAP1roGEnergy(G, ham): the energy accumulated pair by pair, as the library's loops do. */
  method CalculateAP1roGEnergy(G: GeminalCoefficients, ham: HamiltonianParameters) returns (E: real)
    requires G.Valid() && ham.Valid() && G.K <= ham.K
    ensures E == Energy(G, ham.h, ham.g)
  {
    var h, g := ham.h, ham.g;
    assert Compatible(G, h, g);
    ghost var pairs := PairEnergies(G, h, g);
    E := 0.0;
    for j := 0 to G.N_P
      invariant E == Sum(pairs[..j])
    {
      E := AccumulatePairEnergy(G, h, g, j, E);
      SumStep(pairs, j);
    }
    assert pairs[..G.N_P] == pairs;
  }

  /** The body of calculateAP1roGEnergy's loop over the pairs j: adds pair j's contribution to E. */
  method AccumulatePairEnergy(G: GeminalCoefficients, h: Matrix, g: Tensor4, j: nat, E0: real) returns (E: real)
    requires Compatible(G, h, g) && j < G.N_P
    ensures E == E0 + PairEnergy(G, h, g, j)
  {
    var N_P, K := G.N_P, G.K;
    ghost var coulombExchange := CoulombExchangeTerms(G, h, g, j);
    ghost var correlation := CorrelationTerms(G, h, g, j);
    E := E0 + 2.0 * h[j][j];
    for k := 0 to N_P
      invariant E == E0 + 2.0 * h[j][j] + Sum(coulombExchange[..k])
    {
      CoulombExchangeTermAt(G, h, g, j, k);
      SumStep(coulombExchange, k);
      E := E + (2.0 * g[k][k][j][j] - g[k][j][j][k]);
    }
    assert coulombExchange[..N_P] == coulombExchange;
    ghost var reference := E;
    for b := N_P to K
      invariant E == reference + Sum(correlation[..b - N_P])
    {
      CorrelationTermAt(G, h, g, j, b);
      SumStep(correlation, b - N_P);
      E := E + CorrelationTerm(G, h, g, j, b);
    }
    assert correlation[..K - N_P] == correlation;
  }
}
