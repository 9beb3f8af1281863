/**
 * The CI solver: it holds a Hamiltonian builder and a copy of the Hamiltonian
 * parameters, solves the CI eigenvalue problem with a chosen eigensolver and
 * hands out the resulting wave functions.
 *
 * The builder's implementations and the eigensolvers are not part of this
 * model: they are given as functions of their inputs.
 */
module CI {
  import opened Errors
  import opened Matrices
  import opened Parameters

  /** A Fock space: its number of orbitals K and its dimension. */
  datatype FockSpace = FockSpace(K: nat, dimension: nat)

  datatype Eigenpair = Eigenpair(eigenvalue: real, eigenvector: Vector)

  /** A wave function: the Fock space it lives in and its expansion coefficients. */
  datatype WaveFunction = WaveFunction(fockSpace: FockSpace, coefficients: Vector)

  /**
   * A Hamiltonian builder: its Fock space and its three operations, each a
   * function of the one- and two-electron integrals h and g.
   */
  datatype HamiltonianBuilder = HamiltonianBuilder(
    fockSpace: FockSpace,
    constructHamiltonian: (Matrix, Tensor4) -> Matrix,
    matrixVectorProduct: (Matrix, Tensor4, Vector, Vector) -> Vector,
    calculateDiagonal: (Matrix, Tensor4) -> Vector)

  /** The solver kinds with their eigensolvers, each a function of the solver's input. */
  datatype SolverOptions =
    | DenseSolverOptions(dense: Matrix -> seq<Eigenpair>)
    | DavidsonSolverOptions(davidson: (Vector -> Vector, Vector) -> seq<Eigenpair>)
    | SparseSolverOptions

  /** The matrix-vector product handed to Davidson: the builder's product with a fixed diagonal. */
  function MatrixVectorProduct(builder: HamiltonianBuilder, h: Matrix, g: Tensor4, diagonal: Vector): (product: Vector -> Vector)
    ensures forall x :: product(x) == builder.matrixVectorProduct(h, g, x, diagonal)
  {
    x => builder.matrixVectorProduct(h, g, x, diagonal)
  }

  /** How get_wavefunction's guard, as written, ends for one index. */
  datatype Lookup =
    | Returned(wavefunction: WaveFunction)
    | Thrown(error: Exception)
    | ReadPastEnd   // eigenpairs[index] with index == eigenpairs.size(): undefined behaviour

  /** get_wavefunction as written: the guard is index > size, so index == size reaches the read. */
  function GetWavefunctionAsWritten(eigenpairs: seq<Eigenpair>, fockSpace: FockSpace, index: nat): (r: Lookup)
    ensures r.Thrown? <==> index > |eigenpairs|
    ensures r.ReadPastEnd? <==> index == |eigenpairs|
    ensures r.Returned? ==> index < |eigenpairs| && r.wavefunction == WaveFunction(fockSpace, eigenpairs[index].eigenvector)
  {
    if index > |eigenpairs| then Thrown(LogicError(NotEnoughEigenpairs))
    else if index == |eigenpairs| then ReadPastEnd
    else Returned(WaveFunction(fockSpace, eigenpairs[index].eigenvector))
  }

  /**
   * For any eigenpairs, index == size passes the guard and reaches the read past
   * the end; before any solve that is already index 0, the ground state.
   */
  lemma GetWavefunctionGuardAdmitsSize(eigenpairs: seq<Eigenpair>, fockSpace: FockSpace)
    ensures GetWavefunctionAsWritten(eigenpairs, fockSpace, |eigenpairs|) == ReadPastEnd
    ensures GetWavefunctionAsWritten([], fockSpace, 0) == ReadPastEnd
  {
  }

  class CISolver {
    const builder: HamiltonianBuilder
    const parameters: HamiltonianParameters
    var eigenpairs: seq<Eigenpair>

    /** The stored parameters are valid and have the Fock space's number of orbitals. */
    predicate Valid()
      reads this, parameters
    {
      parameters.Valid() && parameters.K == builder.fockSpace.K
    }

    /** The member initialisation of the checking constructor; Create performs the check. */
    constructor Init(builder: HamiltonianBuilder, parameters: HamiltonianParameters)
      requires parameters.Valid() && parameters.K == builder.fockSpace.K
      ensures Valid() && fresh(this.parameters)
      ensures this.builder == builder && eigenpairs == []
      ensures this.parameters.aoBasis == parameters.aoBasis && this.parameters.K == parameters.K
      ensures this.parameters.S == parameters.S && this.parameters.h == parameters.h
      ensures this.parameters.g == parameters.g && this.parameters.C == parameters.C
    {
      var copy := new HamiltonianParameters.Copy(parameters);
      this.builder := builder;
      this.parameters := copy;
      eigenpairs := [];
    }

    /**
     * The checking constructor: keeps a copy of the parameters and refuses them
     * when h does not have the Fock space's number of orbitals.
     */
    static method Create(builder: HamiltonianBuilder, parameters: HamiltonianParameters)
      returns (r: Result<CISolver>)
      requires parameters.Valid()
      ensures r.Err? <==> |parameters.h| != builder.fockSpace.K
      ensures r.Err? ==> r.error == InvalidArgument(IncompatibleFockSpace)
      ensures r.Ok? ==> fresh(r.value) && fresh(r.value.parameters) && r.value.Valid()
      ensures r.Ok? ==> r.value.builder == builder && r.value.eigenpairs == []
      ensures r.Ok? ==> r.value.parameters.aoBasis == parameters.aoBasis && r.value.parameters.K == parameters.K
      ensures r.Ok? ==> r.value.parameters.h == parameters.h && r.value.parameters.g == parameters.g
      ensures r.Ok? ==> r.value.parameters.S == parameters.S && r.value.parameters.C == parameters.C
    {
      if |parameters.h| != builder.fockSpace.K {
        return Err(InvalidArgument(IncompatibleFockSpace));
      }
      var solver := new CISolver.Init(builder, parameters);
      return Ok(solver);
    }

    /**
     * solve(options): the dense solver diagonalises the full Hamiltonian matrix;
     * Davidson gets the diagonal, computed once, both directly and inside its
     * matrix-vector product; the sparse kind always fails and leaves the
     * eigenpairs untouched. A successful solve replaces the eigenpairs.
     */
    method Solve(options: SolverOptions) returns (o: Outcome)
      requires Valid()
      modifies this
      ensures Valid()
      ensures o.Fail? <==> options.SparseSolverOptions?
      ensures o.Fail? ==> o.error == InvalidArgument(SparseNotImplemented) && eigenpairs == old(eigenpairs)
      ensures options.DenseSolverOptions? ==>
                eigenpairs == options.dense(builder.constructHamiltonian(parameters.h, parameters.g))
      ensures options.DavidsonSolverOptions? ==>
                var diagonal := builder.calculateDiagonal(parameters.h, parameters.g);
                eigenpairs == options.davidson(MatrixVectorProduct(builder, parameters.h, parameters.g, diagonal), diagonal)
    {
      match options
      case DenseSolverOptions(dense) =>
        var matrix := builder.constructHamiltonian(parameters.h, parameters.g);
        eigenpairs := dense(matrix);
        return Pass;
      case DavidsonSolverOptions(davidson) =>
        var diagonal := builder.calculateDiagonal(parameters.h, parameters.g);
        var product := MatrixVectorProduct(builder, parameters.h, parameters.g, diagonal);
        eigenpairs := davidson(product, diagonal);
        return Pass;
      case SparseSolverOptions =>
        return Fail(InvalidArgument(SparseNotImplemented));
    }

    /**
     * get_wavefunction(index), with the guard evidently intended: an index with
     * no eigenpair is refused, otherwise the builder's Fock space is paired
     * with that eigenpair's eigenvector.
     */
    method GetWavefunction(index: nat) returns (r: Result<WaveFunction>)
      requires Valid()
      ensures r.Err? <==> index >= |eigenpairs|
      ensures r.Err? ==> r.error == LogicError(NotEnoughEigenpairs)
      ensures r.Ok? ==> r.value == WaveFunction(builder.fockSpace, eigenpairs[index].eigenvector)
      ensures index != |eigenpairs| ==>
                GetWavefunctionAsWritten(eigenpairs, builder.fockSpace, index) ==
                  (if r.Ok? then Returned(r.value) else Thrown(r.error))
    {
      if index >= |eigenpairs| {
        return Err(LogicError(NotEnoughEigenpairs));
      }
      return Ok(WaveFunction(builder.fockSpace, eigenpairs[index].eigenvector));
    }
  }
}
