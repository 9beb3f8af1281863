# gqcp core, modelled in Dafny

This project models the quantum-chemistry core of gqcp. It covers five parts:

- **AP1roG geminal coefficients.** For N_P electron pairs in K spatial orbitals these are the free coefficients G(i,a), with occupied i < N_P and virtual N_P ≤ a < K. They are stored row by row in a vector of N_P·(K−N_P) entries. The model covers the coefficient count, both constructors, `vectorIndex`, `matrixIndexMajor`/`matrixIndexMinor`, `asMatrix` and both `operator()` overloads.
- **Hamiltonian parameters.** The bundle holds the overlap S, the one- and two-electron integrals h and g, and the coefficient matrix C, all in K orbitals. The model covers:
  - the checking constructor;
  - the copy-and-transform constructor;
  - `transform(T)`, which changes the basis b' = b·T and accumulates C := C·T;
  - `rotate(U)`, guarded by unitarity;
  - the generalized Fock matrix F and the super-generalized Fock matrix W, computed from a 1-RDM D and a 2-RDM d.
- **CI solver.** It holds a Hamiltonian builder and a copy of the parameters. The model covers the constructor's check, `solve`'s dispatch on the solver kind, and `get_wavefunction`.
- **TwoRDM.** The model covers element access, `trace` Σ_{p,q} d(p,p,q,q), `reduce` D(p,q) = Σ_r d(p,q,r,r), and `isEqualTo`/`operator==`.
- **AP1roG.** The model covers the wave-function record and `calculateAP1roGEnergy`.

## How it is modelled

- **Numbers and arrays.** Doubles are `real`. Matrices are `seq<seq<real>>` and four-index tensors are `seq<seq<seq<seq<real>>>>`. `Sums.Sum` adds terms first to last, exactly like an `acc += term` loop that starts at zero.
- **Loops.** Every loop nest in the source is a `method` with `for` loops. Each one is proved equal to a closed form stated as functions: `Fock.GeneralizedFock`, `Fock.SuperGeneralizedFock` and `AP1roGEnergy.Energy`. Properties of those closed forms are separate lemmas.
- **Objects that change state.**
  - `HamiltonianParameters` and `CISolver` are classes, since the source updates their fields.
  - A checking C++ constructor is a static `Create` method that returns `Result`. It delegates to an unchecked `Init` constructor.
  - `throw` becomes an `Err`/`Fail` value that carries the exception kind and a reason.
- **Values.** `TwoRDM`, `GeminalCoefficients`, `AP1roG`, `WaveFunction` and the eigenpairs are datatypes. The AP1roG value constructor stores its two arguments unchanged, and so does the datatype constructor `AP1roG.AP1roG`.
- **Code that is not part of this model** appears as function parameters. These are the Hamiltonian builder's implementations and the dense and Davidson eigensolvers.

## Model

| member | source | states |
|---|---|---|
| Geminals.NumberOfGeminalCoefficients | tests/AP1roG/AP1roGGeminalCoefficients_test.cpp:27-32 | The count exists exactly when N_P < K. Otherwise it is an invalid_argument. |
| Geminals.NumberOfGeminalCoefficientsTest | tests/AP1roG/AP1roGGeminalCoefficients_test.cpp:29-31 | (2,5) gives 6 and (4,4) fails. |
| Geminals.Zeros | tests/AP1roG/AP1roGGeminalCoefficients_test.cpp:40-47 | The (N_P,K) constructor succeeds exactly when N_P < K. It then yields valid coefficients, N_P·(K−N_P) of them, all zero. Otherwise it is an invalid_argument. |
| Geminals.ConstructorTest | tests/AP1roG/AP1roGGeminalCoefficients_test.cpp:43-46 | (4,6) is accepted and (4,4) is rejected with invalid_argument. |
| Geminals.FromVector | tests/AP1roG/AP1roGGeminalCoefficients_test.cpp:50-59 | The (g,N_P,K) constructor succeeds exactly when N_P < K and \|g\| = N_P·(K−N_P). If it succeeds it stores g unchanged. The failure reason distinguishes too many geminals from a length mismatch. |
| Geminals.ConstructorVectorTest | tests/AP1roG/AP1roGGeminalCoefficients_test.cpp:53-58 | A zero vector of length 6 is accepted for (2,5) and rejected for (2,4) and (1,5). |
| Geminals.Empty | tests/AP1roG/AP1roGGeminalCoefficients_test.cpp:35-37 | The default coefficients are valid, have no pairs and hold an empty vector. |
| Geminals.GeminalCoefficients.VectorIndex | tests/AP1roG/AP1roGGeminalCoefficients_test.cpp:86-101 | It succeeds exactly when i < N_P and a ≥ N_P, with a distinct error for each failing index. For a < K the position lies inside the vector. |
| Geminals.VectorIndexTest | tests/AP1roG/AP1roGGeminalCoefficients_test.cpp:89-100 | For N_P=2, K=11: (0,2)→0, (0,3)→1, (1,2)→9 and (1,3)→10. (3,3) and (0,1) fail with the occupied and virtual errors. |
| Geminals.GeminalCoefficients.MatrixIndexMajor | tests/AP1roG/AP1roGGeminalCoefficients_test.cpp:104-119 | For a position inside the vector, the occupied index is below N_P. |
| Geminals.GeminalCoefficients.MatrixIndexMinor | tests/AP1roG/AP1roGGeminalCoefficients_test.cpp:104-119 | The virtual index lies in [N_P, K). |
| Geminals.MatrixIndexTest | tests/AP1roG/AP1roGGeminalCoefficients_test.cpp:107-118 | For N_P=2, K=11: the majors of 0, 1, 9, 10 are 0, 0, 1, 1. The minors of 0, 1, 4, 5 are 2, 3, 6, 7. |
| Geminals.GeminalCoefficients.VectorIndexOfMatrixIndex | tests/AP1roG/AP1roGGeminalCoefficients_test.cpp:86-119 | On [0, N_P·(K−N_P)), vectorIndex(major(v), minor(v)) = v, which is one direction of the bijection. |
| Geminals.GeminalCoefficients.MatrixIndexOfVectorIndex | tests/AP1roG/AP1roGGeminalCoefficients_test.cpp:86-119 | On the virtual block, major(vectorIndex(i,a)) = i and minor(vectorIndex(i,a)) = a, which is the other direction. |
| Geminals.GeminalCoefficients.AsMatrix | tests/AP1roG/AP1roGGeminalCoefficients_test.cpp:69-83 | asMatrix() is N_P×K. Its occupied block is the identity and G(i,a) = g[vectorIndex(i,a)] for a ≥ N_P. |
| Geminals.GeminalCoefficients.AsMatrixAtVectorPosition | tests/AP1roG/AP1roGGeminalCoefficients_test.cpp:69-83 | Every vector entry g[v] appears in asMatrix() at (major(v), minor(v)). |
| Geminals.AsMatrixTest | tests/AP1roG/AP1roGGeminalCoefficients_test.cpp:72-82 | For g = 1…6, N_P=2, K=5, the matrix is [[1,0,1,2,3],[0,1,4,5,6]]. |
| Geminals.GeminalCoefficients.Coefficient | tests/AP1roG/AP1roGGeminalCoefficients_test.cpp:130-135 | operator()(v) is the asMatrix() entry at (major(v), minor(v)). |
| Geminals.GeminalCoefficients.CoefficientAt | tests/AP1roG/AP1roGGeminalCoefficients_test.cpp:138-143 | operator()(i,a) succeeds exactly when vectorIndex(i,a) does, and then equals G(i,a) of asMatrix(). It fails with vectorIndex's error otherwise. |
| Geminals.OperatorCallVectorTest | tests/AP1roG/AP1roGGeminalCoefficients_test.cpp:126-135 | For g = 1…6, operator()(v) = v+1 for v = 0 … 5. |
| Geminals.OperatorCallMatrixTest | tests/AP1roG/AP1roGGeminalCoefficients_test.cpp:126-143 | For g = 1…6: (0,2)…(0,4) give 1, 2, 3 and (1,2)…(1,4) give 4, 5, 6. |
| Matrices.MatMulAssociative | src/HamiltonianParameters/HamiltonianParameters.cpp:107 | (A·B)·C = A·(B·C). This is what makes the C update cumulative. |
| Matrices.MatMulIdentity | src/HamiltonianParameters/HamiltonianParameters.cpp:107 | C·I = C. |
| Matrices.TransposeOfProduct | src/HamiltonianParameters/HamiltonianParameters.cpp:102-104 | (A·B)ᵀ = Bᵀ·Aᵀ. It is used for composing one-electron transforms. |
| Operators.TransformOneElectron | src/HamiltonianParameters/HamiltonianParameters.cpp:102-104 | The law assumed for S.transform(T) and h.transform(T), Tᵀ·M·T, keeps a K×K operator K×K. |
| Operators.TransformTwoElectron | src/HamiltonianParameters/HamiltonianParameters.cpp:105 | The law assumed for g.transform(T), contracting each of the four indices with T, keeps a K⁴ tensor K⁴. |
| Operators.TransformOneElectronComposes | src/HamiltonianParameters/HamiltonianParameters.cpp:102-104 | Transforming S or h by T1 and then by T2 equals one transformation by T1·T2. |
| Operators.TransformOneElectronIdentity | src/HamiltonianParameters/HamiltonianParameters.cpp:102-104 | Transforming with the identity leaves a one-electron operator unchanged. |
| Operators.TransformTwoElectronIdentity | src/HamiltonianParameters/HamiltonianParameters.cpp:105 | Transforming with the identity leaves the two-electron integrals unchanged. |
| Parameters.HamiltonianParameters.Init | src/HamiltonianParameters/HamiltonianParameters.cpp:37-44 | The member initialisation sets K = dim S and stores the AO basis, S, h, g and C unchanged. |
| Parameters.HamiltonianParameters.Create | src/HamiltonianParameters/HamiltonianParameters.cpp:37-62 | An invalid_argument results when a present AO basis, h, g, or C's rows or columns disagree with K = dim S. A second invalid_argument follows when S is zero within 1e-8. Otherwise there is a fresh, valid bundle with the inputs stored unchanged, and success holds exactly in that case. |
| Parameters.HamiltonianParameters.Copy | src/CISolver/CISolver.cpp:34 | The implicit copy constructor used by the solver copies every member. |
| Parameters.HamiltonianParameters.Transformed | src/HamiltonianParameters/HamiltonianParameters.cpp:71-81 | The result equals a copy of the given bundle followed by transform(T). That gives S and h transformed, g transformed and C·T. |
| Parameters.HamiltonianParameters.Transform | src/HamiltonianParameters/HamiltonianParameters.cpp:100-108 | S, h and g are transformed by T, C becomes old C·T, and the bundle stays valid. |
| Parameters.TransformTwice | src/HamiltonianParameters/HamiltonianParameters.cpp:100-108 | Two transforms T1, T2 leave C = C·(T1·T2), with S and h transformed once by T1·T2. |
| Parameters.TransformIdentity | src/HamiltonianParameters/HamiltonianParameters.cpp:100-108 | transform(I) changes none of S, h, g and C. |
| Parameters.HamiltonianParameters.Rotate | src/HamiltonianParameters/HamiltonianParameters.cpp:118-125 | It fails with invalid_argument exactly when U is not unitary within 1e-12, and then nothing changed. Otherwise the new state is that of transform(U). |
| Parameters.HamiltonianParameters.CalculateGeneralizedFockMatrix | src/HamiltonianParameters/HamiltonianParameters.cpp:181-217 | A 1-RDM of dimension ≠ K, then a 2-RDM of dimension ≠ K, gives invalid_argument. Otherwise the result is F(p,q) = Σ_r h(q,r)D(p,r) + Σ_{r,s,t} g(q,r,s,t)d(p,r,s,t). |
| Parameters.HamiltonianParameters.CalculateSuperGeneralizedFockMatrix | src/HamiltonianParameters/HamiltonianParameters.cpp:226-270 | The same two checks apply. Otherwise W(p,q,r,s) = [r=q]F(p,s) − h(s,p)D(r,q) + Σ_{t,u}(g(s,t,q,u)d(r,t,p,u) − g(s,t,u,p)d(r,t,u,q) − g(s,p,t,u)d(r,q,t,u)). |
| Fock.GeneralizedFockEntry | src/HamiltonianParameters/HamiltonianParameters.cpp:198-210 | The r loop followed by the r, s, t loops accumulates exactly the closed form F(p,q). |
| Fock.GeneralizedFockMatrix | src/HamiltonianParameters/HamiltonianParameters.cpp:193-216 | The p, q loops produce the whole K×K closed form F. |
| Fock.SuperGeneralizedFockEntry | src/HamiltonianParameters/HamiltonianParameters.cpp:249-262 | Starting from zero: adding F(p,s) when r = q, subtracting h(s,p)D(r,q), and the t, u loops together give exactly the closed form W(p,q,r,s). |
| Fock.SuperGeneralizedFockBlockOf | src/HamiltonianParameters/HamiltonianParameters.cpp:245-265 | For one p, the q, r, s loops produce the slice W(p,·,·,·) of the closed form. |
| Fock.SuperGeneralizedFockMatrix | src/HamiltonianParameters/HamiltonianParameters.cpp:241-269 | Given F, the p, q, r, s loops produce the whole K⁴ closed form W. |
| Fock.GeneralizedFockAdditive | src/HamiltonianParameters/HamiltonianParameters.cpp:193-213 | F is additive in the density matrices: F(D₁+D₂, d₁+d₂) = F(D₁,d₁) + F(D₂,d₂). |
| Fock.SuperGeneralizedFockAdditive | src/HamiltonianParameters/HamiltonianParameters.cpp:241-266 | W is additive in the density matrices in the same way. |
| Fock.GeneralizedFockOfZeroRDMs | src/HamiltonianParameters/HamiltonianParameters.cpp:193-213 | Vanishing D and d give a vanishing F, whatever h and g are. |
| Fock.SuperGeneralizedFockOfZeroRDMs | src/HamiltonianParameters/HamiltonianParameters.cpp:241-266 | Vanishing D and d give a vanishing W. |
| CI.CISolver.Init | src/CISolver/CISolver.cpp:32-35 | The solver stores the builder and a fresh copy of the parameters, and starts with no eigenpairs. |
| CI.CISolver.Create | src/CISolver/CISolver.cpp:32-40 | It fails with invalid_argument exactly when dim h differs from the Fock space's K. Otherwise it gives a fresh, valid solver with no eigenpairs, holding a fresh copy of the parameters: the same AO basis, K, S, h, g and C. |
| CI.CISolver.Solve | src/CISolver/CISolver.cpp:53-87 | The sparse kind always fails with invalid_argument and leaves the eigenpairs alone, and it is the only kind that fails. Dense sets the eigenpairs to the dense solver's result on constructHamiltonian(h, g). Davidson computes the diagonal once and passes that same diagonal to the solver and to the matrix-vector product. Each successful solve replaces the eigenpairs wholesale. |
| CI.MatrixVectorProduct | src/CISolver/CISolver.cpp:71-72 | The product handed to Davidson applies the builder's matrix-vector product to any x with the one diagonal computed before it. |
| CI.GetWavefunctionAsWritten | src/CISolver/CISolver.cpp:95-100 | This is the source's guard. It throws exactly when index > size and reaches the read exactly when index = size. Otherwise it returns the builder's Fock space with eigenpair index's eigenvector. |
| CI.GetWavefunctionGuardAdmitsSize | src/CISolver/CISolver.cpp:96-99 | For every eigenpair list, index = size passes the guard and reads past the end. That includes index 0 before any solve. |
| CI.CISolver.GetWavefunction | src/CISolver/CISolver.cpp:95-100 | logic_error results exactly when index ≥ size. Otherwise the result pairs the builder's Fock space with eigenpair index's eigenvector. It agrees with the source's guard at every index except size. |
| RDM.TwoRDM.Element | include/RDM/TwoRDM.hpp:54 | operator()(p,q,r,s) returns the stored element d(p,q,r,s) unchanged. |
| RDM.ElementsDetermineRDM | include/RDM/TwoRDM.hpp:54 | operator()(p,q,r,s) exposes the stored tensor: two 2-RDMs with equal elements are equal. |
| RDM.TwoRDM.Reduce | include/RDM/TwoRDM.hpp:78-81 | reduce() is a K×K matrix. |
| RDM.TwoRDM.Trace | include/RDM/TwoRDM.hpp:73-81 | trace() = Σ_{p,q} d(p,p,q,q) equals the trace of reduce(). |
| RDM.TwoRDM.IsEqualTo | include/RDM/TwoRDM.hpp:65-71 | Equality within a tolerance implies equal dimensions, and for a non-empty 2-RDM a non-negative tolerance. Its modelled body is described under "## Left out". |
| RDM.TwoRDM.Equals | include/RDM/TwoRDM.hpp:56-61 | operator== holds exactly when the other 2-RDM is equal to this one within 1e-8, so it is symmetric. |
| RDM.IsEqualToZeroTolerance | include/RDM/TwoRDM.hpp:65-71 | With tolerance 0, isEqualTo holds exactly when the two tensors are identical. |
| RDM.EqualsReflexiveSymmetric | include/RDM/TwoRDM.hpp:56-71 | operator==, which is isEqualTo with tolerance 1e-8, is reflexive and symmetric. |
| AP1roGEnergy.Default | src/AP1roG/AP1roG.cpp:29-32 | The default wave function has energy 0.0 and valid default coefficients with no pairs. |
| AP1roGEnergy.CalculateAP1roGEnergy | src/AP1roG/AP1roG.cpp:55-76 | The j loop returns exactly Σ_{j<N_P}[2h(j,j) + Σ_{k<N_P}(2g(k,k,j,j) − g(k,j,j,k)) + Σ_{N_P≤b<K} g(j,b,j,b)·G(j,b)]. |
| AP1roGEnergy.AccumulatePairEnergy | src/AP1roG/AP1roG.cpp:63-73 | One pass of the loop body, the k loop then the b loop, adds exactly pair j's contribution. |
| AP1roGEnergy.EnergyDecomposes | src/AP1roG/AP1roG.cpp:62-75 | The energy is the reference part plus the part the geminal coefficients contribute. |
| AP1roGEnergy.EnergyOfZeroCoefficients | src/AP1roG/AP1roG.cpp:63-72 | With every geminal coefficient zero, the energy is the reference part 2Σh(j,j) + ΣΣ(2g(k,k,j,j) − g(k,j,j,k)). |
| AP1roGEnergy.EnergyWithoutPairs | src/AP1roG/AP1roG.cpp:62-63 | With N_P = 0 the energy is 0, which agrees with the default wave function's stored energy. |

## Left out

- `randomRotate` and `LowdinOrthonormalize` are left out. They need random matrices, a self-adjoint eigensolver and an inverse square root.
- The Jacobi overload of `rotate` is left out. It needs cos/sin and the Jacobi rotations of the one- and two-electron operators, which are not part of this model.
- The transformations of the one- and two-electron operators are not part of this model: the implementations of `OneElectronOperator` and `TwoElectronOperator` lie outside this model.
  - They are given the standard laws: Tᵀ·M·T, and the contraction of each of the four indices with T.
  - Composition is proved for S, h and C. For g only the identity law is proved.
- Parameters.HamiltonianParameters.Rotate: Eigen's `isUnitary(1e-12)` is modelled as every entry of UᵀU lying within 1e-12 of the identity.
- Parameters.HamiltonianParameters.Create: Eigen's `isZero(1e-8)` is modelled as every entry of S lying within 1e-8 of zero.
- Floating-point rounding is not modelled: doubles are exact reals, and sums are exact in the loops' order.
- Parameters.HamiltonianParameters.Create: the requires only says that S, h and g are square and that C is rectangular, which their types guarantee in the source.
  - A C with zero rows has zero columns in this representation, so a 0×n coefficient matrix cannot be told apart from a 0×0 one.
- The 1-RDM of the Fock routines is modelled as a plain square matrix; `OneRDM` itself is not part of this model.
- Parameters.HamiltonianParameters.CalculateGeneralizedFockMatrix: F is assembled row by row from entries, rather than written in place into a zero-initialised Eigen matrix. The entry loops are the source's.
- Parameters.HamiltonianParameters.CalculateSuperGeneralizedFockMatrix: W is assembled the same way. Each entry starts from zero and is then updated with the source's `+=`/`-=` steps.
- AP1roGEnergy.CalculateAP1roGEnergy: the requires asks that the integrals cover the geminal coefficients' K orbitals. Outside that, the source reads past the end of h and g (undefined behaviour).
- The implementation of `AP1roGGeminalCoefficients` is not part of this model. Its behaviour is taken from its unit tests:
  - too many geminals means N_P ≥ K;
  - `vectorIndex` does not check a < K;
  - the default coefficients are N_P = 0, K = 0 with an empty vector;
  - `asVector()` is the stored vector field.
- Geminals.GeminalCoefficients.CoefficientAt: the requires asks for a virtual index a < K. Since `vectorIndex` does not check a < K, operator()(i,a) with a ≥ K in the source silently reads another pair's coefficient, or past the end of the vector; the model does not describe that case.
- CI.HamiltonianBuilder: the builder's operations receive only the integrals h and g, not the whole Hamiltonian parameters bundle that the source passes them; a builder that reads S, C or the AO basis cannot be expressed.
- The Hamiltonian builder's implementations (DOCI, FCI, selected) and the dense and Davidson eigensolvers are not part of this model. They appear as function parameters of the builder and of the solver options.
- What an eigensolver's options contain, beyond its kind, is not modelled.
- `WaveFunction` stores the Fock space by value; the source holds it by reference.
- The shared pointer to the AO basis is modelled as either no basis or a basis with its number of basis functions.
- RDM.TwoRDM.IsEqualTo: `isEqualTo`'s implementation lies outside this model; it is modelled as equal dimensions and every element within the tolerance.
- Fock-space addressing, the RDM builders and the reading of molecule and basis files are not part of this model.

## Findings

| source | as written | input that shows it | evidently intended | confidence | as-written member | corrected member |
|---|---|---|---|---|---|---|
| src/CISolver/CISolver.cpp:96-99 | the guard throws only when `index > eigenpairs.size()`, then reads `eigenpairs[index]` | index = eigenpairs.size(); for example index 0 before any solve | throw when `index >= eigenpairs.size()` | not executed | CI.GetWavefunctionAsWritten, CI.GetWavefunctionGuardAdmitsSize | CI.CISolver.GetWavefunction |
