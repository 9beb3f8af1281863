/**
 * The exceptions thrown by the modelled code, as values.
 *
 * The library reports every failure by throwing `std::invalid_argument` or
 * `std::logic_error`; each is modelled here by its exception class together
 * with the reason the throwing site gives.
 */
module Errors {

  /** Why an operation refused its arguments. */
  datatype Reason =
    | TooManyGeminals           // N_P geminals do not fit in K orbitals
    | IncompatibleVectorSize    // a coefficient vector has the wrong length for (N_P, K)
    | OccupiedIndexOutOfRange   // an occupied index i is not below N_P
    | VirtualIndexOutOfRange    // a virtual index a is below N_P
    | IncompatibleDimensions    // S, h, g, C or the AO basis disagree on K
    | ZeroOverlapMatrix         // the overlap matrix is (numerically) zero
    | NotUnitary                // a rotation matrix is not unitary
    | IncompatibleOneRDM        // the 1-RDM does not have dimension K
    | IncompatibleTwoRDM        // the 2-RDM does not have dimension K
    | IncompatibleFockSpace     // the Fock space and the parameters disagree on K
    | SparseNotImplemented      // the sparse eigensolver kind
    | NotEnoughEigenpairs       // an eigenpair index past the computed ones

  /** The two exception classes the library throws. */
  datatype Exception =
    | InvalidArgument(reason: Reason)
    | LogicError(reason: Reason)

  /** The value a throwing function returns, or the exception it throws. */
  datatype Result<+T> = Ok(value: T) | Err(error: Exception)

  /** The outcome of a throwing procedure that returns nothing. */
  datatype Outcome = Pass | Fail(error: Exception)
}
