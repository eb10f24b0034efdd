/** Failure-carrying datatypes shared by every chaincode model. */
module Wrappers {

  /** A Go value that may be nil (a `[]byte` read from a ledger, for one). */
  datatype Option<+T> = None | Some(value: T) {
    function GetOr(default: T): T {
      match this
      case Some(v) => v
      case None => default
    }
  }

  /** A Go `(value, error)` pair: either the value or the error message. */
  datatype Result<+T> = Success(value: T) | Failure(error: string)
}
