/** Option and Result values for lookups that can fail, and the errors the
    engine raises. */
module Results {

  datatype Option<+T> = None | Some(value: T)

  datatype Result<+T, +E> = Success(value: T) | Failure(error: E)

  /** The ways a call can fail. */
  datatype NmfError =
    | MissingKey(key: string)       // a required dictionary entry is absent
    | BadParameter(key: string)     // an entry holds a value of the wrong kind
    | ShapeMismatch                 // initW, initH and V cannot be multiplied and compared
    | UnknownCostFunction           // costFunc is none of EucDist, KLDiv, ISDiv
    | ComponentIndexOutOfRange      // numComp exceeds the number of columns of W
}
