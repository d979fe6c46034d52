/** Shared result types: Go's `error` value (nil or one of the named errors)
    and the optional values that stand in for Go's nil. */
module Common {

  datatype Option<+T> = None | Some(value: T)

  datatype Result<+T> = Ok(value: T) | Err(error: Error)

  /** Every error value the modelled code can produce.  The first group are the
      coordination store's own error codes, the second the record decoder's,
      the third the sentinel errors of the admin layer; `Panic` stands for a
      Go panic (from `must` or an index out of range), which ends the
      operation at that point. */
  datatype Error =
    | NodeExists | NoNode | BadVersion | NotEmpty | BadArguments
    | Malformed
    | NodeAlreadyExists | ClusterNotSetup | NodeNotExist | InstanceNotExist
    | StateModelDefNotExist | ResourceExists | ResourceNotExists
    | InvalidAddResourceOption
    | Panic
}
