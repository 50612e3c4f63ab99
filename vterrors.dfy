/** Errors of the restore flow. A Go `error` that may be nil is an
    `Option<Err>`; `None` is nil. */
module VtErrors {
  import opened Wrappers

  datatype Code = INVALID_ARGUMENT | FAILED_PRECONDITION

  datatype Err =
    /** The three distinguished conditions of the backup engine. */
    | NoBackup | NoCompleteBackup | ExistingDB
    /** The error of a context that is done. */
    | ContextDone
    /** The error returned when the engine configuration file is missing. */
    | NoCnf
    /** Any other error reported by a collaborator. */
    | External(what: string)
    /** An error created with a code. */
    | Coded(code: Code, msg: string)
    /** A non-nil error wrapped with a message. */
    | Wrapped(cause: Err, msg: string)
    /** A nil error wrapped with a message, by a wrapper that does not keep nil. */
    | WrappedNil(msg: string)

  /** The error wrapper. It always wraps a non-nil cause; what it does with a
      nil cause is not shown, so `nilIsNil` says whether nil stays nil. */
  function Wrap(err: Option<Err>, msg: string, nilIsNil: bool): (r: Option<Err>)
    ensures err.Some? ==> r == Some(Wrapped(err.value, msg))
    ensures err.None? ==> (r.None? <==> nilIsNil)
  {
    match err
    case Some(e) => Some(Wrapped(e, msg))
    case None => if nilIsNil then None else Some(WrappedNil(msg))
  }
}
