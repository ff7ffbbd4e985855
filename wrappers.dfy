/** Option and Result types standing in for Go's nil-able pointers and
    `(value, error)` pairs, and the errors the modelled code can produce. */
module Wrappers {

  datatype Option<+T> = None | Some(value: T)

  /** The errors of the modelled code.  Errors that come from the
      operating system or from go/build and go/parser are opaque. */
  datatype Error =
    | HostError(msg: string)        // an error reported by an oracle (os, filepath, go/build, go/parser)
    | NotInGopath(arg: string)      // "Directory %s not in $GOPATH"
    | NoPackageNamed(name: string)  // "No package named %s"
    | EmptyTagToken                 // the index-out-of-range panic of parse1 on an empty token
    | CannotUseTree                 // "cannot use ... imports"
    | OnlyOnePackage                // "only one package may be specified"

  /** A Go `(value, error)` pair in which exactly one side is meaningful. */
  datatype Result<+T> = Success(value: T) | Failure(error: Error)

  /** The error of a Go error-returning call: nil, or an error. */
  function ErrOf<T>(r: Result<T>): (e: Option<Error>)
    ensures e.None? <==> r.Success?
  {
    match r
    case Success(_) => None
    case Failure(err) => Some(err)
  }
}
