/** The exporter's failures: errors returned by a function, and runtime panics. */
module Errors {

  datatype Error =
    /** An environment variable that must be set is empty or unset. */
    | MissingEnvironmentVariable(name: string)
    /** A slice was indexed at `index` while holding only `length` elements (a Go runtime panic). */
    | IndexOutOfRange(index: nat, length: nat)
    /** The remote pull-request listing for one repository failed with `cause`. */
    | ListFailed(cause: string)

  /** How a poll cycle ends when it does not complete. */
  datatype Fault =
    /** `snapshot` returned an error, wrapped with the message prefix `context`. */
    | Returned(context: string, cause: Error)
    /** A runtime panic escaped `snapshot`. */
    | Panicked(cause: Error)
}
