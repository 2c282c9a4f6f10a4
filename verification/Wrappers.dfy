/** Optional values and error returns, used by every other module. */
module Wrappers {

  datatype Option<+T> = None | Some(value: T)

  /** Go's `(value, error)` pair: exactly one of the two is meaningful. */
  datatype Result<+T, +E> = Ok(value: T) | Err(error: E)

  /** Why an operation of the connector failed. */
  datatype Error =
    | InvalidToken      // a template token that does not have the token form
    | UnknownOption     // `?<key|opt>` with an option other than `unquoted`
    | UnknownToken      // `?<key>` with a key nobody defined
    | BadTemplate(errors: seq<Error>)   // the errors of all tokens of one query, joined
    | BadOffset         // an offset page token that is not an int64
    | UnknownStrategy
    | QueryFailed
    | ScanFailed
    | MissingKey        // the primary key is not a column of the result
    | BadKeyType
    | IterationFailed
    | BadMapping
    | BadPageToken
    | NoSuchQuery       // an index outside the configured queries (a panic in Go)
    | MissingQuery      // a nil query configuration
    | BeginFailed
    | CommitFailed
    | ExecFailed
    | TooManyRows
    | BadEntitlementId
    | NotProvisioned
    | NoQueries
    | MissingPrincipal
}
