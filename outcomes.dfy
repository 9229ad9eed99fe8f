/** Option and Result wrappers, and the exceptions the fetchers raise or let through. */
module Outcomes {

  datatype Option<+T> = None | Some(value: T)

  /** Which `EmptyDataError` class an endpoint raises: the host framework's or pandas'. */
  datatype Origin = Framework | Pandas

  /** The exception taxonomy of the modelled code paths. */
  datatype Error =
    | EmptyData(origin: Origin)      // the query returned an empty frame (or no listed symbol)
    | KeyError(key: string)          // a dict key or DataFrame column is missing
    | TypeError(what: string)        // values of different kinds were compared
    | AttributeError(what: string)   // a date method was called on a value that is not a date
    | ValueError(what: string)       // an argument outside its domain
    | OverflowError                  // date arithmetic past 9999-12-31
    | IndexError                     // `results[0]` on an empty list
    | ValidationError(field: string) // a required field is missing or mistyped

  datatype Result<+T> = Ok(value: T) | Err(error: Error) {
    predicate IsFailure() { Err? }
    function PropagateFailure<U>(): Result<U> requires Err? { Err(error) }
    function Extract(): T requires Ok? { value }
  }
}
