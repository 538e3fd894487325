/** Optional values and success/failure results, as the canister's records and
    entry points use them. */
module Wrappers {

  /** An optional value; `updatedAt` is `None` until the first update. */
  datatype Option<+T> = None | Some(value: T)

  /** The outcome of an entry point: the record, or a human-readable message. */
  datatype Result<+T, +E> = Ok(value: T) | Err(error: E)
}
