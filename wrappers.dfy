/** Failure-carrying results shared by the codecs. */
module Wrappers {

  /** An optional value: `None` where Python would raise or find nothing. */
  datatype Option<+T> = None | Some(value: T)

  /** The reasons `User.from_dict` raises, one per failing step. */
  datatype Error =
    | MissingKey(key: string)       // KeyError: a required key is absent
    | UnknownRole(tag: string)      // ValueError from `UserRole(tag)`
    | BadTimestamp(text: string)    // ValueError from `datetime.fromisoformat(text)`

  /** The outcome of a decoding step: a value, or the error Python would raise. */
  datatype Result<+T> = Ok(value: T) | Err(error: Error)
}
