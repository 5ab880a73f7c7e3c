/** The exceptions the booking code raises, and the two ways an operation reports them. */
module Errors {

  /** Why a `ValueError` was raised. */
  datatype ValueReason =
    | OutOfHours    // time_to_moment: time before opening or after closing
    | Misaligned    // time_to_moment: time not a whole number of intervals after opening
    | FalsyStatus   // a status setter was given a falsy value
    | InvalidMode   // overwrite_additional_party_notes: mode is neither "w" nor "a"

  /** Why the `check_iden_exists` guard raised an `IdentityError`. */
  datatype IdentityReason =
    | NotKeyword    // `iden` was not passed as a keyword argument
    | NotAnInt      // `iden` was passed but is not an int
    | UnknownIden   // `iden` is not a key of the ledger

  datatype Error =
    | ValueError(value: ValueReason)
    | IdentityError(identity: IdentityReason)
    | KeyError
    | ZeroDivisionError

  /** A Python call that returns a value or raises. */
  datatype Result<T> = Ok(value: T) | Err(error: Error)

  /** A Python call that returns None or raises. */
  datatype Outcome = Pass | Fail(error: Error)

  /** Python's `None`-able value. */
  datatype Option<T> = None | Some(value: T)
}
