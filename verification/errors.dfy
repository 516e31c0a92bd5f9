/** The exceptions the modelled code raises or lets escape. */
module Errors {

  /** Why a booking was rejected by the date validator. */
  datatype ValidationReason = StartAfterEnd | IntersectsExisting

  datatype Exception =
    | ValidationError(reason: ValidationReason)
      /** A dictionary lookup on an absent key, or a missing item in a store response. */
    | KeyError(key: string)
      /** `payload["actions"][0]` on an empty action list. */
    | IndexError
    | ArgumentsError(message: string)
}
