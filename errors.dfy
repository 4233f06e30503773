/** The Python exceptions that the modelled functions raise or let through. */
module Errors {

  datatype PyError =
    | KeyError(key: string)
    /** `KeyError` raised by a dict subscripted with an integer. */
    | IntKeyError(index: int)
    | IndexError
    | TypeError
    | AttributeError
    | ValueError(message: string)
    | JsonDecodeError
    /** Opening or writing a file failed. */
    | OsError
    /** An exception handler referred to a local name that was never bound. */
    | UnboundLocalError
    /** `ValueError(f"Error extracting quiz content: {cause}")`. */
    | QuizExtractionError(cause: PyError)
    /** `ValueError(str(cause))`: the cause re-raised as a `ValueError`. */
    | RaisedAsValueError(cause: PyError)
}
