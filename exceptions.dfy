/** Error kinds of the scaffold and the shape of a JavaScript call that may throw. */
module Exceptions {

  /** The exception classes the core throws or stores, plus the plain `Error`
      that `Try.filter` creates and the `RangeError` of `Coord4D`. */
  datatype Error =
    | NoSuchElement
    | AssertionError(message: string)
    | MissingParameter(message: string)
    | ShaderError(message: string)
    | WebGL2NotSupported
    | RangeError(message: string)
    | PlainError(message: string)

  /** How a JavaScript call ends: it returns a value or it throws an error. */
  datatype Completion<T> = Returned(value: T) | Threw(error: Error)
}
