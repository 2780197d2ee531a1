/** The error kinds the library raises and the shape of a throwing call. */
module Errors {

  /** `NetworkError`: the errors network procedures and responses propagate. */
  datatype NetworkError = Url | Client | Server | NotFound | Parse | Unknown

  /** `BaseError`: errors for common throwable scenarios. */
  datatype BaseError = UnexpectedNil

  /**
   * Swift's open `Error` protocol as seen by this library: its own two error
   * enums, or an error thrown by a caller's code, known only by a description.
   */
  datatype Error = Network(network: NetworkError) | Base(base: BaseError) | Foreign(description: string)

  /** The outcome of a Swift `throws` function: a returned value or a thrown error. */
  datatype Throwing<+T> = Returns(value: T) | Throws(error: Error)
}
