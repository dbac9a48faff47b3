/** Error and optional values shared by the provider bootstrap (aws/config.go). */
module AwsErrors {

  /** A value that may be absent; a Go `nil` error is `None`. */
  datatype Option<+T> = None | Some(value: T)

  /**
   * A Go `error`. `AwsError` is an error that satisfies the SDK's
   * `awserr.Error` interface and so carries a `Code()`; `PlainError` is any
   * other error (for instance one built with `fmt.Errorf`). In both, `text`
   * is what the error's `Error()` method returns.
   */
  datatype Error =
    | AwsError(code: string, text: string)
    | PlainError(text: string)

  /** The outcome of an operation that yields a value or an error. */
  datatype Result<+T> = Success(value: T) | Failure(error: Error)
}
