/** Small shared vocabulary: optional values, results and Python's truthiness of strings. */
module Base {

  /** A value that may be absent (Python's `None`). */
  datatype Option<+T> = None | Some(value: T)

  /** The outcome of an operation that either returns a value or raises an error. */
  datatype Result<+T, +E> = Success(value: T) | Failure(error: E)

  /** The MIME type that both chat paths give recorded audio. */
  const AudioMimeType := "audio/wav"

  /** One byte of a file or a request body. */
  newtype byte = x: int | 0 <= x < 256

  /** Python's `if s:` for a value that is `None` or a `str`: false for `None` and for "". */
  predicate Truthy(s: Option<string>)
  {
    s.Some? && s.value != ""
  }
}
