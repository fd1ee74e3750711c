/** Failure-carrying values shared by every module, and the numeric settings
    of the service (config.py). */
module Base {

  /** A value that may be absent (Python's `None`). */
  datatype Option<+T> = None | Some(value: T)

  /** Either a value or the reason an operation raised. */
  datatype Result<+T, +E> = Success(value: T) | Failure(error: E)

  /** Score below which the corrective pipeline turns to web search. */
  const RelevanceThreshold: real := 7.0

  /** Lowest parsed rating a suggestion may carry. */
  const MinRatingThreshold: real := 5.0

  /** Default retrieval width. */
  const TopKResults: int := 5

  function Min(a: int, b: int): int { if a <= b then a else b }

  function Max(a: int, b: int): int { if a >= b then a else b }
}
