/** Shared vocabulary of the catalogue backend: optional values, the outcome
    of a route handler, the error kinds it reports, and integer helpers. */
module Common {

  datatype Option<+T> = None | Some(value: T)

  /** The ways a request can fail. `NotFound` is answered with status 404,
      `InvalidPayload` with 400; a storage failure (missing file, unreadable
      or malformed JSON) reaches the error middleware as a thrown error. */
  datatype Error = NotFound | InvalidPayload | StorageUnavailable

  /** What a route handler answers: a value, or the error it passes on to `next`. */
  datatype Result<+T> = Ok(value: T) | Err(error: Error)

  function Min(a: int, b: int): int { if a <= b then a else b }

  function Max(a: int, b: int): int { if a >= b then a else b }
}
