/** Small shared vocabulary: optional values and error results. */
module Prelude {
  datatype Option<+T> = None | Some(value: T)

  /** The `code` that a handler puts on the errors it throws. */
  datatype Code =
    | BadRequest | Unauthorized | Forbidden | NotFound | Conflict | Unprocessable | Underpaid | TooLarge | LegalTakedown

  datatype Result<+T> = Ok(value: T) | Err(code: Code)

  function Max(a: int, b: int): int {
    if a >= b then a else b
  }

  function Min(a: int, b: int): int {
    if a <= b then a else b
  }
}
