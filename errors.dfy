/** Values and failures shared by the whole backend model. */
module Errors {
  import opened PyText

  /** Python's `None` or a value. */
  datatype Option<+T> = None | Some(value: T)

  /** The exceptions that cross the service boundaries of the backend. */
  datatype Exc =
    | HttpExc(status: nat, detail: string)  // fastapi.HTTPException
    | ValueErr(msg: string)                 // ValueError
    | DbErr(msg: string)                    // an error raised by the database session
    | ExternalErr(msg: string)              // an error raised by an outside client (LLM, embeddings, vector store, OAuth provider)

  /** The outcome of a call that returns a value or raises. */
  datatype Result<+T> = Ok(value: T) | Err(exc: Exc)

  /** A commit that fails for a reason the model does not represent (lost connection, timeout). */
  const DbUnavailable := "database unavailable"
  /** A commit that violates a FOREIGN KEY constraint. */
  const ForeignKeyViolation := "foreign key violation"
  /** A commit that writes a value beyond a 32-bit INTEGER column (PostgreSQL's "numeric value out of range"). */
  const IntegerOutOfRange := "integer out of range"

  /** `str(e)`. For an `HTTPException` this is the status code, a colon and the detail. */
  function ExcText(e: Exc): string
  {
    match e
    case HttpExc(status, detail) => NatToString(status) + ": " + detail
    case ValueErr(msg) => msg
    case DbErr(msg) => msg
    case ExternalErr(msg) => msg
  }
}
