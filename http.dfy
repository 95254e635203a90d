/** Outcomes shared by every service of the blog-management API: the
    exceptions Nest turns into HTTP answers, a result type carrying them,
    and the outcome of a store operation, which the model takes as a
    parameter because it is decided by the database, not by the code. */
module Http {

  /** The exceptions the services throw, by the HTTP status Nest answers with. */
  datatype Exception =
    | BadRequest(message: string)           // 400
    | Unauthorized(message: string)         // 401
    | NotFound(message: string)             // 404
    | Conflict(message: string)             // 409
    | InternalServerError(message: string)  // 500
    | Unhandled(message: string)            // an error that is no HttpException; Nest answers 500

  datatype Result<+T> = Ok(value: T) | Err(error: Exception)

  datatype Option<+T> = None | Some(value: T)

  /** An error raised by the database driver; `code` is the server's error code when it has one. */
  datatype StoreError = StoreError(code: Option<int>, message: string)

  /** What one store operation does: it succeeds, or it throws `error`. */
  datatype StoreOutcome = Succeeds | Fails(error: StoreError)
}
