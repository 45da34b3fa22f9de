/**
 * What a request handler or middleware can do with a request: answer it with
 * JSON or text, hand an error to the error-handling middleware with `next(error)`,
 * pass the (possibly sanitized) request on with `next()`, or send nothing at all.
 */
module Http {

  const OK := 200
  const Created := 201
  const BadRequest := 400
  const Unauthorized := 401
  const Forbidden := 403
  const NotFound := 404
  const Unprocessable := 422
  const ServerError := 500

  /**
   * One entry of express-validator's `errors.array()`: the field, its message,
   * its sanitized value and where the field was read from.
   */
  datatype FieldError = FieldError(param: string, msg: string, value: string, location: string)

  /** The error object handed to `next`; `Caught` is one built from a runtime exception's text. */
  datatype HttpError = HttpError(message: string, code: int) | Caught(code: int)

  datatype Payload =
    | Status(success: bool, message: string)                  // { success, message }
    | Errors(errors: seq<FieldError>)                         // { errors: [...] }
    | Session(email: string, username: string, token: string) // { success: true, email, username, token }

  datatype Response =
    | Json(status: int, body: Payload)
    | Text(status: int, text: string)
    | Forward(error: HttpError)
    | Silent

  /** A middleware either passes the request on (with its body) or ends it with a response. */
  datatype Gate<T> = Pass(value: T) | Halt(response: Response)
}
