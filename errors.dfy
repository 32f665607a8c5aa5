/**
 * The errors the services and guards throw. `AppError` carries a message and
 * an HTTP status; `ValidationError` is what Mongoose throws when a document
 * fails its schema, one message per failing path.
 */
module Errors {

  datatype Failure =
    | AppError(message: string, statusCode: int)
    | ValidationError(messages: seq<string>)

  function BadRequest(message: string): Failure {
    AppError(message, 400)
  }

  function Unauthorized(message: string): Failure {
    AppError(message, 401)
  }

  function Forbidden(message: string): Failure {
    AppError(message, 403)
  }

  function NotFound(message: string): Failure {
    AppError(message, 404)
  }

  function Conflict(message: string): Failure {
    AppError(message, 409)
  }
}
