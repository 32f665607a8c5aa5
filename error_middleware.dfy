/**
 * The error handler at the end of the middleware chain: it turns whatever
 * was thrown into an HTTP status and a JSON body `{ success, message }`,
 * with the stack trace only for unexpected errors in development.
 */
module ErrorMiddleware {
  import opened Wrappers
  import opened Text
  import opened Errors

  const DefaultMessage := "Internal Server Error"
  const DuplicateKey := 11000
  const Development := "development"

  /**
   * The properties of a thrown error that the handler reads. `keyValue`
   * holds the keys of a duplicate-key error in order, `errors` the messages
   * of a validation error's paths in order.
   */
  datatype ErrorObject = ErrorObject(
    name: string,
    message: Option<string>,
    statusCode: Option<int>,
    code: Option<int>,
    keyValue: seq<string>,
    errors: seq<string>,
    path: string,
    value: string,
    isOperational: bool,
    stack: string)

  datatype Response = Response(status: int, success: bool, message: string, stack: Option<string>)

  /** `${Field} already exists.` for the first key of the duplicate, or `Field` when there is none. */
  function DuplicateMessage(keys: seq<string>): string {
    (if |keys| > 0 && keys[0] != "" then Capitalize(keys[0]) else "Field") + " already exists."
  }

  /** The handler's answer for an error, case by case: a cast error, a validation error, a duplicate key, anything else. */
  function Translate(err: ErrorObject, nodeEnv: string): (r: Response)
    ensures !r.success
    ensures r.stack.Some? <==> nodeEnv == Development && !err.isOperational
    ensures r.stack.Some? ==> r.stack.value == err.stack
    ensures err.name == "CastError" ==> r.status == 400 && r.message == "Invalid " + err.path + ": " + err.value
    ensures err.name == "ValidationError" ==> r.status == 400 && r.message == Join(err.errors, ", ")
    ensures err.name != "CastError" && err.name != "ValidationError" && err.code == Some(DuplicateKey) ==>
      r.status == 409 && r.message == DuplicateMessage(err.keyValue)
    ensures err.name != "CastError" && err.name != "ValidationError" && err.code != Some(DuplicateKey) ==>
      && r.status == (if err.statusCode.Some? && err.statusCode.value != 0 then err.statusCode.value else 500)
      && r.message == (if err.message.Some? && err.message.value != "" then err.message.value else DefaultMessage)
  {
    var status :=
      if err.name == "CastError" || err.name == "ValidationError" then 400
      else if err.code == Some(DuplicateKey) then 409
      else if err.statusCode.Some? && err.statusCode.value != 0 then err.statusCode.value
      else 500;
    var message :=
      if err.name == "CastError" then "Invalid " + err.path + ": " + err.value
      else if err.name == "ValidationError" then Join(err.errors, ", ")
      else if err.code == Some(DuplicateKey) then DuplicateMessage(err.keyValue)
      else if err.message.Some? && err.message.value != "" then err.message.value
      else DefaultMessage;
    Response(status, false, message,
             if nodeEnv == Development && !err.isOperational then Some(err.stack) else None)
  }

  /**
   * `errorMiddleware`: defaults first, then each special case overrides the
   * status and message in turn, then the stack is added when it should be.
   */
  method HandleError(err: ErrorObject, nodeEnv: string) returns (res: Response)
    ensures res == Translate(err, nodeEnv)
  {
    var statusCode := if err.statusCode.Some? && err.statusCode.value != 0 then err.statusCode.value else 500;
    var message := if err.message.Some? && err.message.value != "" then err.message.value else DefaultMessage;
    if err.code == Some(DuplicateKey) {
      message := DuplicateMessage(err.keyValue);
      statusCode := 409;
    }
    if err.name == "ValidationError" {
      message := Join(err.errors, ", ");
      statusCode := 400;
    }
    if err.name == "CastError" {
      message := "Invalid " + err.path + ": " + err.value;
      statusCode := 400;
    }
    res := Response(statusCode, false, message, None);
    if nodeEnv == Development && !err.isOperational {
      res := res.(stack := Some(err.stack));
    }
  }

  /**
   * How the services' failures reach the handler: an `AppError` is an
   * operational `Error` with its message and status; a schema failure is a
   * Mongoose `ValidationError` with one message per path.
   */
  function FromFailure(f: Failure, stack: string): (e: ErrorObject)
    ensures e.isOperational <==> f.AppError?
    ensures f.AppError? ==> e.message == Some(f.message) && e.statusCode == Some(f.statusCode)
    ensures f.ValidationError? ==> e.name == "ValidationError" && e.errors == f.messages && e.statusCode.None?
    ensures e.code.None? && e.stack == stack
  {
    match f
    case AppError(message, statusCode) =>
      ErrorObject("Error", Some(message), Some(statusCode), None, [], [], "", "", true, stack)
    case ValidationError(messages) =>
      ErrorObject("ValidationError", None, None, None, [], messages, "", "", false, stack)
  }

  /** An `AppError` is answered with its own status and message, and never with a stack. */
  lemma AppErrorPassesThrough(message: string, statusCode: int, stack: string, nodeEnv: string)
    requires message != "" && statusCode != 0
    ensures Translate(FromFailure(AppError(message, statusCode), stack), nodeEnv)
      == Response(statusCode, false, message, None)
  {
  }

  /** A schema failure is a 400 listing every failing path's message. */
  lemma ValidationFailureIs400(messages: seq<string>, stack: string, nodeEnv: string)
    ensures var r := Translate(FromFailure(ValidationError(messages), stack), nodeEnv);
      r.status == 400 && r.message == Join(messages, ", ")
  {
  }
}
