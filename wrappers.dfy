/** Option and HTTP-style reply datatypes shared by every module of the model. */
module Wrappers {

  datatype Option<+T> = None | Some(value: T) {
    function GetOr(default: T): T {
      match this
      case Some(v) => v
      case None => default
    }
  }

  /** The outcome of an HTTP handler: a JSON body, or an error status. */
  datatype Reply<+T> = Ok(body: T) | Err(status: int)

  const BadRequest := 400
  const Unauthorized := 401
  const Forbidden := 403
  const NotFound := 404
  const MethodNotAllowed := 405
  const ServerError := 500
}
