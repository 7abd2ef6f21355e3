/** The JSON replies that the Express handlers and middleware send. */
module Http {

  /** A handler's reply. For a middleware, `Ok(u)` means that it calls `next()` with
      `req.user` set to `u`, and every other variant is the response it sends instead. */
  datatype Reply<+T> =
    | Ok(value: T)
    | Created(value: T)
    | BadRequest(error: string)
    | Unauthorized(error: string)
    | Forbidden(error: string)
    | NotFound(error: string)
  {
    /** The HTTP status code of the reply. */
    function Status(): (code: nat)
      ensures 200 <= code < 300 <==> Ok? || Created?
    {
      match this
      case Ok(_) => 200
      case Created(_) => 201
      case BadRequest(_) => 400
      case Unauthorized(_) => 401
      case Forbidden(_) => 403
      case NotFound(_) => 404
    }
  }
}
