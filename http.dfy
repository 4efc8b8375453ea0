/**
 * The error responses of the route handlers: `{ error: message }` with a status
 * code, or express-validator's `{ errors: [...] }` with status 400.
 */
module Http {

  datatype Failure =
    | Error(status: nat, message: string)
      /** `errors.array()`: the paths of the fields whose checks failed, in check order. */
    | Invalid(paths: seq<string>)
  {
    function Status(): nat
    {
      match this
      case Error(status, _) => status
      case Invalid(_) => 400
    }
  }

  datatype Result<+T> = Ok(value: T) | Err(failure: Failure)
}
