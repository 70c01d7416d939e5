/** Failure-carrying values shared by every router: an optional value, and the
    outcome of a request handler that may fail with an HTTP error. */
module Common {

  datatype Option<+T> = None | Some(value: T) {
    /** The wrapped value, or `default` when there is none. */
    function GetOr(default: T): T {
      match this
      case Some(v) => v
      case None => default
    }
  }

  /** The HTTP errors the routers raise. Only 404 is raised by the modelled handlers. */
  datatype Error = NotFound(detail: string)

  datatype Result<+R, +E> = Success(value: R) | Failure(error: E)

  function Min(a: int, b: int): int {
    if a <= b then a else b
  }
}
