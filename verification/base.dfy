/** Failure-carrying values shared by every module of the reminder bot model.

    `Option` stands for a Kotlin nullable (`T?`), `Either` for Arrow's
    `Either<L, R>`, whose `Left` carries the error and `Right` the value.
 */
module Base {

  datatype Option<+T> = None | Some(value: T) {

    /** `x ?: default`, or `x.orEmpty()` when `default` is empty. */
    function GetOr(default: T): T
    {
      match this
      case Some(v) => v
      case None => default
    }
  }

  datatype Either<+L, +R> = Left(left: L) | Right(right: R)
}
