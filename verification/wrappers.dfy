/** Failure-carrying wrappers shared by every module of the model. */
module Wrappers {

  /** `None` stands for JavaScript's `undefined` (or an absent field). */
  datatype Option<+T> = None | Some(value: T)
  {
    function GetOr(default: T): T
    {
      match this
      case Some(v) => v
      case None => default
    }
  }

  /** The outcome of a computation that may throw a JavaScript `TypeError`
      (reading a property of `null`, calling `.map` on a non-array, ...). */
  datatype Result<+T> = Ok(value: T) | TypeError
}
