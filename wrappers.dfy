/** Failure-carrying values shared by every module of the model. */
module Wrappers {

  /** A value that may be absent (a null pointer, a failed lookup). */
  datatype Option<+T> = None | Some(value: T)

  /** The outcome of an operation whose source throws or asserts on some inputs. */
  datatype Result<+R, +E> = Ok(value: R) | Err(error: E)

  /** Chooses some element of a non-empty set (the iteration order of a hash container is unspecified). */
  method Pick<T>(s: set<T>) returns (x: T)
    requires s != {}
    ensures x in s
  {
    x :| x in s;
  }
}
