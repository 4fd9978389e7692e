/** Vocabulary shared by every component of the model. */
module Basics {

  /** Database identifiers are compared for equality and never ordered, so any infinite type would do. */
  type Id = int
  type UserId = int

  /** A point in time, in milliseconds. */
  type Time = int

  datatype Option<+T> = None | Some(value: T)

  datatype Result<+T, +E> = Ok(value: T) | Err(error: E)

  /** Any one element of a set: a query without an order. */
  method Pick<T>(s: set<T>) returns (x: T)
    requires s != {}
    ensures x in s
  {
    x :| x in s;
  }
}
