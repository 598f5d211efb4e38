// Option and Result: Java's null and thrown exceptions, made explicit.
module Wrappers {

  datatype Option<T> = None | Some(value: T)
  {
    predicate IsSome() { Some? }

    function GetOr(default: T): T
    {
      match this
      case None => default
      case Some(v) => v
    }
  }

  /** The outcome of an operation that either returns a value or throws
    * an exception carrying a message. */
  datatype Result<T> = Ok(value: T) | Err(error: string)
  {
    predicate IsFailure() { Err? }
  }

  /** Java's string conversion of a possibly-null string ("null" for null). */
  function NullToText(s: Option<string>): string
  {
    match s
    case None => "null"
    case Some(v) => v
  }
}
