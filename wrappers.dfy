/** Option and Result, the failure-compatible wrappers used for Java's
    nullable references and checked exceptions. */
module Wrappers {

  datatype Option<+T> = None | Some(value: T) {
    function GetOr(default: T): T {
      match this
      case Some(v) => v
      case None => default
    }
  }

  datatype Result<+T, +E> = Ok(value: T) | Err(error: E) {
    predicate IsFailure() {
      Err?
    }

    function PropagateFailure<U>(): Result<U, E>
      requires Err?
    {
      Err(error)
    }

    function Extract(): T
      requires Ok?
    {
      value
    }
  }
}

/** The exceptions the client raises or lets through, as values. */
module Errors {
  import opened Wrappers

  datatype Error =
    /** A JSONException: a missing key or a value of the wrong kind. */
    | JsonError(key: string)
    /** A ParseException from the date parser, carrying the rewritten text. */
    | DateParseError(text: string)
    /** RequestCodeFailure: an HTTP status outside 200..299 with the reason phrase (null allowed). */
    | RequestCodeFailure(message: Option<string>)
    /** A NullPointerException raised by a library call that was handed null. */
    | NullPointer
}
