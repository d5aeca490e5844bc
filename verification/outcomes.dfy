/** How a binding operation ends: it returns a value or throws one of the four
    kinds of exception the binding raises. */
module Outcomes {
  import opened Errors

  /** The exceptions a binding operation can throw. */
  datatype Failure =
    | IllegalState(message: string)      // operation on a freed or closed handle
    | IllegalArgument(message: string)   // argument validation before any native call
    | NullPointer                        // dereferencing a null enum field of a configuration
    | Native(exception: TidesDBException) // raised by the native layer

  datatype Outcome<+T> = Returned(value: T) | Threw(failure: Failure)
  {
    function Map<U>(f: T -> U): (r: Outcome<U>)
      ensures r.Returned? <==> Returned?
      ensures Returned? ==> r.value == f(value)
      ensures Threw? ==> r.failure == failure
    {
      match this
      case Returned(v) => Returned(f(v))
      case Threw(x) => Threw(x)
    }
  }

  /** What a native method does once called: return a value or raise a `TidesDBException`. */
  datatype NativeReply<+T> = Ok(value: T) | Raised(exception: TidesDBException)
  {
    /** The Java caller sees the native's value, or its exception propagated unchanged. */
    function Propagate(): (r: Outcome<T>)
      ensures Ok? <==> r.Returned?
      ensures Ok? ==> r.value == value
      ensures Raised? ==> r.failure == Native(exception)
    {
      match this
      case Ok(v) => Returned(v)
      case Raised(e) => Threw(Native(e))
    }
  }
}
