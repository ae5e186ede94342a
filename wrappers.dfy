/** Option, .NET exceptions and "returned or threw" outcomes, shared by every layer of the model. */
module Wrappers {

  /** A value that may be null in the source. */
  datatype Option<+T> = None | Some(value: T)

  /** A .NET exception, reduced to what the code inspects: its kind and its Message. */
  datatype Exception =
    | ArgumentNullException(paramName: string)
    | NullReferenceException
    | Raised(message: string)  // any other exception (driver, database, Dapper), with its Message
  {
    function Message(): string {
      match this
      case ArgumentNullException(p) => "Value cannot be null. (Parameter '" + p + "')"
      case NullReferenceException => "Object reference not set to an instance of an object."
      case Raised(m) => m
    }
  }

  /** How a call that may throw completed: with a value, or with an exception that propagates. */
  datatype Outcome<+T> = Returned(value: T) | Threw(error: Exception)
}
