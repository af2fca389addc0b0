/** The shapes the C# code works with that Dafny has no direct word for:
    a reference that may be null, the exceptions the kernel throws, and the
    result of a call that either returns or throws. */
module Errors {

  /** A C# reference (or Nullable<T>) that may be null. */
  datatype Ref<+T> = Null | NonNull(value: T)

  /** The .NET exceptions the kernel raises, with the one string each is built from.
      ArgumentNullException(string) takes the parameter name; ArgumentException(string)
      takes the message, which may itself be null. */
  datatype Exception =
    | ArgumentNullException(paramName: string)
    | ArgumentException(message: Ref<string>)
    | NullReferenceException

  /** A call that returns a value or throws. */
  datatype Result<+T> = Ok(value: T) | Throws(exception: Exception)

  /** A call to a `void` member: it completes or throws. */
  datatype Outcome = Completed | Threw(exception: Exception)

  /** The text of `Exception.Message` as .NET renders it for the three kinds. */
  function Message(e: Exception): (m: string)
    ensures e.ArgumentException? && e.message.NonNull? ==> m == e.message.value
    ensures e.ArgumentNullException? ==> |m| > |e.paramName|
  {
    match e
    case ArgumentNullException(p) => "Value cannot be null. (Parameter '" + p + "')"
    case ArgumentException(Null) => "Value does not fall within the expected range."
    case ArgumentException(NonNull(msg)) => msg
    case NullReferenceException => "Object reference not set to an instance of an object."
  }
}
