/** The exceptions the ray tracer can raise, and a result type that carries them. */
module Errors {

  /** The Python exceptions that the modelled code can raise. */
  datatype PyError =
    | TypeError          // wrong arity, or item assignment into a tuple
    | ZeroDivisionError  // a float or int divided by zero
    | ValueError         // math.sqrt of a negative number, int() of NaN
    | IndexError         // the last element of an empty list

  /** Either a value or the exception raised while computing it. */
  datatype Result<+T> = Ok(value: T) | Err(error: PyError)

  datatype Option<+T> = None | Some(value: T)
}
