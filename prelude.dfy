/** Small value types shared by the PPO model: an optional value (a dictionary
    key that may not be present yet) and the result of an operation that can
    raise one of the Python exceptions the modelled code can run into. */
module Prelude {

  datatype Option<T> = None | Some(value: T)

  /** The exceptions the modelled code raises on its own inputs. */
  datatype Error =
    | ZeroDivisionError  // a division whose divisor is zero
    | KeyError           // a record read for a key it does not hold
    | IndexError         // a list read past its end

  datatype Result<T> = Ok(value: T) | Err(error: Error)
}
