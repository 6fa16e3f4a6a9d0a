/** Option and Result, with the members that let `:-` propagate a failure. */
module Wrappers {
  datatype Option<+T> = None | Some(value: T)

  datatype Result<+T, +E> = Ok(value: T) | Err(error: E) {
    predicate IsFailure() {
      Err?
    }

    function PropagateFailure<U>(): Result<U, E>
      requires Err?
    {
      Err(error)
    }

    function Extract(): T
      requires Ok?
    {
      value
    }
  }
}

/** The Python exceptions the trace parser can raise, one constructor per exception class. */
module Faults {
  /** Why a ValueError was raised. */
  datatype ValueReason =
    | NotANumber        // float() or int() rejected its argument
    | AddressLength     // convert_string_to_int: length outside 1..4
    | AddressNotDigits  // convert_string_to_int: a character that is not a digit

  datatype Fault =
    | IndexError            // list or string index out of range
    | ValueError(reason: ValueReason)
    | UnboundLocalError     // `unique_id` read before any record assigned it
    | ZeroDivisionError
    | KeyError(key: int)    // NODE_INFO[i] for an id that is not a key
}
