/** The exceptions the modelled Python code can raise, the result types that carry them back
    instead of unwinding, and the qubit ids every part of the simulator passes around. */
module Outcomes {

  /** A qubit id, as the user names it. */
  type QubitId = string

  /** Python exceptions raised by the modelled code. */
  datatype Error =
    | KeyError            // a dict lookup of an absent key
    | ValueError          // list.index of an absent item, an unknown command tag, a NaN probability
    | NameError           // a reference to a name that is defined nowhere
    | IndexError          // a list subscript out of range
    | ZeroDivisionError   // an integer modulo by zero

  datatype Result<T> = Ok(value: T) | Err(error: Error)

  /** The result of an operation that returns nothing on success. */
  datatype Status = Done | Fail(error: Error)
}
