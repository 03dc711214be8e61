/**
 * Failure values shared by the metric algebra and the canvas.
 *
 * The Python code reports every failure by raising (ValueError, TypeError,
 * AttributeError, an argument check of the paranoid-scientist decorators, or
 * an assert); here each raise becomes an `Err` carrying the kind of failure.
 */
module Results {

  datatype Error =
    | TypeMismatch        // an operand of a kind the operator does not accept
    | ZeroDivision        // a concrete Vector divided by 0
    | UnknownCoordinate   // "Invalid point coordinate system"
    | RotationNotModelled // an "absolute" rotation needs cos/sin, which this model leaves out
    | InvalidIdentifier   // a unit or axis name that is reserved or already taken
    | InvalidUnit         // a Canvas size unit other than inches, cm or mm
    | InvalidSize         // a Canvas size that is not positive

  datatype Option<+T> = None | Some(value: T)

  /** Failure-compatible result, so that `:-` propagates the first failure. */
  datatype Result<+T> = Ok(value: T) | Err(error: Error) {
    predicate IsFailure() { Err? }

    function PropagateFailure<U>(): Result<U>
      requires Err?
    {
      Err(error)
    }

    function Extract(): T
      requires Ok?
    {
      value
    }
  }

  /** The outcome of an operation that changes state and returns nothing. */
  datatype Outcome = Pass | Fail(error: Error)
}
