/** Option and Result wrappers, and the Python exceptions that the tools raise. */
module Results {

  datatype Option<+T> = None | Some(value: T)

  datatype Result<+T> = Ok(value: T) | Err(error: Error)

  /** Why a `ValueError` was raised; the message text itself is not modelled. */
  datatype Reason =
    | UnsupportedUnitConversion(from: string, to: string)
    | NotFourDimensional(ndim: nat)
    | NegativeIndex
    | StokesOutOfBounds(stokes: int)
    | ChannelOutOfBounds(chan: int)
    | MissingBeam
    | InvalidCell(cell: int)

  /** The exception classes that escape from the modelled code. */
  datatype Error =
    | ValueError(reason: Reason)
    | KeyError(from: string, to: string)  // a raw dictionary miss on a unit pair
    | IndexError                          // indexing an empty string
    | ZeroDivisionError                   // a float divided by zero
}
