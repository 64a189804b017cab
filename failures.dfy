/** Outcomes of operations that raise in the original program. */
module Failures {

  /** The kinds of exception the core raises. */
  datatype Error =
    | StructureError   // a network built from layers whose shapes do not chain, or too few layers
    | DimensionError   // an input vector of the wrong length given to the network
    | IndexError       // an index into an empty matrix or an empty list
    | ExhaustedError   // `next` on an exhausted iterator
    | ValueError       // numpy refusing its argument: ragged rows, or nothing to stack
    | SampleError      // sampling two parents out of fewer than two

  datatype Result<T> = Ok(value: T) | Err(error: Error)

  datatype Outcome = Pass | Fail(error: Error)

  datatype Option<T> = None | Some(value: T)
}
