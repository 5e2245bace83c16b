/** The Python exceptions the evaluation script can raise in the modelled
    code, and the Result/Option wrappers that carry them. */
module Outcome {

  /** Each constructor is the exception Python raises at one of the modelled
      failure points of eval.py. */
  datatype Error =
    | ZeroDivisionError   // `len(xs) // num_gpus` with `num_gpus == 0`
    | ValueError          // `range(0, n, 0)`: a chunk size of zero
    | IndexError          // a numpy index outside the 7-slot tally vector
    | UnboundLocalError   // returning the tally vector of a shard with no rows

  datatype Result<+T> = Success(value: T) | Failure(error: Error)

  datatype Option<+T> = None | Some(value: T)
}
