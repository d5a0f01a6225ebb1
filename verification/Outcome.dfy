// Result types shared by the model.
module Outcome {
  datatype Option<+T> = None | Some(value: T)

  // A Go (value, error) pair of which exactly one half is meaningful.
  datatype Result<+T> = Success(value: T) | Failure(error: string)
}
