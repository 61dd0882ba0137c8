// Optional values and results with an error message: the model's form of a
// null pointer return and of a build-time error (compile_error / ErrorHandler).
module Wrappers {
  datatype Option<T> = None | Some(value: T)

  datatype Result<T> = Success(value: T) | Failure(error: string)
}
