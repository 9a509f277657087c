/** Failure-carrying return values: the model's stand-in for the exceptions the
    C# class throws (FormatException, OverflowException, ArgumentOutOfRangeException). */
module Results {

  datatype Option<+T> = None | Some(value: T)

  datatype Result<+T, +E> = Success(value: T) | Failure(error: E)
}
