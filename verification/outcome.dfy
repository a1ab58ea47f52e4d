/** Failure-carrying result types shared by every module of the model.
    `Option.None` stands for the places where the program gives up on a value
    (an `unwrap` on nothing, an index past the end), and `Result.Err` for the
    places where it returns an error value to its caller. */
module Outcome {

  datatype Option<+T> = None | Some(value: T)

  datatype Result<+T, +E> = Ok(value: T) | Err(error: E)
}
