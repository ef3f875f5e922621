/** Option and Result, the two failure-carrying shapes the model needs:
    `Option` for JavaScript's `undefined`/`null` and `Result` for a thrown `Error`. */
module Results {

  datatype Option<+T> = None | Some(value: T)

  datatype Result<+R, +E> = Success(value: R) | Failure(error: E)
}
