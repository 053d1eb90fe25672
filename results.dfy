/** Optional values, results and the error conditions of a game question. */
module Results {

  datatype Option<T> = None | Some(value: T)

  /** The ways an operation on a game question can be refused. */
  datatype Error =
    | InvalidKey        // a letter outside a, b, c, d
    | HintAlreadyUsed   // the same hint asked for a second time
    | NoCorrectAnswer   // the slot mapping puts no key on the correct position

  datatype Result<T> = Success(value: T) | Failure(error: Error)

  datatype Outcome = Pass | Fail(error: Error)
}
