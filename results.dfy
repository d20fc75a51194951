/** Optional values, and the exceptions of the result set as values. */
module Results {

  datatype Option<+T> = None | Some(value: T)

  /** The exceptions the modelled code raises or lets escape. */
  datatype Fault =
    | NullPointer            // a dereference of null: topDocs never fetched, a document never loaded
    | ArrayIndexOutOfBounds  // a read before the start or past the end of the current page of hits
    | LuceneIndexError       // "error while highlighting", wrapping the highlighter's failure
    | ClassCast(key: string) // a metadata value of another type than the code casts it to
    | UnsupportedOperation   // every mutating or random-access Set method

  /** Either the value an operation returns or the exception it throws. */
  datatype Result<+T> = Success(value: T) | Failure(fault: Fault) {
    predicate IsFailure() { Failure? }

    function PropagateFailure<U>(): Result<U>
      requires Failure?
    {
      Failure(fault)
    }

    function Extract(): T
      requires Success?
    {
      value
    }
  }
}
