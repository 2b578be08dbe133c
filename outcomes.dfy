/** Exceptions of the library and the app, as values. */
module Outcomes {

  /** The exceptions the modelled code throws or lets through. A `Throwable`
      raised by code outside the model is an opaque token. */
  datatype Error =
    | ConcurrentModification   // java.util.ConcurrentModificationException
    | NoSuchElement            // java.util.NoSuchElementException (Iterable.first, getOrThrow)
    | IllegalArgument          // the failed `require` of Reducers.compose
    | Thrown(token: nat)       // any other Throwable, raised by a callback or a reducer

  /** A call that either returns a value or throws. */
  datatype Result<+T> = Success(value: T) | Failure(error: Error)

  /** Kotlin's `T?`. */
  datatype Nullable<+T> = Null | NonNull(value: T)
}
