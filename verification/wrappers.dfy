/** Option and Result types shared by the whole model. */
module Wrappers {

  /** A value that may be missing (a C# null reference or an empty Nullable<T>). */
  datatype Option<+T> = None | Some(value: T)

  /** The value of an operation that either returns normally or throws. */
  datatype Result<+T, +E> = Success(value: T) | Failure(error: E)

  /** The value of an operation that returns nothing (a Task) or throws. */
  datatype Outcome<+E> = Pass | Fail(error: E)
}

/** The .NET exceptions that the services throw and the pages and controller catch. */
module Exceptions {

  datatype Exception =
    | ArgumentException(message: string)
    | InvalidOperationException(message: string)
      /** Entity Framework: SaveChanges was rejected by the database (a foreign key, a column limit); the store's own error is its inner exception. */
    | DbUpdateException(message: string)
      /** Entity Framework: an update or delete affected no row. */
    | DbUpdateConcurrencyException(message: string)

  /** The message of the DbUpdateException that wraps an error the database raised while saving. */
  const SaveFailedMessage: string := "An error occurred while saving the entity changes. See the inner exception for details."

  /** The message of the DbUpdateConcurrencyException thrown when an update or delete affected no row. */
  const ConcurrencyFailedMessage: string :=
    "The database operation was expected to affect 1 row(s), but actually affected 0 row(s); " +
    "data may have been modified or deleted since entities were loaded. " +
    "See https://go.microsoft.com/fwlink/?LinkId=527962 for information on understanding and handling optimistic concurrency exceptions."
}
