/** Values that may be missing. */
module Options {
  datatype Option<T> = None | Some(value: T)
}

/** What the Pop of a pending-queue policy may answer. */
module PolicyErrors {
  datatype Error = NoError | UnexpectedState | UnexpectedUnordered | UnexpectedOrdered | UnexpectedChunk
}
