/** What the other modules share: two result types, and blank settings. */
module Options {
  datatype Option<+T> = None | Some(value: T)

  datatype Result<+T, +E> = Ok(value: T) | Err(error: E)

  /** A setting afterwards: as given, or, if it was blank, its default. */
  predicate Filled(after: int, before: int, fallback: int) {
    if before > 0 then after == before else after == fallback
  }
}
