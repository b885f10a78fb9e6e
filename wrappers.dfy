/** Optional values and results, used for SQL's "zero or one row" answers and for rejected inserts. */
module Wrappers {

  /** A query that may find no row: `None` stands for Rust's `Ok(None)`. */
  datatype Option<+T> = None | Some(value: T)

  /** The outcome of a statement the database may reject. */
  datatype Result<+T, +E> = Ok(value: T) | Err(error: E)
}
