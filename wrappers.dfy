/** Optional values: a SQL NULL, a query that fetches no row. */
module Wrappers {

  datatype Option<+T> = None | Some(value: T)
}
