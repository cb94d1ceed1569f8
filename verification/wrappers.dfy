/** An optional value: models the TypeScript `T | undefined` (and `| null`) fields and parameters. */
module Wrappers {
  datatype Option<T> = None | Some(value: T)
}
