/** The `T | null` values of the site's TypeScript records. */
module Wrappers {

  datatype Option<+T> = None | Some(value: T)
}
