/** An optional value: the model's stand-in for TypeScript's `T | undefined`
    and `T | null`. */
module Wrappers {

  datatype Option<+T> = None | Some(value: T)
}
