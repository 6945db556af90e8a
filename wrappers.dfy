/** Option values, standing for Java's `null`-or-object results. */
module Wrappers {

  datatype Option<+T> = None | Some(value: T)

}
