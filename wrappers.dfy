/** The optional value used wherever the Java code may hold `null` or may
    lack a JSON member. */
module Wrappers {

  datatype Option<+T> = None | Some(value: T)
}
