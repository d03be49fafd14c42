/** The Option type used wherever the C# or JavaScript source has a nullable value. */
module Wrappers {

  datatype Option<+T> = None | Some(value: T)

}
