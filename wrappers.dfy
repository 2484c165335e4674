/** The nullable references of the Java code: `None` stands for `null`. */
module Wrappers {

  datatype Option<+T> = None | Some(value: T)
}
