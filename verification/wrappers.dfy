/** The optional value the dictionary returns where the Java code returns a
    possibly-null reference. */
module Wrappers {

  datatype Option<+T> = None | Some(value: T)
}
