/** The optional value used wherever the Java code returns null or throws on a lookup. */
module Wrappers {

  datatype Option<+T> = None | Some(value: T)
}
