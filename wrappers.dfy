/** The optional value used wherever the log scanner reports "no match". */
module Wrappers {

  datatype Option<+T> = None | Some(value: T)
}
