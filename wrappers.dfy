/** The optional value used wherever the reader returns "nothing" (a NULL handler,
    a tag name absent from a keyword table). */
module Wrappers {
  datatype Option<+T> = None | Some(value: T)
}
