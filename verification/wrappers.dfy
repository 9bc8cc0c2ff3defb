/** A value that may be absent: an unread field, a failed read, a cache that
    was never written. */
module Wrappers {

  datatype Option<+T> = None | Some(value: T)
}
