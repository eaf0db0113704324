/** The Option value used where the source returns nil; an error the source
    returns is an Option<string> holding its message. */
module Wrappers {

  datatype Option<+T> = None | Some(value: T)
}
