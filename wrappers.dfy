/** The optional value the crawler uses wherever Python returns `None`. */
module Wrappers {

  datatype Option<+T> = None | Some(value: T)
}
