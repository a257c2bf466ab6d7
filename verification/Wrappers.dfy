/** What the modules share that has no home of its own. */
module Wrappers {

  datatype Option<+T> = None | Some(value: T)
}
