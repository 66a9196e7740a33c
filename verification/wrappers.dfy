/** The optional value used where the command reports something only on some paths. */
module Wrappers {

  datatype Option<+T> = None | Some(value: T)
}
