/** The optional value used where the source has `None`, a failed parse or an empty dict. */
module Wrappers {

  datatype Option<+T> = None | Some(value: T)

}
