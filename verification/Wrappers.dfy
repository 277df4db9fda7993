/** Types shared by several modules. */
module Wrappers {

  datatype Option<+V> = None | Some(value: V)
}
