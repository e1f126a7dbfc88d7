/** The optional value used wherever the app has a Swift optional. */
module Wrappers {

  datatype Option<+T> = None | Some(value: T)

}
