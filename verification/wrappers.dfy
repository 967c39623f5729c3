/** The Some/None datatype used wherever PHP has "maybe absent" (an unset key, a null content type). */
module Wrappers {

  datatype Option<+T> = None | Some(value: T)
}
