/** The nullable values of the reducer (`T | null`) as an Option. */
module Wrappers {

  datatype Option<+T> = None | Some(value: T)
}
