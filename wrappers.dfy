/** The nullable values of the Kotlin sources (`String?`, `Long?`) as an Option. */
module Wrappers {

  datatype Option<+T> = None | Some(value: T)
}
