/** An optional value: the source's absent file, nil pointer or missing annotation. */
module Wrappers {
  datatype Option<+T> = None | Some(value: T)
}
