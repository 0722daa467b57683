/** Types that several models share. */
module Basics {

  datatype Option<+T> = None | Some(value: T)

  type byte = bv8
}
