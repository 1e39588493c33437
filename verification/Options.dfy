/** A value that may be absent: the null pointers and empty std::functions of the source. */
module Options {
  datatype Option<+T> = None | Some(value: T)
}
