/** An optional value, shared by the compiler model and the pattern cache. */
module Optional {
  datatype Option<T> = None | Some(value: T)
}
