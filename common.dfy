/** Values that JavaScript leaves `undefined` until they are set. */
module Common {
  datatype Option<T> = None | Some(value: T)
}
