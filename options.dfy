/** Optional values, for "nothing happened" results of the client. */
module Options {
  datatype Option<+T> = None | Some(value: T)
}
