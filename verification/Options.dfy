/** Optional values, for Python's `None`, SQL's NULL and absent keys. */
module Options {
  datatype Option<+T> = None | Some(value: T)
}
