/** Optional values, used for JavaScript's `null`/`undefined` where the source has them. */
module Options {
  datatype Option<T> = None | Some(value: T)
}
