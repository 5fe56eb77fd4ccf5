/** Optional values: the model's stand-in for JavaScript's `undefined` and for calls that throw. */
module Options {

  datatype Option<+T> = None | Some(value: T)
}
