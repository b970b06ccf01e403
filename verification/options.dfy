/** Optional values: used wherever the source gets back either a row or null. */
module Options {

  datatype Option<+T> = None | Some(value: T)
}
