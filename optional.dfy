/** Optional values: a Python attribute that is not set yet, or a division that raised. */
module Optional {

  datatype Option<+T> = None | Some(value: T)
}
