/** The one datatype every other module shares: a value that the source may leave null or undefined. */
module Options {
  datatype Option<+T> = None | Some(value: T)
}
