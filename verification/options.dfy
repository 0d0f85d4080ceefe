/** Optional values: an absent heightmap, a callback that is not set, a pointer position not yet recorded. */
module Options {

  datatype Option<+T> = None | Some(value: T)
}
