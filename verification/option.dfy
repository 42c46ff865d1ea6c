/** An optional value, for lookups and dictionary `get` calls that may find nothing. */
module Optional {

  datatype Option<+T> = None | Some(value: T)
}
