/** An optional value: a match, a search result or a parsed argument that may be absent. */
module Options {

  datatype Option<+T> = None | Some(value: T)
}
