/**
  Values shared by both stores and the view controller: identifiers and the
  optional value returned by a data-source lookup.
 */
module Foundation {

  /** A `UUID`. Only equality is ever used; `UUID()` is supplied by the caller. */
  type Uuid = nat

  datatype Option<+T> = None | Some(value: T)
}
