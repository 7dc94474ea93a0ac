/** A value that may be absent: the component's `Date | null` state. */
module Options {

  datatype Option<+T> = None | Some(value: T)
}
