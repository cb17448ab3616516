/** A nullable value: PHP's `null` and JavaScript's `null`, as a datatype. */
module Options {
  datatype Option<+T> = None | Some(value: T)
}
