/** An optional value: JavaScript's `undefined` (None) or a present value (Some). */
module Optional {

  datatype Option<+T> = None | Some(value: T)
}
