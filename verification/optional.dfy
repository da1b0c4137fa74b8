/** A value that may be absent: JavaScript's `undefined`/`null` as seen through `?.` and `||`. */
module Optional {

  datatype Option<+T> = None | Some(value: T)

}
