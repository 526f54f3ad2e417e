/** The optional value used for Rust's `Option`. */
module Options {

  datatype Option<+T> = None | Some(value: T)
}
