/** The optional value of both ports: Rust's `Option`, Swift's `?`. */
module Options {
  datatype Option<+T> = None | Some(value: T)
}
