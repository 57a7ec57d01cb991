/** The optional value used wherever the SDK or the standard library hands back
    something that may be missing (Rust's `Option`). */
module Optional {

  datatype Option<+T> = None | Some(value: T)
}
