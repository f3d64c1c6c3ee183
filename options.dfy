/** An optional value; `None` stands for a C null pointer or a missing result. */
module Options {

  datatype Option<T> = None | Some(value: T)
}
