/** An optional value, shared by the template engine and the poller. */
module Options {

  datatype Option<T> = None | Some(value: T)
}
