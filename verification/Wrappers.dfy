module Wrappers {
  datatype Option<T> = None | Some(value: T)

  /** One element slot of a buffer: raw memory, or a constructed element. */
  datatype Cell<T> = Raw | Live(value: T)
}
