/** The null-or-value results of the library: a missing voice handle, a
    failed allocation, a decoder that did not open. */
module Options {

  datatype Option<+T> = None | Some(value: T)
}
