/** An optional value: the null-or-value of a Java reference.  `Pairs`
    uses it for the `AtomicReference<Integer>` cell and the decimal and
    pair parsers use it for text that does not read back. */
module Options {
  datatype Option<T> = None | Some(value: T)
}
