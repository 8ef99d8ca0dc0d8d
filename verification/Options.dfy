/** Results of calls that may fail: the C code's 0 / -1 returns. */
module Options {
  datatype Option<+T> = None | Some(value: T)
}
