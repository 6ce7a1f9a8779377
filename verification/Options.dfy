/** Results that may be absent, and node numbers that name no node. */
module Options {
  datatype Option<+T> = None | Some(value: T)

  /** The number that stands for "no node". */
  const NIL: nat := 0xFFFF_FFFF
}
