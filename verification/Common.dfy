/** Shared by the other modules. */
module Common {
  datatype Option<+T> = None | Some(value: T)

  /** One past the largest value of a 64-bit atomic. */
  const TWO_64: nat := 0x1_0000_0000_0000_0000
}
