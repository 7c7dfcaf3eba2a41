module Common {
  datatype Option<T> = None | Some(value: T)

  // The number of 64-bit words.
  const WORD: nat := 0x1_0000_0000_0000_0000
}
