/** What several models share. */
module Common {
  datatype Option<T> = None | Some(value: T)

  /** Adding an even number does not change the lowest bit. */
  lemma LowBit(a: int, b: int)
    ensures (2 * a + b) % 2 == b % 2
  {
  }
}
