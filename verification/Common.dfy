/** Small types shared by the models. */
module Common {

  datatype Option<+T> = None | Some(value: T)

  /** What FMR_seek answers its caller: an error, or a frequency. */
  datatype Reply = Failed | Got(freq: int)

  /** The numbers of 16-bit, 31-bit and 32-bit values. */
  const TWO16 := 0x1_0000
  const TWO31 := 0x8000_0000
  const TWO32 := 0x1_0000_0000

  /** The values of a C int. */
  predicate IsInt(x: int) { -TWO31 <= x < TWO31 }
}
