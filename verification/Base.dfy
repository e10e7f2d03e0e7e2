/** Shared vocabulary of the model. */
module Base {
  datatype Option<+T> = None | Some(value: T)

  const TWO_63 := 0x8000_0000_0000_0000
  const TWO_64 := 0x1_0000_0000_0000_0000

  type Int64 = x: int | -TWO_63 <= x < TWO_63
  type Uint64 = x: int | 0 <= x < TWO_64
  type Uint32 = x: int | 0 <= x < 0x1_0000_0000
}
