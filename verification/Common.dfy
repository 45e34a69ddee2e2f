/** Types shared by the other modules. */
module Common {
  datatype Option<+T> = None | Some(value: T)

  // Go int64.
  const MAX_INT64: int := 0x7FFF_FFFF_FFFF_FFFF
  type Int64 = i: int | -0x8000_0000_0000_0000 <= i <= 0x7FFF_FFFF_FFFF_FFFF
}
