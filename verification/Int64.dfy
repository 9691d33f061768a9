/** The parts of `i64` arithmetic that the models need. */
module Int64 {
  const MAX: int := 0x7fff_ffff_ffff_ffff

  function SaturatingAdd(a: int, b: int): int {
    if a + b > MAX then MAX else if a + b < -MAX - 1 then -MAX - 1 else a + b
  }

  function Min(a: int, b: int): int {
    if a <= b then a else b
  }

  function Max(a: int, b: int): int {
    if a <= b then b else a
  }
}
