/** Result types and integer ranges shared by every module. */
module Common {

  datatype Option<+T> = None | Some(value: T)

  datatype Result<+T, +E> = Ok(value: T) | Err(error: E)

  const I128_MIN: int := -0x8000_0000_0000_0000_0000_0000_0000_0000
  const I128_MAX: int := 0x7FFF_FFFF_FFFF_FFFF_FFFF_FFFF_FFFF_FFFF
  const U64_MAX: int := 0xFFFF_FFFF_FFFF_FFFF

  type i128 = x: int | I128_MIN <= x <= I128_MAX
  type u64 = x: int | 0 <= x <= U64_MAX

  /** Rust's `checked_add` on i128: None on overflow. */
  function CheckedAdd(x: i128, y: i128): (r: Option<i128>)
    ensures r.Some? <==> I128_MIN <= x + y <= I128_MAX
    ensures r.Some? ==> r.value == x + y
  {
    if I128_MIN <= x + y <= I128_MAX then Some(x + y) else None
  }
}
