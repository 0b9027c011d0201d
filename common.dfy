/** Small shared vocabulary: optional values (JSON fields that may be absent or
    null, SQL columns that may be NULL) and the minimum of two integers. */
module Common {

  datatype Option<+T> = None | Some(value: T)

  function Min(a: int, b: int): int
  {
    if a <= b then a else b
  }
}
