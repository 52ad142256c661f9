/** Small value types shared by the modules of this model. */
module Common {

  /** A Java reference that may be null, or a C pointer that may be NULL. */
  datatype Option<+T> = None | Some(value: T)

  /** An unsigned octet, as stored in a C `char` buffer or a Java `byte[]`. */
  newtype byte = x: int | 0 <= x < 256

  function Min(a: int, b: int): (m: int)
    ensures m <= a && m <= b
    ensures m == a || m == b
  {
    if a <= b then a else b
  }
}
