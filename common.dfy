/** Values shared by the boundary, ball and game modules. */
module Common {

  /** The result of a step that either completes or raises a Python exception (given by its message). */
  datatype Outcome = Pass | Fail(error: string)

  /** A constructed value, or the message of the exception raised while constructing it. */
  datatype Result<T> = Ok(value: T) | Err(error: string)

  /** An RGB colour triple, as pygame takes it. */
  datatype Rgb = Rgb(red: int, green: int, blue: int)

  function Min(a: int, b: int): (m: int)
    ensures m <= a && m <= b && (m == a || m == b)
  {
    if a <= b then a else b
  }
}
