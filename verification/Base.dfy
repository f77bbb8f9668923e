/** Machine types and result types shared by the whole model. */
module Base {

  type byte = x: int | 0 <= x < 256
  type u32 = x: int | 0 <= x < 0x1_0000_0000
  type u64 = x: int | 0 <= x < 0x1_0000_0000_0000_0000
  type i64 = x: int | -0x8000_0000_0000_0000 <= x < 0x8000_0000_0000_0000

  const TWO32: int := 0x1_0000_0000
  const TWO64: int := 0x1_0000_0000_0000_0000

  /** A C++ `char`: eight bits, compared unsigned. */
  type Char8 = c: char | c as int < 256 witness 'a'

  type Chars = seq<Char8>

  datatype Option<+T> = None | Some(value: T)

  datatype Result<+T, +E> = Ok(value: T) | Err(error: E) {
    predicate IsFailure() {
      Err?
    }

    function PropagateFailure<U>(): Result<U, E>
      requires Err?
    {
      Err(error)
    }

    function Extract(): T
      requires Ok?
    {
      value
    }
  }

  /** The outcome of a check that has nothing to return. */
  datatype Status<+E> = Passed | Failed(error: E) {
    predicate IsFailure() {
      Failed?
    }

    function PropagateFailure<U>(): Result<U, E>
      requires Failed?
    {
      Err(error)
    }
  }
}
