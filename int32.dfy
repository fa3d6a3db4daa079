/** Rust's `i32` and the overflow checks of a debug build: an arithmetic
    operation whose mathematical result does not fit panics instead of
    returning. */
module Int32 {

  const MIN: int := -0x8000_0000
  const MAX: int := 0x7fff_ffff

  predicate InRange(x: int) {
    MIN <= x <= MAX
  }

  /** A signed 32-bit integer. */
  type i32 = x: int | -0x8000_0000 <= x <= 0x7fff_ffff

  const ADD_OVERFLOW: string := "attempt to add with overflow"
  const MUL_OVERFLOW: string := "attempt to multiply with overflow"

  /** What evaluating an expression does: it returns a value, or the thread panics with a message. */
  datatype Outcome<+T> = Returned(value: T) | Panicked(message: string)

  /** `a + b` on two `i32` values. */
  function CheckedAdd(a: i32, b: i32): (r: Outcome<i32>)
    ensures r.Returned? <==> InRange(a + b)
    ensures r.Returned? ==> r.value == a + b
    ensures r.Panicked? ==> r.message == ADD_OVERFLOW
  {
    if InRange(a + b) then Returned(a + b) else Panicked(ADD_OVERFLOW)
  }

  /** `a * b` on two `i32` values. */
  function CheckedMul(a: i32, b: i32): (r: Outcome<i32>)
    ensures r.Returned? <==> InRange(a * b)
    ensures r.Returned? ==> r.value == a * b
    ensures r.Panicked? ==> r.message == MUL_OVERFLOW
  {
    if InRange(a * b) then Returned(a * b) else Panicked(MUL_OVERFLOW)
  }
}
