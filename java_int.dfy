/**
 * Java values the model needs: a reference that may be `null`, and the
 * 32-bit `int` with its range, wrapping arithmetic and `Math.abs` (which
 * leaves `Integer.MIN_VALUE` negative).
 */
module JavaInt {

  /** A Java reference that may be `null`. */
  datatype Option<T> = None | Some(value: T)

  const MinInt: int := -0x8000_0000
  const MaxInt: int := 0x7fff_ffff

  type Int32 = x: int | -0x8000_0000 <= x <= 0x7fff_ffff

  /** Java `a - b`: the exact difference, wrapped into the 32-bit range. */
  function Sub32(a: Int32, b: Int32): (r: Int32)
    ensures (r - (a - b)) % 0x1_0000_0000 == 0
    ensures MinInt <= a - b <= MaxInt ==> r == a - b
  {
    var d := a - b;
    if d > MaxInt then d - 0x1_0000_0000 else if d < MinInt then d + 0x1_0000_0000 else d
  }

  /** Java `a + b`: the exact sum, wrapped into the 32-bit range. */
  function Add32(a: Int32, b: Int32): (r: Int32)
    ensures (r - (a + b)) % 0x1_0000_0000 == 0
    ensures MinInt <= a + b <= MaxInt ==> r == a + b
  {
    var d := a + b;
    if d > MaxInt then d - 0x1_0000_0000 else if d < MinInt then d + 0x1_0000_0000 else d
  }

  /** `Math.abs` on an `int`. */
  function Abs32(x: Int32): (r: Int32)
    ensures x != MinInt ==> r >= 0 && (r == x || r == -x)
    ensures x == MinInt ==> r < 0
  {
    if x == MinInt then x else if x < 0 then -x else x
  }
}
