// Small shared vocabulary: an optional value, and Go's fixed-width integer conversions.
module Common {
  datatype Option<+T> = None | Some(value: T)

  function Min(a: int, b: int): int {
    if a < b then a else b
  }

  function Abs(a: int): nat {
    if a < 0 then -a else a
  }

  const MIN_INT32: int := -0x8000_0000
  const MAX_INT32: int := 0x7fff_ffff

  predicate IsInt32(n: int) {
    MIN_INT32 <= n <= MAX_INT32
  }

  // Go's conversion int32(n): the low 32 bits read as a signed number.
  function ToInt32(n: int): (r: int)
    ensures IsInt32(r) && (r - n) % 0x1_0000_0000 == 0
    ensures IsInt32(n) ==> r == n
  {
    var low := n % 0x1_0000_0000;
    if low > MAX_INT32 then low - 0x1_0000_0000 else low
  }

  predicate IsInt64(n: int) {
    -0x8000_0000_0000_0000 <= n <= 0x7fff_ffff_ffff_ffff
  }

  // Go's conversion int64(n), also the result of big.Int.Int64 for a number too wide.
  function ToInt64(n: int): (r: int)
    ensures IsInt64(r) && (r - n) % 0x1_0000_0000_0000_0000 == 0
    ensures IsInt64(n) ==> r == n
  {
    var low := n % 0x1_0000_0000_0000_0000;
    if low > 0x7fff_ffff_ffff_ffff then low - 0x1_0000_0000_0000_0000 else low
  }
}
