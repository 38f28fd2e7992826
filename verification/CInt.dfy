/** The arithmetic of a 32-bit C int where the programs depend on it. */
module CInt {

  const INT_MAX := 0x7FFF_FFFF
  const TWO_32 := 0x1_0000_0000

  predicate IsInt(n: int) {
    -INT_MAX - 1 <= n <= INT_MAX
  }

  /** Equal in their low 32 bits. */
  predicate Congruent(a: int, b: int) {
    (a - b) % TWO_32 == 0
  }

  /** `++` that wraps. */
  function Inc32(n: int): (r: int)
    ensures IsInt(n) ==> IsInt(r)
    ensures Congruent(r, n + 1)
    ensures n < INT_MAX ==> r == n + 1
  {
    if n == INT_MAX then -INT_MAX - 1 else n + 1
  }

  /** A 64-bit value stored in an int. */
  function Trunc32(t: int): (r: int)
    ensures IsInt(r) && Congruent(r, t)
  {
    if t % TWO_32 > INT_MAX then t % TWO_32 - TWO_32 else t % TWO_32
  }

  /** An int is determined by its low 32 bits. */
  lemma OneIntOnly(a: int, b: int)
    requires IsInt(a) && IsInt(b) && Congruent(a, b)
    ensures a == b
  {
  }

  /** `x ^ 0x1` */
  function Xor1(x: int): (r: int)
    ensures r % 2 != x % 2 && r / 2 == x / 2
  {
    if x % 2 == 0 then x + 1 else x - 1
  }

  /** `!!x` */
  function Bool(x: int): (r: int)
    ensures r == 1 <==> x != 0
    ensures r == 0 <==> x == 0
  {
    if x != 0 then 1 else 0
  }
}
