/**
 * The fixed-width C integer types the firmware works with, as ranges of
 * Dafny's unbounded integers, the wrap-around arithmetic of the unsigned
 * ones, and the length of a NUL-terminated string.
 */
module CTypes {

  /** `uint8_t`. */
  type Byte = b: int | 0 <= b < 0x100

  /** `uint16_t`. */
  type U16 = n: int | 0 <= n < 0x1_0000

  /** `uint32_t`. */
  type U32 = n: int | 0 <= n < 0x1_0000_0000

  const TWO_32: int := 0x1_0000_0000

  /** `a + b` on `uint32_t`: the sum modulo 2^32. */
  function Add32(a: U32, b: U32): (s: U32)
  {
    (a + b) % TWO_32
  }

  /** `a - b` on `uint32_t`: the difference modulo 2^32. */
  function Sub32(a: U32, b: U32): (d: U32)
  {
    (a - b) % TWO_32
  }

  /** Subtraction undoes addition in `uint32_t`: `b + (a - b) == a` whatever wraps. */
  lemma Sub32Inverse(a: U32, b: U32)
    ensures Add32(b, Sub32(a, b)) == a
    ensures Sub32(Add32(b, a), b) == a
  {
    var d := Sub32(a, b);
    if a >= b {
      assert d == a - b;
    } else {
      assert d == a - b + TWO_32;
    }
    var s := Add32(b, a);
    if b + a < TWO_32 {
      assert s == b + a;
    } else {
      assert s == b + a - TWO_32;
    }
  }

  /** A `uint32_t` value converted to `int32_t`: two's complement, so values from 2^31 up turn negative. */
  function ToInt32(n: U32): (v: int)
    ensures -0x8000_0000 <= v < 0x8000_0000
    ensures v % TWO_32 == n
  {
    if n < 0x8000_0000 then n else n - TWO_32
  }

  /** An `int32_t` value stored in a `uint32_t`: a negative value wraps to 2^32 plus itself. */
  function FromInt32(v: int): (n: U32)
    requires -0x8000_0000 <= v < 0x8000_0000
    ensures n % TWO_32 == v % TWO_32
    ensures v >= 0 ==> n == v
  {
    if v >= 0 then v else v + TWO_32
  }

  /** The two conversions undo each other. */
  lemma Int32RoundTrip(n: U32, v: int)
    requires -0x8000_0000 <= v < 0x8000_0000
    ensures FromInt32(ToInt32(n)) == n
    ensures ToInt32(FromInt32(v)) == v
  {
  }

  /** The terminator of a C string. */
  const NUL: char := '\0'

  /** `strlen`: the number of characters before the first NUL (all of them when there is none). */
  function StrLen(s: seq<char>): (n: nat)
    ensures n <= |s|
    ensures forall j :: 0 <= j < n ==> s[j] != NUL
    ensures n < |s| ==> s[n] == NUL
  {
    if s == [] || s[0] == NUL then 0 else 1 + StrLen(s[1..])
  }

  /** A string whose first NUL is at `n` has length `n`. */
  lemma TerminatedLength(s: seq<char>, n: nat)
    requires n < |s| && s[n] == NUL
    requires forall j :: 0 <= j < n ==> s[j] != NUL
    ensures StrLen(s) == n
  {
  }
}
