// C integer semantics that differ from Dafny's unbounded, Euclidean integers:
// division truncating toward zero, and size_t / uint32 / uint16 wrap-around.
module CInt {
  const SIZE_T_LIMIT: int := 0x1_0000_0000_0000_0000
  const UINT32_LIMIT: int := 0x1_0000_0000
  const UINT32_MAX: int := 0xFFFF_FFFF
  const INT32_MAX: int := 0x7FFF_FFFF

  type SizeT = x: int | 0 <= x < SIZE_T_LIMIT
  type Int32 = x: int | -0x8000_0000 <= x <= 0x7FFF_FFFF
  type Byte = x: int | 0 <= x < 256

  function Abs(x: int): nat { if x < 0 then -x else x }

  /** C's `a / b` for int operands: the quotient truncated toward zero. */
  function CDiv(a: int, b: int): (q: int)
    requires b != 0
    ensures (a < 0) == (b < 0) ==> q == Abs(a) / Abs(b)
    ensures (a < 0) != (b < 0) ==> q == -(Abs(a) / Abs(b))
    ensures 0 <= a && 0 < b ==> q == a / b
  {
    var q0 := Abs(a) / Abs(b);
    if (a < 0) != (b < 0) then -q0 else q0
  }

  /** C's `a % b`: the remainder takes the sign of the dividend. */
  function CMod(a: int, b: int): (r: int)
    requires b != 0
    ensures a == CDiv(a, b) * b + r
    ensures Abs(r) < Abs(b)
  {
    a - CDiv(a, b) * b
  }

  /** Converting any integer to size_t: reduction modulo 2^64. */
  function ToSizeT(x: int): (r: SizeT)
    ensures 0 <= x < SIZE_T_LIMIT ==> r == x
    ensures (x - r) % SIZE_T_LIMIT == 0
  {
    x % SIZE_T_LIMIT
  }

  /** Unsigned size_t subtraction, wrapping below zero. */
  function SubSizeT(a: SizeT, b: SizeT): (r: SizeT)
    ensures b <= a ==> r == a - b
    ensures a < b ==> r == a - b + SIZE_T_LIMIT
  {
    ToSizeT(a - b)
  }

  /** Unsigned size_t addition, wrapping above 2^64 - 1. */
  function AddSizeT(a: SizeT, b: SizeT): (r: SizeT)
    ensures a + b < SIZE_T_LIMIT ==> r == a + b
    ensures a + b >= SIZE_T_LIMIT ==> r == a + b - SIZE_T_LIMIT
  {
    ToSizeT(a + b)
  }

  function DigitChar(d: nat): (c: char)
    requires d < 10
    ensures '0' <= c <= '9' && c as int - '0' as int == d
  {
    (48 + d) as char
  }

  /** printf's "%d" of a non-negative number. */
  function NatToDecimal(n: nat): (s: string)
    ensures |s| >= 1
    ensures forall i :: 0 <= i < |s| ==> '0' <= s[i] <= '9'
    decreases n
  {
    if n < 10 then [DigitChar(n)] else NatToDecimal(n / 10) + [DigitChar(n % 10)]
  }

  /** printf's "%d": a minus sign before the digits of a negative number. */
  function IntToDecimal(n: int): (s: string)
    ensures |s| >= 1
    ensures s[0] == '-' <==> n < 0
    ensures forall i :: (if n < 0 then 1 else 0) <= i < |s| ==> '0' <= s[i] <= '9'
  {
    if n < 0 then "-" + NatToDecimal(-n) else NatToDecimal(n)
  }

  /** The value of a string of decimal digits. */
  function DecimalValue(s: string): (n: nat)
    requires forall i :: 0 <= i < |s| ==> '0' <= s[i] <= '9'
    decreases |s|
  {
    if |s| == 0 then 0
    else 10 * DecimalValue(s[..|s| - 1]) + (s[|s| - 1] as int - '0' as int)
  }

  /** Reading the digits back gives the number: "%d" loses nothing. */
  lemma {:induction false} DecimalRoundTrip(n: nat)
    ensures DecimalValue(NatToDecimal(n)) == n
    decreases n
  {
    if n >= 10 {
      var s := NatToDecimal(n);
      assert s[..|s| - 1] == NatToDecimal(n / 10);
      DecimalRoundTrip(n / 10);
    }
  }

  lemma MulNonNegative(a: int, b: int)
    requires a >= 0 && b >= 0
    ensures a * b >= 0
  {
  }

  /** Division by m of q * m + rem, for 0 <= rem < m, gives back q and rem. */
  lemma SplitAt(q: int, rem: int, m: int)
    requires m > 0 && 0 <= rem < m
    ensures (q * m + rem) / m == q && (q * m + rem) % m == rem
  {
    var n := q * m + rem;
    var d := n / m;
    assert n == d * m + n % m;
    assert (q - d) * m == n % m - rem;
    if q - d > 0 {
      MulAtLeast(q - d, m);
    } else if q - d < 0 {
      MulAtLeast(d - q, m);
    }
  }

  lemma MulAtLeast(k: int, m: int)
    requires k >= 1 && m > 0
    ensures k * m >= m
  {
    assert k * m == (k - 1) * m + m;
    assert (k - 1) * m >= 0;
  }
}
