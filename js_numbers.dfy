/**
 * The small part of JavaScript number semantics that the voxel code relies on:
 * the 32-bit conversions behind `<<`, `>>` and `&`, the conversion performed
 * when a number is stored into a `Uint8Array`, and the truncating `%`.
 * Only integer-valued numbers are modelled.
 */
module JsNumbers {

  /** One element of a `Uint8Array`. */
  newtype byte = x: int | 0 <= x < 256

  const TWO_32: int := 0x1_0000_0000
  const TWO_31: int := 0x8000_0000

  /** ECMAScript ToInt32 on an integer: reduce modulo 2^32 into [-2^31, 2^31). */
  function ToInt32(v: int): (r: int)
    ensures -TWO_31 <= r < TWO_31
    ensures (v - r) % TWO_32 == 0
    ensures -TWO_31 <= v < TWO_31 ==> r == v
  {
    var m := v % TWO_32;
    if m >= TWO_31 then m - TWO_32 else m
  }

  /** ECMAScript ToUint8 on an integer: what a `Uint8Array` keeps of a stored value. */
  function ToUint8(v: int): (r: byte)
    ensures (v - r as int) % 256 == 0
    ensures 0 <= v < 256 ==> r as int == v
  {
    (v % 256) as byte
  }

  function Pow2(k: nat): (r: nat)
    ensures r >= 1
  {
    if k == 0 then 1 else 2 * Pow2(k - 1)
  }

  /** `v << k` for a shift count below 32. */
  function ShiftLeft(v: int, k: nat): int
    requires k < 32
  {
    ToInt32(ToInt32(v) * Pow2(k))
  }

  /** `v >> k` (sign-propagating) for a shift count below 32: floor division of the 32-bit value. */
  function ShiftRight(v: int, k: nat): int
    requires k < 32
  {
    ToInt32(v) / Pow2(k)
  }

  /** `v & 255`: the low byte of the 32-bit two's-complement value. */
  function And255(v: int): int
  {
    ToInt32(v) % 256
  }

  /** The quotient of `a / n` truncated toward zero. */
  function JsTrunc(a: int, n: int): (q: int)
    requires n > 0
    ensures a >= 0 ==> q == a / n
  {
    if a >= 0 then a / n else -((-a) / n)
  }

  /** JavaScript's `a % n` on integers: the remainder takes the sign of `a`. */
  function JsRem(a: int, n: int): (r: int)
    requires n > 0
    ensures a >= 0 ==> r == a % n
    ensures a == JsTrunc(a, n) * n + r
    ensures -n < r < n
    ensures a >= 0 ==> r >= 0
    ensures a <= 0 ==> r <= 0
  {
    if a >= 0 then a % n else -((-a) % n)
  }

  /** The floor of the quotient, as JavaScript rounds it, for a positive integer divisor. */
  function FloorDiv(a: int, n: int): (q: int)
    requires n > 0
    ensures q * n <= a < q * n + n
  {
    a / n
  }

  /** A typed byte array built from a list: every value reduced to a byte. */
  function Uint8Array(values: seq<int>): (a: seq<byte>)
    ensures |a| == |values|
    ensures forall i :: 0 <= i < |values| ==> a[i] == ToUint8(values[i])
  {
    seq(|values|, i requires 0 <= i < |values| => ToUint8(values[i]))
  }


  /** The decimal digit character of `d`. */
  function Digit(d: int): (c: char)
    requires 0 <= d < 10
    ensures '0' <= c <= '9'
  {
    "0123456789"[d]
  }

  /** `String(n)` of a non-negative integer: its decimal digits without leading zeros. */
  function NaturalToString(n: nat): (s: string)
    ensures |s| >= 1
    ensures forall i :: 0 <= i < |s| ==> '0' <= s[i] <= '9'
    decreases n
  {
    if n < 10 then [Digit(n)] else NaturalToString(n / 10) + [Digit(n % 10)]
  }

  /** `String(n)`, as a template literal `${n}` writes an integer. */
  function NumberToString(n: int): (s: string)
    ensures |s| >= 1
    ensures forall i :: 0 <= i < |s| ==> s[i] == '-' || '0' <= s[i] <= '9'
  {
    if n < 0 then "-" + NaturalToString(-n) else NaturalToString(n)
  }

  lemma DigitInjective(a: int, b: int)
    requires 0 <= a < 10 && 0 <= b < 10 && Digit(a) == Digit(b)
    ensures a == b
  {
  }

  /** Distinct naturals have distinct decimal strings. */
  lemma {:induction false} NaturalToStringInjective(a: nat, b: nat)
    requires NaturalToString(a) == NaturalToString(b)
    ensures a == b
    decreases a
  {
    var s := NaturalToString(a);
    if a < 10 || b < 10 {
      assert |s| == 1 && a < 10 && b < 10;
      DigitInjective(a, b);
    } else {
      assert s[..|s| - 1] == NaturalToString(a / 10);
      assert NaturalToString(b)[..|s| - 1] == NaturalToString(b / 10);
      NaturalToStringInjective(a / 10, b / 10);
      DigitInjective(a % 10, b % 10);
    }
  }

  /** A decimal string starts with a minus sign exactly when the number is negative. */
  lemma MinusSignIffNegative(n: int)
    ensures NumberToString(n)[0] == '-' <==> n < 0
  {
    if n >= 0 {
      assert '0' <= NaturalToString(n)[0] <= '9';
    }
  }

  /** Distinct integers have distinct decimal strings. */
  lemma NumberToStringInjective(a: int, b: int)
    requires NumberToString(a) == NumberToString(b)
    ensures a == b
  {
    MinusSignIffNegative(a);
    MinusSignIffNegative(b);
    if a < 0 {
      assert NumberToString(a)[1..] == NaturalToString(-a);
      assert NumberToString(b)[1..] == NaturalToString(-b);
      NaturalToStringInjective(-a, -b);
    } else {
      NaturalToStringInjective(a, b);
    }
  }

  // ---------------------------------------------------------------------------
  // Euclidean division
  // ---------------------------------------------------------------------------

  /** Euclidean division is determined by quotient and remainder. */
  lemma DivModUnique(a: int, n: int, q: int, r: int)
    requires n > 0 && 0 <= r < n && a == q * n + r
    ensures a / n == q && a % n == r
  {
    var q', r' := a / n, a % n;
    assert (q - q') * n == r' - r by {
      assert q * n - q' * n == (q - q') * n;
    }
    if q > q' {
      MulAtLeast(q - q', n);
    } else if q < q' {
      assert (q' - q) * n == r - r';
      MulAtLeast(q' - q, n);
    }
  }

  lemma {:induction false} MulAtLeast(k: int, n: int)
    requires k >= 1 && n >= 0
    ensures k * n >= n
    decreases k
  {
    if k > 1 {
      MulAtLeast(k - 1, n);
      assert k * n == (k - 1) * n + n;
    }
  }
}
