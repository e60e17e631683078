/** Java's 32-bit `int` arithmetic and the decimal parsing that the model relies on
    (`Character.digit(c, 10)` and `Integer.parseInt` restricted to ASCII digits). */
module JavaInt {
  import opened Wrappers

  const TWO_32: int := 0x1_0000_0000
  const INT_MIN: int := -0x8000_0000
  const INT_MAX: int := 0x7FFF_FFFF

  predicate InInt(x: int) { INT_MIN <= x <= INT_MAX }

  /** The value a Java `int` holds after an operation whose exact result is `x`. */
  function Wrap32(x: int): (r: int)
    ensures InInt(r)
    ensures InInt(x) ==> r == x
    ensures (x - r) % TWO_32 == 0
  {
    ((x - INT_MIN) % TWO_32) + INT_MIN
  }

  /** Two exact results that differ by a multiple of 2^32 wrap to the same `int`. */
  lemma Wrap32Congruent(x: int, y: int)
    requires (x - y) % TWO_32 == 0
    ensures Wrap32(x) == Wrap32(y)
  {
    var k := (x - y) / TWO_32;
    assert x - INT_MIN == (y - INT_MIN) + k * TWO_32;
    ModAddMultiple(y - INT_MIN, k);
  }

  lemma ModAddMultiple(a: int, k: int)
    ensures (a + k * TWO_32) % TWO_32 == a % TWO_32
  {
  }

  /** Wrapping the running total of a Java `int` accumulation at every step is the
      same as wrapping the exact total once. */
  lemma Wrap32Add(a: int, b: int)
    ensures Wrap32(Wrap32(a) + Wrap32(b)) == Wrap32(a + b)
  {
    Wrap32Congruent(Wrap32(a) + Wrap32(b), a + b);
  }

  lemma Wrap32Mul(a: int, c: int)
    ensures Wrap32(Wrap32(a) * c) == Wrap32(a * c)
  {
    var k := (a - Wrap32(a)) / TWO_32;
    assert a == Wrap32(a) + k * TWO_32;
    assert a * c == Wrap32(a) * c + (k * c) * TWO_32;
    Wrap32Congruent(Wrap32(a) * c, a * c);
  }

  /** `Character.digit(c, 10)` for ASCII characters: the digit's value, or -1. */
  function Digit(c: char): (d: int)
    ensures -1 <= d <= 9
    ensures d == -1 <==> !('0' <= c <= '9')
  {
    if '0' <= c <= '9' then (c as int) - ('0' as int) else -1
  }

  predicate AllDigits(s: string) {
    forall i | 0 <= i < |s| :: '0' <= s[i] <= '9'
  }

  /** The decimal value of a string of digits (most significant first). */
  function DecimalValue(s: string): (v: nat)
    requires AllDigits(s)
  {
    if s == [] then 0 else DecimalValue(s[..|s| - 1]) * 10 + Digit(s[|s| - 1])
  }

  /** The decimal rendering of a natural number, without leading zeros. */
  function ToDecimal(n: nat): (s: string)
    ensures AllDigits(s) && |s| > 0
    ensures n > 0 ==> s[0] != '0'
  {
    if n < 10 then [('0' as int + n) as char]
    else ToDecimal(n / 10) + [('0' as int + n % 10) as char]
  }

  lemma {:induction false} DecimalRoundTrip(n: nat)
    ensures DecimalValue(ToDecimal(n)) == n
  {
    if n >= 10 {
      DecimalRoundTrip(n / 10);
      var s := ToDecimal(n);
      assert s[..|s| - 1] == ToDecimal(n / 10);
    }
  }

  lemma {:induction false} ToDecimalLength(n: nat)
    ensures n < 10 ==> |ToDecimal(n)| == 1
    ensures 10 <= n < 100 ==> |ToDecimal(n)| == 2
    ensures 100 <= n < 1000 ==> |ToDecimal(n)| == 3
  {
    if n >= 10 { ToDecimalLength(n / 10); }
  }

  /** The signed value of `s` under `Integer.parseInt`'s grammar: an optional `+`
      or `-` followed by at least one digit. The range check is separate. */
  function SignedValue(s: string): (r: Option<int>)
    ensures r.Some? <==> (|s| > 0 &&
      ((s[0] == '-' || s[0] == '+') ==> |s| > 1 && AllDigits(s[1..])) &&
      (!(s[0] == '-' || s[0] == '+') ==> AllDigits(s)))
  {
    if |s| == 0 then None
    else if s[0] == '-' || s[0] == '+' then
      if |s| > 1 && AllDigits(s[1..])
      then (var v: int := DecimalValue(s[1..]); Some(if s[0] == '-' then -v else v))
      else None
    else if AllDigits(s) then Some(DecimalValue(s))
    else None
  }

  /** `Integer.parseInt(s)` (and `Long`/`Short`/`Byte` parsing with other limits):
      `None` stands for the `NumberFormatException`. */
  function ParseIntIn(s: string, lo: int, hi: int): (r: Option<int>)
    ensures r.Some? ==> lo <= r.value <= hi
    ensures r.Some? <==> SignedValue(s).Some? && lo <= SignedValue(s).value <= hi
    ensures r.Some? ==> r.value == SignedValue(s).value
  {
    match SignedValue(s)
    case Some(v) => if lo <= v <= hi then Some(v) else None
    case None => None
  }

  function ParseInt(s: string): (r: Option<int>)
    ensures r.Some? ==> InInt(r.value)
  {
    ParseIntIn(s, INT_MIN, INT_MAX)
  }

  /** `Integer.toString`: a minus sign before the magnitude of a negative value. */
  function ToSignedDecimal(v: int): (s: string)
    ensures |s| > 0 && '0' <= s[|s| - 1] <= '9'
    ensures v < 0 <==> s[0] == '-'
    ensures v >= 0 ==> '0' <= s[0] <= '9'
  {
    if v < 0 then "-" + ToDecimal(-v) else ToDecimal(v)
  }

  /** The sign and the digits of a rendering are read back as the value. */
  lemma SignedRoundTrip(v: int)
    ensures SignedValue(ToSignedDecimal(v)) == Some(v)
  {
    var s := ToSignedDecimal(v);
    if v < 0 {
      DecimalRoundTrip(-v);
      assert s[1..] == ToDecimal(-v);
    } else {
      DecimalRoundTrip(v);
    }
  }

  /** Every `int` value is read back from its decimal rendering. */
  lemma ParseIntRoundTrip(n: int)
    requires InInt(n)
    ensures ParseInt(ToSignedDecimal(n)) == Some(n)
  {
    SignedRoundTrip(n);
  }
}
