/** Small datatypes and number printing shared by the models. */
module Prelude {

  datatype Option<+T> = None | Some(value: T)

  datatype Result<+T, +E> = Ok(value: T) | Err(error: E)

  function MinOf(a: int, b: int): int { if a <= b then a else b }

  function MaxOf(a: int, b: int): int { if a >= b then a else b }

  lemma ProductBound(k: int, n: int)
    requires n > 0
    ensures k >= 1 ==> k * n >= n
    ensures k <= -1 ==> k * n <= -n
  {
  }

  /** Quotient and remainder are unique. */
  lemma Division(x: int, n: int, q: int, r: int)
    requires n > 0 && x == q * n + r && 0 <= r < n
    ensures x / n == q && x % n == r
  {
    var p, t := x / n, x % n;
    assert x == p * n + t;
    assert (p - q) * n == r - t;
    ProductBound(p - q, n);
  }

  predicate IsDigit(c: char) { '0' <= c <= '9' }

  function DigitOf(n: nat): char
    requires n < 10
  {
    '0' + n as char
  }

  function DigitValue(c: char): nat
    requires IsDigit(c)
  {
    (c - '0') as nat
  }

  /** Decimal notation without leading zeros, as a template literal prints a number. */
  function Decimal(n: nat): string {
    if n < 10 then [DigitOf(n)] else Decimal(n / 10) + [DigitOf(n % 10)]
  }

  /** The number that a string of digits denotes. */
  function DigitsValue(s: string): nat
    requires forall c :: c in s ==> IsDigit(c)
  {
    if s == [] then 0 else DigitsValue(s[..|s| - 1]) * 10 + DigitValue(s[|s| - 1])
  }

  lemma {:induction false} DecimalRoundTrip(n: nat)
    ensures Decimal(n) != []
    ensures forall c :: c in Decimal(n) ==> IsDigit(c)
    ensures DigitsValue(Decimal(n)) == n
  {
    if n < 10 {
      assert Decimal(n)[..0] == [];
    } else {
      DecimalRoundTrip(n / 10);
      assert Decimal(n)[..|Decimal(n)| - 1] == Decimal(n / 10);
    }
  }

  // ----- Strings -----

  /** White space, as JavaScript trims it and skips it before a number. */
  predicate IsSpace(c: char) {
    || '\t' <= c <= '\r' || c == ' ' || c == '\U{00A0}' || c == '\U{1680}'
    || '\U{2000}' <= c <= '\U{200A}' || c == '\U{2028}' || c == '\U{2029}'
    || c == '\U{202F}' || c == '\U{205F}' || c == '\U{3000}' || c == '\U{FEFF}'
  }

  /** The parts, with single spaces in between. */
  function Join(ts: seq<string>): string {
    if |ts| == 0 then ""
    else if |ts| == 1 then ts[0]
    else ts[0] + " " + Join(ts[1..])
  }
}
