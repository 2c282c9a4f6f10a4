/** The decimal codec behind page tokens: `strconv.Itoa` and `strconv.ParseInt(s, 10, 64)`. */
module Decimal {
  import opened Wrappers

  const MAX_INT64 := 0x7FFF_FFFF_FFFF_FFFF
  const MIN_INT64 := -0x8000_0000_0000_0000

  predicate IsInt64(n: int) { MIN_INT64 <= n <= MAX_INT64 }

  /** Two's complement wrap-around of Go's 64-bit `int` arithmetic. */
  function Wrap64(n: int): (r: int)
    ensures IsInt64(r)
    ensures IsInt64(n) ==> r == n
    ensures (n - r) % 0x1_0000_0000_0000_0000 == 0
  {
    (n - MIN_INT64) % 0x1_0000_0000_0000_0000 + MIN_INT64
  }

  predicate IsDigit(c: char) { '0' <= c <= '9' }

  predicate AllDigits(s: string) { forall i :: 0 <= i < |s| ==> IsDigit(s[i]) }

  function Digits(n: nat): (s: string)
    ensures s != "" && AllDigits(s) && (s[0] == '0' <==> n == 0)
  {
    if n < 10 then ['0' + n as char] else Digits(n / 10) + ['0' + (n % 10) as char]
  }

  function Number(s: string): nat
    requires AllDigits(s)
  {
    if s == "" then 0 else 10 * Number(s[..|s| - 1]) + (s[|s| - 1] - '0') as int
  }

  lemma {:induction false} NumberDigits(n: nat)
    ensures Number(Digits(n)) == n
  {
    if n >= 10 {
      NumberDigits(n / 10);
      assert Digits(n)[..|Digits(n)| - 1] == Digits(n / 10);
    }
  }

  function Itoa(n: int): string { if n < 0 then "-" + Digits(-n) else Digits(n) }

  function ParseInt(s: string): Option<int> {
    var body := if s != "" && (s[0] == '-' || s[0] == '+') then s[1..] else s;
    if body == "" || !AllDigits(body) then None
    else
      var n := if s[0] == '-' then 0 - Number(body) else Number(body);
      if IsInt64(n) then Some(n) else None
  }

  /** Printed numbers are decimal, without leading zeros: one character a digit, and the last one is the remainder. */
  lemma {:induction false} DigitsAreDecimal(n: nat)
    ensures n < 10 ==> Digits(n) == ["0123456789"[n]]
    ensures n >= 10 ==> Digits(n) == Digits(n / 10) + Digits(n % 10) && Digits(n)[0] != '0'
  {
    assert n % 10 < 10;
  }

  /** Only digits with at most one sign before them parse, as the int64 they denote. */
  lemma ParsesExactly(s: string)
    ensures var sign := if s != "" && (s[0] == '-' || s[0] == '+') then 1 else 0;
            var n := if AllDigits(s[sign..]) then Number(s[sign..]) else 0;
            var value := if sign == 1 && s[0] == '-' then 0 - n else n;
            ParseInt(s) ==
            if |s| > sign && AllDigits(s[sign..]) && -9223372036854775808 <= value <= 9223372036854775807
            then Some(value) else None
  {
    assert s[0..] == s;
  }

  /** Digits parse as their number, and digits after a minus sign as its negation. */
  lemma ParseDigits(d: string)
    requires d != "" && AllDigits(d)
    ensures ParseInt(d) == if IsInt64(Number(d)) then Some(Number(d)) else None
    ensures ParseInt("-" + d) == if IsInt64(0 - Number(d)) then Some(0 - Number(d)) else None
  {
    assert IsDigit(d[0]);
    assert ("-" + d)[0] == '-' && ("-" + d)[1..] == d;
  }

  /** Every int64 survives being printed and parsed; what does not fit is refused. */
  lemma ParsePrinted(n: int)
    ensures ParseInt(Itoa(n)) == if IsInt64(n) then Some(n) else None
  {
    var d := Digits(if n < 0 then -n else n);
    NumberDigits(if n < 0 then -n else n);
    ParseDigits(d);
  }

  /** The sign and the number a text prints. */
  lemma ItoaShape(n: int)
    ensures if n < 0 then Itoa(n) != "" && Itoa(n)[0] == '-' && AllDigits(Itoa(n)[1..]) && Number(Itoa(n)[1..]) == -n
            else AllDigits(Itoa(n)) && Itoa(n) != "" && Itoa(n)[0] != '-' && Number(Itoa(n)) == n
  {
    if n < 0 {
      NumberDigits(-n);
      assert Itoa(n)[1..] == Digits(-n);
    } else {
      NumberDigits(n);
      assert IsDigit(Itoa(n)[0]);
    }
  }

  lemma ItoaInjective(m: int, n: int)
    requires Itoa(m) == Itoa(n)
    ensures m == n
  {
    ItoaShape(m);
    ItoaShape(n);
  }
}
