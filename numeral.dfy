/**
  Decimal numerals in assembler operands, as the C library reads them:
  `sscanf(s, "%d", ...)` (the assemblers' `isNumber`), `atoi` and `atol`.
  All three accept an optional sign followed by a run of digits at the START
  of the token and ignore whatever follows. Tokens never contain whitespace,
  so the library's skipping of leading whitespace is not modelled.
*/
module Numeral {
  import opened Wrappers
  import opened Isa

  predicate IsDigit(c: char)
  {
    '0' <= c <= '9'
  }

  function DigitValue(c: char): (d: nat)
    requires IsDigit(c)
    ensures d < 10
  {
    c as int - '0' as int
  }

  function DigitChar(d: nat): (c: char)
    requires d < 10
    ensures IsDigit(c) && DigitValue(c) == d
  {
    ('0' as int + d) as char
  }

  predicate AllDigits(s: string)
  {
    forall i :: 0 <= i < |s| ==> IsDigit(s[i])
  }

  /** The length of the longest prefix of `s` made of digits. */
  function DigitRun(s: string): (n: nat)
    ensures n <= |s|
    ensures AllDigits(s[..n])
    ensures n < |s| ==> !IsDigit(s[n])
  {
    if |s| > 0 && IsDigit(s[0]) then
      var n := 1 + DigitRun(s[1..]);
      assert s[..n] == [s[0]] + s[1..][..n - 1];
      n
    else 0
  }

  /** The value of a string of decimal digits, most significant first. */
  function DigitsValue(ds: string): nat
    requires AllDigits(ds)
  {
    if |ds| == 0 then 0
    else DigitsValue(ds[..|ds| - 1]) * 10 + DigitValue(ds[|ds| - 1])
  }

  /** The number at the start of `s`: an optional `+` or `-`, then at least
      one digit. `None` is a token that `sscanf("%d")` does not accept. */
  function LeadingInt(s: string): (r: Option<int>)
    ensures r.Some? <==>
      (|s| > 0 && IsDigit(s[0])) || (|s| > 1 && (s[0] == '+' || s[0] == '-') && IsDigit(s[1]))
  {
    if |s| > 0 && (s[0] == '+' || s[0] == '-') then
      var body := s[1..];
      var n := DigitRun(body);
      var magnitude: int := if n == 0 then 0 else DigitsValue(body[..n]);
      if n == 0 then None
      else if s[0] == '-' then Some(-magnitude)
      else Some(magnitude)
    else
      var n := DigitRun(s);
      if n == 0 then None else Some(DigitsValue(s[..n]))
  }

  /** `isNumber`: `sscanf(s, "%d", &i) == 1`. */
  function IsNumber(s: string): (b: bool)
    ensures b <==>
      (|s| > 0 && IsDigit(s[0])) || (|s| > 1 && (s[0] == '+' || s[0] == '-') && IsDigit(s[1]))
  {
    LeadingInt(s).Some?
  }

  /** `atoi`: the leading number stored in an `int`, 0 when there is none. */
  function Atoi(s: string): (r: Int32)
    ensures LeadingInt(s).None? ==> r == 0
    ensures LeadingInt(s).Some? ==> (r - LeadingInt(s).value) % TWO32 == 0
    ensures LeadingInt(s).Some? && MININT32 <= LeadingInt(s).value <= MAXINT32 ==> r == LeadingInt(s).value
  {
    match LeadingInt(s)
    case None => 0
    case Some(v) => WrapSpec(v); Wrap(v)
  }

  /** The decimal numeral of a natural number, without sign or leading zeros. */
  function Decimal(n: nat): (s: string)
    ensures |s| > 0 && AllDigits(s)
  {
    if n < 10 then [DigitChar(n)] else Decimal(n / 10) + [DigitChar(n % 10)]
  }

  lemma {:induction false} DecimalValue(n: nat)
    ensures DigitsValue(Decimal(n)) == n
  {
    if n >= 10 {
      var s := Decimal(n);
      assert s[..|s| - 1] == Decimal(n / 10);
      DecimalValue(n / 10);
    }
  }

  lemma {:induction false} DigitRunOfDigits(ds: string, rest: string)
    requires AllDigits(ds)
    requires |rest| > 0 ==> !IsDigit(rest[0])
    ensures DigitRun(ds + rest) == |ds|
  {
    if |ds| > 0 {
      assert (ds + rest)[1..] == ds[1..] + rest;
      DigitRunOfDigits(ds[1..], rest);
    }
  }

  /** A run of digits followed by a non-digit reads as its value. */
  lemma LeadingDigits(ds: string, rest: string)
    requires |ds| > 0 && AllDigits(ds)
    requires |rest| > 0 ==> !IsDigit(rest[0])
    ensures LeadingInt(ds + rest) == Some(DigitsValue(ds))
  {
    DigitRunOfDigits(ds, rest);
    assert (ds + rest)[..|ds|] == ds;
  }

  /** The library reads back the numeral of `v`, even when other characters
      follow it, and the sign is honoured. */
  lemma LeadingIntDecimal(v: int, rest: string)
    requires |rest| > 0 ==> !IsDigit(rest[0])
    ensures LeadingInt((if v < 0 then "-" else "") + Decimal(if v < 0 then -v else v) + rest) == Some(v)
  {
    var n: nat := if v < 0 then -v else v;
    var ds := Decimal(n);
    DecimalValue(n);
    if v < 0 {
      var s := "-" + ds + rest;
      assert s[1..] == ds + rest;
      DigitRunOfDigits(ds, rest);
      assert (ds + rest)[..|ds|] == ds;
    } else {
      assert "" + ds + rest == ds + rest;
      LeadingDigits(ds, rest);
    }
  }
}
