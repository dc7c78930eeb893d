/** Decimal printing and parsing as Go's strconv does it: Itoa, FormatInt and FormatUint on one side,
    Atoi, ParseInt and ParseUint on the other. */
module Decimal {
  import opened InboxTables

  const MAX_INT32 := 0x7fff_ffff
  const MAX_INT64 := 0x7fff_ffff_ffff_ffff
  const MAX_UINT64 := 0xffff_ffff_ffff_ffff

  predicate IsDigit(c: char) {
    '0' <= c <= '9'
  }

  predicate AllDigits(s: string) {
    forall k | 0 <= k < |s| :: IsDigit(s[k])
  }

  function Digits(n: nat): (s: string)
    ensures |s| > 0
  {
    if n < 10 then ['0' + n as char] else Digits(n / 10) + ['0' + (n % 10) as char]
  }

  function Value(s: string): nat
    requires AllDigits(s)
  {
    if s == [] then 0 else Value(s[..|s| - 1]) * 10 + (s[|s| - 1] - '0') as nat
  }

  lemma {:induction false} DigitsValue(n: nat)
    ensures AllDigits(Digits(n)) && Value(Digits(n)) == n
  {
    var s := Digits(n);
    if n < 10 {
      assert s[..|s| - 1] == [];
    } else {
      DigitsValue(n / 10);
      assert s[..|s| - 1] == Digits(n / 10);
    }
  }

  /** ParseUint in base 10 with the given largest value. */
  function ParseUint(s: string, max: nat): (r: Option<nat>)
    ensures r.Some? ==> r.value <= max
  {
    if s != [] && AllDigits(s) && Value(s) <= max then Some(Value(s)) else None
  }

  /** ParseInt and Atoi in base 10: an optional sign, then digits; max is the largest positive value. */
  function ParseInt(s: string, max: nat): (r: Option<int>)
    ensures r.Some? ==> -(max + 1) <= r.value <= max
  {
    if s != [] && s[0] == '-' then
      match ParseUint(s[1..], max + 1)
      case Some(v) => (var n: int := v; Some(0 - n))
      case None => None
    else if s != [] && s[0] == '+' then
      ParseUint(s[1..], max)
    else
      ParseUint(s, max)
  }

  /** Parsing undoes printing on every value in range. */
  lemma PrintParse(n: nat, max: nat)
    requires n <= max
    ensures ParseUint(Digits(n), max) == Some(n) && ParseInt(Digits(n), max) == Some(n)
  {
    DigitsValue(n);
    assert IsDigit(Digits(n)[0]);
  }

  lemma DigitsInjective(m: nat, n: nat)
    requires Digits(m) == Digits(n)
    ensures m == n
  {
    DigitsValue(m);
    DigitsValue(n);
  }

  /** FormatInt: a minus sign before the digits of a negative number. */
  function FormatInt(n: int): string {
    if n < 0 then "-" + Digits(-n) else Digits(n)
  }

  lemma PrintParseInt(n: int)
    requires -MAX_INT64 - 1 <= n <= MAX_INT64
    ensures ParseInt(FormatInt(n), MAX_INT64) == Some(n)
  {
    if n < 0 {
      PrintParse(-n, MAX_INT64 + 1);
      assert FormatInt(n)[1..] == Digits(-n);
    } else {
      PrintParse(n, MAX_INT64);
    }
  }
}
