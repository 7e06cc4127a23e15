/** Decimal formatting and parsing of integers as Go's `strconv.Itoa`,
    `fmt.Sprint` and `strconv.Atoi` do it. Go's `int` is taken to be 64 bits wide. */
module Strconv {
  import opened Wrappers

  const MinInt64: int := -0x8000_0000_0000_0000
  const MaxInt64: int := 0x7FFF_FFFF_FFFF_FFFF

  predicate IsDigit(c: char) { '0' <= c <= '9' }

  predicate AllDigits(s: string) { forall k :: 0 <= k < |s| ==> IsDigit(s[k]) }

  function DigitChar(d: nat): (c: char)
    requires d < 10
    ensures IsDigit(c)
  {
    ('0' as int + d) as char
  }

  function DigitValue(c: char): (d: nat)
    requires IsDigit(c)
    ensures d < 10
  {
    c as int - '0' as int
  }

  /** The value of a digit string, most significant digit first (leading zeros allowed). */
  function DigitsValue(s: string): nat
    requires AllDigits(s)
  {
    if s == [] then 0 else DigitsValue(s[..|s| - 1]) * 10 + DigitValue(s[|s| - 1])
  }

  /** The decimal digits of `n`, without leading zeros. */
  function NatDigits(n: nat): (r: string)
    ensures |r| >= 1 && AllDigits(r)
  {
    if n < 10 then [DigitChar(n)] else NatDigits(n / 10) + [DigitChar(n % 10)]
  }

  /** `strconv.Itoa(n)`, also what `fmt.Sprint` and `%d` print for an integer. */
  function Itoa(n: int): (r: string)
    ensures |r| >= 1
    ensures r[0] == '-' <==> n < 0
    ensures n < 0 ==> |r| >= 2 && AllDigits(r[1..])
    ensures n >= 0 ==> AllDigits(r)
  {
    if n < 0 then "-" + NatDigits(-n) else NatDigits(n)
  }

  /** The syntax `strconv.Atoi` accepts: an optional sign followed by one or more decimal digits. */
  predicate IsDecimal(s: string) {
    |s| >= 1 && |Unsigned(s)| >= 1 && AllDigits(Unsigned(s))
  }

  /** `s` without its leading sign character, if it has one. */
  function Unsigned(s: string): string {
    if |s| >= 1 && (s[0] == '+' || s[0] == '-') then s[1..] else s
  }

  /** `strconv.Atoi`: `None` stands for the syntax error and for the range error. */
  function Atoi(s: string): (r: Option<int>)
    ensures r.Some? ==> IsDecimal(s) && MinInt64 <= r.value <= MaxInt64
    ensures r.Some? && r.value < 0 ==> s[0] == '-'
  {
    if !IsDecimal(s) then None
    else
      var magnitude: int := DigitsValue(Unsigned(s));
      var v := if s[0] == '-' then -magnitude else magnitude;
      if MinInt64 <= v <= MaxInt64 then Some(v) else None
  }

  /** Reading back the digits of `n` gives `n`. */
  lemma {:induction false} DigitsValueNatDigits(n: nat)
    ensures DigitsValue(NatDigits(n)) == n
  {
    if n >= 10 {
      var s := NatDigits(n);
      DigitsValueNatDigits(n / 10);
      assert s[..|s| - 1] == NatDigits(n / 10);
      assert s[|s| - 1] == DigitChar(n % 10);
    }
  }

  /** Round trip: formatting a 64-bit integer and parsing it back gives the integer. */
  lemma AtoiItoa(n: int)
    requires MinInt64 <= n <= MaxInt64
    ensures Atoi(Itoa(n)) == Some(n)
  {
    var s := Itoa(n);
    if n < 0 {
      DigitsValueNatDigits(-n);
      assert Unsigned(s) == NatDigits(-n);
    } else {
      DigitsValueNatDigits(n);
      assert Unsigned(s) == NatDigits(n);
    }
  }

  /** Distinct naturals have distinct digits. */
  lemma NatDigitsInjective(a: nat, b: nat)
    requires NatDigits(a) == NatDigits(b)
    ensures a == b
  {
    DigitsValueNatDigits(a);
    DigitsValueNatDigits(b);
  }

  /** Distinct integers print differently. */
  lemma ItoaInjective(a: int, b: int)
    requires Itoa(a) == Itoa(b)
    ensures a == b
  {
    if a < 0 {
      assert b < 0;
      var da, db := NatDigits(-a), NatDigits(-b);
      assert ("-" + da)[1..] == da && ("-" + db)[1..] == db;
      NatDigitsInjective(-a, -b);
    } else {
      assert b >= 0;
      NatDigitsInjective(a, b);
    }
  }

  /** A formatted integer holds no character other than digits and a leading minus sign. */
  lemma ItoaChars(n: int, c: char)
    requires c in Itoa(n)
    ensures IsDigit(c) || c == '-'
  {
    var r := Itoa(n);
    var k :| 0 <= k < |r| && r[k] == c;
    if n < 0 && k > 0 {
      assert r[k] == r[1..][k - 1];
    }
  }
}
