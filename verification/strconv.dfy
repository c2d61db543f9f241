/** The part of Go's `strconv` the procedures use: Atoi on a 64-bit
    platform, and its inverse Itoa. */
module Strconv {
  import opened Wrappers

  const MinInt64: int := -0x8000_0000_0000_0000
  const MaxInt64: int := 0x7FFF_FFFF_FFFF_FFFF

  predicate IsDigit(c: char) {
    '0' <= c <= '9'
  }

  predicate AllDigits(s: string) {
    forall i :: 0 <= i < |s| ==> IsDigit(s[i])
  }

  /** The number a run of decimal digits spells, most significant first. */
  function DigitsValue(s: string): nat
    requires AllDigits(s)
    decreases |s|
  {
    if |s| == 0 then 0
    else DigitsValue(s[..|s| - 1]) * 10 + (s[|s| - 1] - '0') as nat
  }

  /** strconv.Atoi: an optional sign, then one or more decimal digits (no
      underscores, no base prefix, no spaces), and the value must fit in 64
      bits; anything else is an error, here None. */
  function Atoi(s: string): (r: Option<int>)
    ensures r.Some? ==> MinInt64 <= r.value <= MaxInt64
    ensures r.Some? ==> |s| > 0 && (IsDigit(s[0]) || s[0] == '-' || s[0] == '+')
    ensures |s| == 0 ==> r.None?
  {
    var signed := |s| > 0 && (s[0] == '-' || s[0] == '+');
    var body := if signed then s[1..] else s;
    if |body| == 0 || !AllDigits(body) then None
    else
      var magnitude: int := DigitsValue(body);
      var v: int := if |s| > 0 && s[0] == '-' then -magnitude else magnitude;
      if MinInt64 <= v <= MaxInt64 then
        assert !signed ==> IsDigit(body[0]);
        Some(v)
      else None
  }

  function DigitChar(d: nat): (c: char)
    requires d < 10
    ensures IsDigit(c) && (c - '0') as nat == d
  {
    ('0' as int + d) as char
  }

  /** The decimal digits of n, without leading zeros. */
  function Decimal(n: nat): (r: string)
    ensures |r| > 0 && AllDigits(r)
    decreases n
  {
    if n < 10 then [DigitChar(n)] else Decimal(n / 10) + [DigitChar(n % 10)]
  }

  /** strconv.Itoa: a minus sign before the digits of a negative number. */
  function Itoa(n: int): string {
    if n < 0 then "-" + Decimal(-n) else Decimal(n)
  }

  lemma {:induction false} DecimalValue(n: nat)
    ensures DigitsValue(Decimal(n)) == n
    decreases n
  {
    if n >= 10 {
      DecimalValue(n / 10);
      var d := Decimal(n);
      assert d[..|d| - 1] == Decimal(n / 10);
    }
  }

  /** Atoi on a run of digits, with or without a leading minus sign. */
  lemma AtoiOfDigits(body: string)
    requires |body| > 0 && AllDigits(body)
    ensures var v: int := DigitsValue(body);
      && Atoi(body) == (if v <= MaxInt64 then Some(v) else None)
      && Atoi("-" + body) == (if -v >= MinInt64 then Some(-v) else None)
  {
    assert IsDigit(body[0]);
    assert ("-" + body)[1..] == body;
  }

  /** Atoi reads back exactly the numbers Itoa writes that fit in 64 bits. */
  lemma AtoiItoa(n: int)
    ensures MinInt64 <= n <= MaxInt64 ==> Atoi(Itoa(n)) == Some(n)
    ensures n < MinInt64 || n > MaxInt64 ==> Atoi(Itoa(n)) == None
  {
    if n < 0 {
      DecimalValue(-n);
      AtoiOfDigits(Decimal(-n));
    } else {
      DecimalValue(n);
      AtoiOfDigits(Decimal(n));
    }
  }

  /** Inputs Atoi refuses: the empty text, a bare sign, spaces and words. */
  lemma AtoiRejects()
    ensures Atoi("") == None && Atoi("-") == None && Atoi(" 1") == None && Atoi("abc") == None
  {
    assert !AllDigits(" 1") by { assert !IsDigit(" 1"[0]); }
    assert !AllDigits("abc") by { assert !IsDigit("abc"[0]); }
  }
}
