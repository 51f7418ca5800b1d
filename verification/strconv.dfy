/** Go's `strconv.Atoi` on a 64-bit platform and its inverse `strconv.Itoa`. */
module Strconv {
  import opened Wrappers

  const MinInt64: int := -0x8000_0000_0000_0000
  const MaxInt64: int := 0x7fff_ffff_ffff_ffff

  /** Why `Atoi` rejected its input: `strconv.ErrSyntax` or `strconv.ErrRange`. */
  datatype NumError = ErrSyntax | ErrRange

  predicate IsDigit(c: char) {
    '0' <= c <= '9'
  }

  predicate AllDigits(s: string) {
    forall k :: 0 <= k < |s| ==> IsDigit(s[k])
  }

  function DigitValue(c: char): nat
    requires IsDigit(c)
  {
    c as int - '0' as int
  }

  function DigitChar(d: nat): (c: char)
    requires d < 10
    ensures IsDigit(c) && DigitValue(c) == d
  {
    ('0' as int + d) as char
  }

  /** The number a run of decimal digits denotes, most significant first. */
  function DigitsValue(s: string): nat
    requires AllDigits(s)
  {
    if |s| == 0 then 0 else DigitsValue(s[..|s| - 1]) * 10 + DigitValue(s[|s| - 1])
  }

  /** `s` is what `Atoi` accepts syntactically: an optional `+` or `-`
      followed by at least one decimal digit, and nothing else. */
  predicate WellFormed(s: string) {
    if |s| > 0 && (s[0] == '+' || s[0] == '-') then |s| > 1 && AllDigits(s[1..])
    else |s| > 0 && AllDigits(s)
  }

  /** The signed value of a well-formed decimal string. */
  function SignedValue(s: string): int
    requires WellFormed(s)
  {
    if s[0] == '-' then -(DigitsValue(s[1..]) as int)
    else if s[0] == '+' then DigitsValue(s[1..])
    else DigitsValue(s)
  }

  /** `strconv.Atoi(s)`: the digits after an optional sign, accumulated as
      `n = n*10 + d`, negated after a `-`. Anything else, the empty string
      and a lone sign included, is a syntax error, and a value outside the
      64-bit `int` is a range error. */
  function Atoi(s: string): (r: Result<int, NumError>)
    ensures r.Success? <==> WellFormed(s) && MinInt64 <= SignedValue(s) <= MaxInt64
    ensures r.Success? ==> r.value == SignedValue(s)
    ensures r == Failure(ErrSyntax) <==> !WellFormed(s)
  {
    if |s| == 0 then Failure(ErrSyntax)
    else
      var neg := s[0] == '-';
      var digits := if s[0] == '-' || s[0] == '+' then s[1..] else s;
      if |digits| == 0 || !AllDigits(digits) then Failure(ErrSyntax)
      else
        var n := if neg then -(DigitsValue(digits) as int) else DigitsValue(digits);
        if MinInt64 <= n <= MaxInt64 then Success(n) else Failure(ErrRange)
  }

  /** Decimal digits of `n`, without leading zeros. */
  function NatToDigits(n: nat): (s: string)
    ensures |s| > 0 && AllDigits(s)
    ensures DigitsValue(s) == n
    ensures s[0] != '0' || n == 0
    decreases n
  {
    if n < 10 then [DigitChar(n)]
    else
      var s := NatToDigits(n / 10) + [DigitChar(n % 10)];
      assert s[..|s| - 1] == NatToDigits(n / 10);
      s
  }

  /** `strconv.Itoa(n)`: the canonical decimal spelling of `n`. */
  function Itoa(n: int): (s: string)
    ensures WellFormed(s) && SignedValue(s) == n
  {
    if n < 0 then
      var s := "-" + NatToDigits(-n);
      assert s[1..] == NatToDigits(-n);
      s
    else NatToDigits(n)
  }

  /** Every 64-bit integer survives `Atoi(Itoa(n))`. */
  lemma AtoiItoa(n: int)
    requires MinInt64 <= n <= MaxInt64
    ensures Atoi(Itoa(n)) == Success(n)
  {
  }

  /** The empty token, which a missing configuration key produces, is a
      syntax error, and so is a token that is only a sign. */
  lemma AtoiRejectsEmptyAndSign()
    ensures Atoi("") == Failure(ErrSyntax)
    ensures Atoi("-") == Failure(ErrSyntax)
    ensures Atoi("+") == Failure(ErrSyntax)
  {
  }
}
