/** `i64::to_string` and `str::parse::<i64>`, the two ends of the `sub` claim. */
module Decimal {
  import opened Wrappers
  import C = Constants

  predicate IsI64(n: int) { C.MIN_I64 <= n <= C.MAX_I64 }

  predicate IsDigit(c: char) { '0' <= c <= '9' }

  predicate AllDigits(s: string) { forall i | 0 <= i < |s| :: IsDigit(s[i]) }

  function DigitChar(d: int): char
    requires 0 <= d < 10
  {
    ('0' as int + d) as char
  }

  function Value(digits: string): nat
    requires AllDigits(digits)
  {
    if digits == [] then 0
    else 10 * Value(digits[..|digits| - 1]) + (digits[|digits| - 1] as int - '0' as int)
  }

  function Digits(n: nat): (s: string)
    ensures s != [] && AllDigits(s)
  {
    if n < 10 then [DigitChar(n)] else Digits(n / 10) + [DigitChar(n % 10)]
  }

  function Print(n: int): string {
    if n < 0 then "-" + Digits(-n) else Digits(n)
  }

  /** An optional sign, at least one digit, nothing else, and a value that fits. */
  function Parse(s: string): Option<int> {
    var digits := if s != [] && (s[0] == '-' || s[0] == '+') then s[1..] else s;
    if digits == [] || !AllDigits(digits) then None
    else
      var v: int := if s[0] == '-' then 0 - Value(digits) else Value(digits);
      if IsI64(v) then Some(v) else None
  }

  lemma {:induction false} ValueOfDigits(n: nat)
    ensures Value(Digits(n)) == n
  {
    if n < 10 {
      assert Digits(n)[..0] == [];
    } else {
      ValueOfDigits(n / 10);
      var s := Digits(n);
      assert s[..|s| - 1] == Digits(n / 10);
    }
  }

  /** Every i64 survives the trip through its decimal text. */
  lemma ParsePrint(n: int)
    ensures Parse(Print(n)) == if IsI64(n) then Some(n) else None
  {
    var s := Print(n);
    var digits := Digits(if n < 0 then -n else n);
    ValueOfDigits(if n < 0 then -n else n);
    if n < 0 {
      assert s[0] == '-' && s[1..] == digits;
    } else {
      assert IsDigit(s[0]) && s == digits;
    }
  }

  lemma PrintInjective(m: int, n: int)
    requires Print(m) == Print(n)
    ensures m == n
  {
    assert forall k: nat :: IsDigit(Digits(k)[0]);
    if m < 0 {
      assert Print(m)[0] == '-';
      assert Print(m)[1..] == Digits(-m) && Print(n)[1..] == Digits(-n);
      ValueOfDigits(-m);
      ValueOfDigits(-n);
    } else {
      assert IsDigit(Print(m)[0]);
      ValueOfDigits(m);
      ValueOfDigits(n);
    }
  }
}
