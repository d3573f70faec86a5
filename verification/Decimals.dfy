// Decimal numerals of natural numbers.
module Decimals {

  // std::to_string
  function Decimal(n: nat): string {
    if n < 10 then ['0' + n as char] else Decimal(n / 10) + ['0' + (n % 10) as char]
  }

  predicate IsDigits(s: string) {
    forall i :: 0 <= i < |s| ==> '0' <= s[i] <= '9'
  }

  function DigitsValue(s: string): nat
    requires IsDigits(s)
  {
    if s == "" then 0 else DigitsValue(s[..|s| - 1]) * 10 + (s[|s| - 1] as int - '0' as int)
  }

  lemma {:induction false} DecimalRoundTrip(n: nat)
    ensures IsDigits(Decimal(n)) && DigitsValue(Decimal(n)) == n
  {
    if n < 10 {
      assert Decimal(n)[..0] == "";
    } else {
      DecimalRoundTrip(n / 10);
      assert Decimal(n)[..|Decimal(n)| - 1] == Decimal(n / 10);
    }
  }

  predicate NoLeadingZero(s: string) {
    s != "" && (s[0] != '0' || |s| == 1)
  }

  lemma {:induction false} ValuePositive(s: string)
    requires IsDigits(s) && s != "" && s[0] != '0'
    ensures DigitsValue(s) > 0
    decreases |s|
  {
    if |s| > 1 { ValuePositive(s[..|s| - 1]); }
  }

  // It is the only digit string with this value that has no leading zero.
  lemma {:induction false} DecimalUnique(s: string, n: nat)
    requires IsDigits(s)
    ensures s == Decimal(n) <==> NoLeadingZero(s) && DigitsValue(s) == n
    decreases n
  {
    DecimalRoundTrip(n);
    if n < 10 {
      DecimalDigit(s, n);
    } else if s != "" {
      var front := s[..|s| - 1];
      DecimalUnique(front, n / 10);
      LongNumeral(s, n);
    }
  }

  lemma {:induction false} DecimalDigit(s: string, n: nat)
    requires IsDigits(s) && n < 10
    ensures s == Decimal(n) <==> NoLeadingZero(s) && DigitsValue(s) == n
  {
    if |s| == 1 {
      assert s[..0] == "" && s == [s[0]];
      assert DigitsValue(s) == s[0] as int - '0' as int;
    } else if s != "" && s[0] != '0' {
      ValuePositive(s[..|s| - 1]);
    }
  }

  lemma {:induction false} LongNumeral(s: string, n: nat)
    requires IsDigits(s) && s != "" && n >= 10
    requires var front := s[..|s| - 1];
      front == Decimal(n / 10) <==> NoLeadingZero(front) && DigitsValue(front) == n / 10
    ensures s == Decimal(n) <==> NoLeadingZero(s) && DigitsValue(s) == n
  {
    var front, last := s[..|s| - 1], s[|s| - 1];
    assert s == front + [last];
    assert DigitsValue(s) == DigitsValue(front) * 10 + (last as int - '0' as int);
    var whole := Decimal(n);
    assert whole == Decimal(n / 10) + ['0' + (n % 10) as char];
    assert whole[..|whole| - 1] == Decimal(n / 10) && whole[|whole| - 1] == '0' + (n % 10) as char;
    if front == "" { assert DigitsValue(front) == 0; }
  }
}
