// Decimal numbers as C prints and scans them.
module Decimal {

  predicate IsDigit(c: char)
  {
    '0' <= c <= '9'
  }

  function Digits(n: nat): (s: string)
    ensures s != "" && forall i :: 0 <= i < |s| ==> IsDigit(s[i])
  {
    (if n < 10 then "" else Digits(n / 10)) + ['0' + (n % 10) as char]
  }

  function Value(s: string, acc: nat): (n: nat)
  {
    if s == "" || !IsDigit(s[0]) then acc else Value(s[1..], 10 * acc + (s[0] - '0') as nat)
  }

  lemma {:induction false} ValueOfDigits(n: nat, rest: string)
    ensures Value(Digits(n) + rest, 0) == Value(rest, n)
  {
    var d := '0' + (n % 10) as char;
    assert ([d] + rest)[1..] == rest;
    if n < 10 {
      assert Digits(n) + rest == [d] + rest;
    } else {
      assert Digits(n) + rest == Digits(n / 10) + ([d] + rest);
      ValueOfDigits(n / 10, [d] + rest);
    }
  }
}
