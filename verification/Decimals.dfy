/** Decimal text of natural numbers. */
module Decimals {
  predicate IsDigit(c: char) {
    '0' <= c <= '9'
  }

  function Number(digits: string): nat {
    if digits == "" then 0 else
    var d := digits[|digits| - 1];
    10 * Number(digits[..|digits| - 1]) + if IsDigit(d) then d as int - '0' as int else 0
  }

  predicate AllDigits(s: string) {
    forall i :: 0 <= i < |s| ==> IsDigit(s[i])
  }

  function Decimal(n: nat): (s: string)
    ensures s != "" && AllDigits(s)
  {
    var last := [(n % 10) as char + '0'];
    if n < 10 then last else Decimal(n / 10) + last
  }

  lemma {:induction false} DecimalInverts(n: nat)
    ensures Number(Decimal(n)) == n
    ensures n > 0 ==> Decimal(n)[0] != '0'
    ensures n <= 255 ==> |Decimal(n)| <= 3
  {
    var s := Decimal(n);
    var d := (n % 10) as char + '0';
    if n < 10 {
      assert s[..0] == "" && Number("") == 0;
    } else {
      DecimalInverts(n / 10);
      assert s[..|s| - 1] == Decimal(n / 10) && s[|s| - 1] == d;
      if n <= 255 {
        if n < 100 {
          assert |Decimal(n / 10)| == 1;
        } else {
          assert |Decimal(n / 10 / 10)| == 1;
        }
      }
    }
  }
}
