/** Numbers in decimal digits, without a sign. */
module Decimals {
  function Digit(d: nat): char
    requires d < 10
  {
    (48 + d) as char
  }

  function Decimal(n: nat): (r: string)
    ensures r != "" && Digits(r)
  {
    if n < 10 then [Digit(n)] else Decimal(n / 10) + [Digit(n % 10)]
  }

  predicate Digits(s: string) {
    forall i :: 0 <= i < |s| ==> '0' <= s[i] <= '9'
  }

  function Number(s: string): nat
    requires Digits(s)
  {
    if s == "" then 0 else Number(s[..|s| - 1]) * 10 + (s[|s| - 1] as nat - '0' as nat)
  }

  function Power10(k: nat): nat {
    if k == 0 then 1 else 10 * Power10(k - 1)
  }

  lemma {:induction false} DecimalIsShort(n: nat, k: nat)
    requires k > 0 && n < Power10(k)
    ensures |Decimal(n)| <= k
  {
    if n >= 10 {
      DecimalIsShort(n / 10, k - 1);
    }
  }

  /** Reading a written number gives it back, and it has no leading zero. */
  lemma {:induction false} NumberOfDecimal(n: nat)
    ensures Number(Decimal(n)) == n
    ensures |Decimal(n)| > 1 ==> Decimal(n)[0] != '0'
  {
    if n >= 10 {
      NumberOfDecimal(n / 10);
      var front := Decimal(n / 10);
      assert Decimal(n)[..|front|] == front;
      if |front| == 1 {
        assert Number(front[..0]) == 0;
      }
    } else {
      assert Number(Decimal(n)[..0]) == 0;
    }
  }

  lemma {:induction false} NumberIsPositive(s: string)
    requires Digits(s) && s != "" && s[0] != '0'
    ensures Number(s) > 0
  {
    if |s| > 1 {
      NumberIsPositive(s[..|s| - 1]);
    }
  }

  /** Digits without a leading zero are what is written for their number. */
  lemma {:induction false} DecimalOfNumber(s: string)
    requires Digits(s) && s != "" && (|s| > 1 ==> s[0] != '0')
    ensures Decimal(Number(s)) == s
  {
    var front := s[..|s| - 1];
    if |s| > 1 {
      NumberIsPositive(front);
      DecimalOfNumber(front);
    } else {
      assert Number(front) == 0;
    }
    assert s == front + [s[|s| - 1]];
  }

  lemma DecimalIsInjective(n: nat, m: nat)
    ensures Decimal(n) == Decimal(m) ==> n == m
  {
    NumberOfDecimal(n);
    NumberOfDecimal(m);
  }

  lemma SomeDecimals()
    ensures Decimal(0) == "0" && Decimal(2) == "2" && Decimal(10) == "10" && Decimal(255) == "255"
  {
    assert Decimal(25) == "25";
  }
}
