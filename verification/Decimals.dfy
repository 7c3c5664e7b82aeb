/** Decimal numerals, plain and zero-padded, and reading them back. */
module Decimals {
  predicate AllDigits(s: string) { forall i :: 0 <= i < |s| ==> '0' <= s[i] <= '9' }

  function Digit(n: nat): (c: char)
    requires n < 10
    ensures '0' <= c <= '9' && c as int - '0' as int == n
  {
    "0123456789"[n]
  }

  function Decimal(n: nat): (s: string)
    ensures s != "" && AllDigits(s)
  {
    if n < 10 then [Digit(n)] else Decimal(n / 10) + [Digit(n % 10)]
  }

  function Number(s: string): nat {
    if s == "" then 0
    else
      var last := s[|s| - 1];
      10 * Number(s[..|s| - 1]) + if '0' <= last <= '9' then last as int - '0' as int else 0
  }

  lemma {:induction false} NumberDecimal(n: nat)
    ensures Number(Decimal(n)) == n
  {
    var s := Decimal(n);
    var front := s[..|s| - 1];
    if n < 10 {
      assert front == "";
    } else {
      NumberDecimal(n / 10);
      assert front == Decimal(n / 10);
    }
  }

  function Zeros(k: nat): (s: string)
    ensures |s| == k && AllDigits(s)
  {
    if k == 0 then "" else Zeros(k - 1) + "0"
  }

  /** Leading zeros up to the width; longer numerals are left alone. */
  function Padded(n: nat, width: nat): (s: string)
    ensures s != "" && AllDigits(s)
  {
    var s := Decimal(n);
    if |s| < width then Zeros(width - |s|) + s else s
  }

  lemma {:induction false} ZerosAreNothing(k: nat, s: string)
    ensures Number(Zeros(k) + s) == Number(s)
    decreases |s| + k
  {
    var all := Zeros(k) + s;
    if s == "" {
      if k > 0 {
        ZerosAreNothing(k - 1, "");
        assert all[..|all| - 1] == Zeros(k - 1) + "";
      }
    } else {
      ZerosAreNothing(k, s[..|s| - 1]);
      assert all[..|all| - 1] == Zeros(k) + s[..|s| - 1];
    }
  }

  lemma NumberPadded(n: nat, width: nat)
    ensures Number(Padded(n, width)) == n
  {
    NumberDecimal(n);
    if |Decimal(n)| < width { ZerosAreNothing(width - |Decimal(n)|, Decimal(n)); }
  }

  lemma TwoDigits(n: nat)
    requires n < 100
    ensures |Padded(n, 2)| == 2
  {
    if n >= 10 { assert |Decimal(n / 10)| == 1; }
  }

  lemma FourDigits(n: nat)
    requires n < 10000
    ensures |Padded(n, 4)| == 4
  {
    DecimalLength(n);
  }

  lemma DecimalLength(n: nat)
    requires n < 10000
    ensures |Decimal(n)| == if n < 10 then 1 else if n < 100 then 2 else if n < 1000 then 3 else 4
  {
    if n >= 10 { DecimalLength(n / 10); }
  }
}
