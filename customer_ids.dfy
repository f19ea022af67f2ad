/**
 * Customer identifiers: `f"CUS{n:06d}"`, where `n` is one more than the number
 * of rows the customer table held before the record was added.
 */
module CustomerIds {
  import opened Outcomes

  predicate IsDigit(c: char) {
    '0' <= c <= '9'
  }

  predicate AllDigits(s: string) {
    forall i :: 0 <= i < |s| ==> IsDigit(s[i])
  }

  function DigitChar(d: nat): (c: char)
    requires d < 10
    ensures IsDigit(c) && (c as int) - ('0' as int) == d
  {
    (('0' as int) + d) as char
  }

  /** `str(n)` for a non-negative integer: decimal digits, no leading zero. */
  function Decimal(n: nat): (s: string)
    ensures |s| >= 1 && AllDigits(s)
    ensures n > 0 ==> s[0] != '0'
  {
    if n < 10 then [DigitChar(n)] else Decimal(n / 10) + [DigitChar(n % 10)]
  }

  /** The format spec `06d`: left-pad with '0' up to six characters; longer numbers keep all their digits. */
  function ZeroPad(s: string, width: nat): (r: string)
    ensures |r| == if |s| >= width then |s| else width
    decreases width - |s|
  {
    if |s| >= width then s else ZeroPad("0" + s, width)
  }

  /** Padding only adds zeros in front: the digits themselves come last, unchanged. */
  lemma {:induction false} ZeroPadShape(s: string, width: nat)
    ensures var r := ZeroPad(s, width);
      && r[|r| - |s|..] == s
      && forall i :: 0 <= i < |r| - |s| ==> r[i] == '0'
    decreases width - |s|
  {
    if |s| < width {
      ZeroPadShape("0" + s, width);
    }
  }

  function CustomerId(n: nat): (id: string)
    ensures |id| >= 9 && id[..3] == "CUS" && AllDigits(id[3..])
  {
    ZeroPadValue(Decimal(n), 6);
    "CUS" + ZeroPad(Decimal(n), 6)
  }

  /** The number a string of decimal digits denotes. */
  function DigitsValue(s: string): nat
    requires AllDigits(s)
  {
    if s == [] then 0
    else 10 * DigitsValue(s[..|s| - 1]) + ((s[|s| - 1] as int) - ('0' as int))
  }

  /** The sequence number a customer id carries, read back from its digits. */
  function ParseCustomerId(id: string): (n: Option<nat>)
  {
    if |id| >= 3 && id[..3] == "CUS" && AllDigits(id[3..]) then Some(DigitsValue(id[3..]))
    else None
  }

  lemma {:induction false} DecimalValue(n: nat)
    ensures DigitsValue(Decimal(n)) == n
  {
    if n >= 10 {
      var s := Decimal(n);
      assert s[..|s| - 1] == Decimal(n / 10);
      DecimalValue(n / 10);
    }
  }

  /** A leading zero does not change the value of a digit string. */
  lemma {:induction false} LeadingZeroValue(s: string)
    requires AllDigits(s)
    ensures AllDigits("0" + s) && DigitsValue("0" + s) == DigitsValue(s)
    decreases |s|
  {
    if s != [] {
      var z := "0" + s;
      assert z[..|z| - 1] == "0" + s[..|s| - 1];
      assert z[|z| - 1] == s[|s| - 1];
      LeadingZeroValue(s[..|s| - 1]);
    }
  }

  lemma {:induction false} ZeroPadValue(s: string, width: nat)
    requires AllDigits(s)
    ensures AllDigits(ZeroPad(s, width)) && DigitsValue(ZeroPad(s, width)) == DigitsValue(s)
    decreases width - |s|
  {
    if |s| < width {
      LeadingZeroValue(s);
      ZeroPadValue("0" + s, width);
    }
  }

  /** Reading an id back gives the number it was made from. */
  lemma CustomerIdRoundTrip(n: nat)
    ensures ParseCustomerId(CustomerId(n)) == Some(n)
  {
    var id := CustomerId(n);
    assert id[3..] == ZeroPad(Decimal(n), 6);
    ZeroPadValue(Decimal(n), 6);
    DecimalValue(n);
  }

  /** Distinct sequence numbers give distinct ids. */
  lemma CustomerIdInjective(m: nat, n: nat)
    ensures CustomerId(m) == CustomerId(n) <==> m == n
  {
    if CustomerId(m) == CustomerId(n) {
      CustomerIdRoundTrip(m);
      CustomerIdRoundTrip(n);
    }
  }

  function Pow10(k: nat): (p: nat)
    ensures p >= 1
  {
    if k == 0 then 1 else 10 * Pow10(k - 1)
  }

  /** A number has at most `k` digits exactly when it is below ten to the `k`. */
  lemma {:induction false} DecimalLength(n: nat, k: nat)
    requires k >= 1
    ensures |Decimal(n)| <= k <==> n < Pow10(k)
    decreases n
  {
    if n >= 10 {
      assert |Decimal(n)| == |Decimal(n / 10)| + 1;
      if k == 1 {
        assert Pow10(1) == 10;
      } else {
        DecimalLength(n / 10, k - 1);
      }
    } else {
      assert Pow10(k) >= 10 by {
        assert Pow10(k) == 10 * Pow10(k - 1);
      }
    }
  }

  /** Below a million the id is exactly "CUS" and six digits; from a million on it grows. */
  lemma CustomerIdWidth(n: nat)
    ensures |CustomerId(n)| == 9 <==> n < 1000000
  {
    DecimalLength(n, 6);
    assert Pow10(6) == 1000000;
  }

  lemma CustomerIdExamples()
    ensures CustomerId(1) == "CUS000001"
    ensures CustomerId(2) == "CUS000002"
    ensures CustomerId(42) == "CUS000042"
  {
    assert Decimal(1) == "1";
    ZeroPadShape("1", 6);
    assert Decimal(2) == "2";
    ZeroPadShape("2", 6);
    assert Decimal(42) == "42";
    ZeroPadShape("42", 6);
  }
}
