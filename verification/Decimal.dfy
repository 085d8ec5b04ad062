/** strconv.Itoa and strconv.Atoi. File names, set names and authorization all go through them. */
module Decimal {
  import opened Wrappers

  // A Go int on the 64-bit targets the daemon is built for.
  predicate InInt64(n: int) {
    -0x8000_0000_0000_0000 <= n < 0x8000_0000_0000_0000
  }

  predicate IsDigit(c: char) {
    '0' <= c <= '9'
  }

  predicate AllDigits(s: string) {
    forall i :: 0 <= i < |s| ==> IsDigit(s[i])
  }

  function Digit(n: nat): (c: char)
    requires n < 10
    ensures IsDigit(c) && c as int - '0' as int == n
  {
    '0' + n as char
  }

  function NatToDecimal(n: nat): (s: string)
    ensures s != "" && AllDigits(s)
  {
    if n < 10 then [Digit(n)] else NatToDecimal(n / 10) + [Digit(n % 10)]
  }

  function Itoa(n: int): string {
    if n < 0 then "-" + NatToDecimal(-n) else NatToDecimal(n)
  }

  function DecimalValue(s: string): nat
    requires AllDigits(s)
  {
    if s == "" then 0 else 10 * DecimalValue(s[..|s| - 1]) + (s[|s| - 1] as int - '0' as int)
  }

  // An optional sign, at least one digit and nothing else, and a value that fits.
  function Atoi(s: string): Option<int> {
    var signed := s != "" && (s[0] == '-' || s[0] == '+');
    var digits := if signed then s[1..] else s;
    if digits == "" || !AllDigits(digits) then None
    else
      var magnitude: int := DecimalValue(digits);
      var v := if s[0] == '-' then -magnitude else magnitude;
      if InInt64(v) then Some(v) else None
  }

  lemma {:induction false} DecimalValueOfDecimal(n: nat)
    ensures DecimalValue(NatToDecimal(n)) == n
  {
    if n < 10 {
      assert NatToDecimal(n)[..0] == "";
    } else {
      DecimalValueOfDecimal(n / 10);
      assert NatToDecimal(n)[..|NatToDecimal(n)| - 1] == NatToDecimal(n / 10);
    }
  }

  lemma AtoiInvertsItoa(n: int)
    requires InInt64(n)
    ensures Atoi(Itoa(n)) == Some(n)
  {
    if n < 0 {
      DecimalValueOfDecimal(-n);
      assert Itoa(n)[1..] == NatToDecimal(-n);
    } else {
      DecimalValueOfDecimal(n);
      assert IsDigit(NatToDecimal(n)[0]);
    }
  }

  lemma ItoaInjective(a: int, b: int)
    requires Itoa(a) == Itoa(b)
    ensures a == b
  {
    assert a < 0 || IsDigit(Itoa(a)[0]);
    assert b < 0 || IsDigit(Itoa(b)[0]);
    if a < 0 {
      assert Itoa(a)[1..] == NatToDecimal(-a) && Itoa(b)[1..] == NatToDecimal(-b);
      DecimalValueOfDecimal(-a);
      DecimalValueOfDecimal(-b);
    } else {
      DecimalValueOfDecimal(a);
      DecimalValueOfDecimal(b);
    }
  }

  function Pow10(k: nat): nat {
    if k == 0 then 1 else 10 * Pow10(k - 1)
  }

  lemma {:induction false} DecimalLength(n: nat, k: nat)
    requires k >= 1 && n < Pow10(k)
    ensures |NatToDecimal(n)| <= k
  {
    if n >= 10 && k > 1 {
      DecimalLength(n / 10, k - 1);
    }
  }

  // A plus sign and leading zeros are accepted too; nothing without digits is.
  lemma AtoiForgives(n: nat)
    requires InInt64(n)
    ensures Atoi("+" + NatToDecimal(n)) == Some(n) && Atoi("0" + NatToDecimal(n)) == Some(n)
    ensures Atoi("") == Atoi("+") == Atoi("-") == None
  {
    DecimalValueOfDecimal(n);
    LeadingZero(NatToDecimal(n));
    assert ("+" + NatToDecimal(n))[1..] == NatToDecimal(n);
  }

  lemma {:induction false} LeadingZero(s: string)
    requires AllDigits(s)
    ensures AllDigits("0" + s) && DecimalValue("0" + s) == DecimalValue(s)
  {
    if s != "" {
      assert ("0" + s)[..|s|] == "0" + s[..|s| - 1];
      LeadingZero(s[..|s| - 1]);
    } else {
      assert "0" + s == "0" && "0"[..0] == "";
    }
  }
}
