/** Decimal digit strings and the non-negative integers they denote. */
module Decimal {

  predicate IsDigit(c: char) {
    '0' <= c <= '9'
  }

  predicate IsDigits(s: string) {
    forall i :: 0 <= i < |s| ==> IsDigit(s[i])
  }

  function DigitValue(c: char): (d: nat)
    requires IsDigit(c)
    ensures d < 10
  {
    c as int - '0' as int
  }

  function DigitChar(d: nat): (c: char)
    requires d < 10
    ensures IsDigit(c) && DigitValue(c) == d
  {
    ('0' as int + d) as char
  }

  function ParseNat(s: string): nat
    requires IsDigits(s)
  {
    if s == "" then 0 else 10 * ParseNat(s[..|s| - 1]) + DigitValue(s[|s| - 1])
  }

  function NatString(n: nat): (s: string)
    ensures s != "" && IsDigits(s)
    ensures s[0] == '0' ==> n == 0
  {
    if n < 10 then [DigitChar(n)] else NatString(n / 10) + [DigitChar(n % 10)]
  }

  function IntString(n: int): string {
    if n < 0 then "-" + NatString(-n) else NatString(n)
  }

  /** c * 10^k */
  function TimesTen(c: nat, k: nat): nat {
    if k == 0 then c else 10 * TimesTen(c, k - 1)
  }

  lemma {:induction false} ParseNatString(n: nat)
    ensures ParseNat(NatString(n)) == n
  {
    var s := NatString(n);
    if n < 10 {
      assert s[..0] == "";
    } else {
      ParseNatString(n / 10);
      assert s[..|s| - 1] == NatString(n / 10);
    }
  }

  lemma LastDigit(s: string)
    requires IsDigits(s) && s != ""
    ensures ParseNat(s) % 10 == DigitValue(s[|s| - 1])
  {
  }

  // A digit string with no leading zero is the printed form of its value.
  lemma {:induction false} NatStringParse(s: string)
    requires IsDigits(s) && s != "" && (s[0] != '0' || |s| == 1)
    ensures NatString(ParseNat(s)) == s
    ensures s[0] != '0' ==> ParseNat(s) > 0
  {
    var init := s[..|s| - 1];
    if |s| == 1 {
      assert init == "";
      assert [DigitChar(DigitValue(s[0]))] == s;
    } else {
      assert init[0] == s[0];
      NatStringParse(init);
      assert s == init + [s[|s| - 1]];
      assert ParseNat(s) / 10 == ParseNat(init);
      assert ParseNat(s) % 10 == DigitValue(s[|s| - 1]);
    }
  }

  lemma IntStringInjective(a: int, b: int)
    requires IntString(a) == IntString(b)
    ensures a == b
  {
    var m, n := if a < 0 then -a else a, if b < 0 then -b else b;
    ParseNatString(m);
    ParseNatString(n);
    assert (IntString(a)[0] == '-' <==> a < 0) && (IntString(b)[0] == '-' <==> b < 0);
    if a < 0 {
      assert IntString(a)[1..] == NatString(m) && IntString(b)[1..] == NatString(n);
    }
  }

  // Each trailing zero multiplies by ten.
  lemma {:induction false} ParseNatZeros(s: string, k: nat)
    requires IsDigits(s) && k <= |s| && forall i :: k <= i < |s| ==> s[i] == '0'
    ensures ParseNat(s) == TimesTen(ParseNat(s[..k]), |s| - k)
    decreases |s|
  {
    if k == |s| {
      assert s[..k] == s;
    } else {
      var init := s[..|s| - 1];
      ParseNatZeros(init, k);
      assert init[..k] == s[..k];
    }
  }

  // Leading zeros carry no value.
  lemma {:induction false} ParseNatLeading(s: string, k: nat)
    requires IsDigits(s) && k <= |s| && forall i :: 0 <= i < k ==> s[i] == '0'
    ensures ParseNat(s) == ParseNat(s[k..])
    decreases |s|
  {
    if k == |s| {
      if k > 0 {
        assert s[..|s| - 1][k - 1..] == "";
        ParseNatLeading(s[..|s| - 1], k - 1);
      }
    } else {
      var init := s[..|s| - 1];
      ParseNatLeading(init, k);
      assert s[k..][..|s| - k - 1] == init[k..];
    }
  }
}
