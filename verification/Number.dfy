/** Exact decimal numbers: the grammar of a JSON number literal (section 6 of
    RFC 8259), the rational it denotes, and the canonical coefficient-and-exponent
    text by which assertion values are compared. */
module Number {
  import opened Basics
  import opened Decimal

  /** The optional exponent part; sign is "", "+" or "-". */
  datatype ExponentPart = ExponentPart(mark: char, sign: string, digits: string)

  datatype Literal = Literal(negative: bool, whole: string, frac: Option<string>, exponent: Option<ExponentPart>) {

    predicate WellFormed() {
      && IsDigits(whole) && whole != "" && (whole[0] == '0' ==> |whole| == 1)
      && (frac.Some? ==> IsDigits(frac.value) && frac.value != "")
      && (exponent.Some? ==>
            && (exponent.value.mark == 'e' || exponent.value.mark == 'E')
            && (exponent.value.sign == "" || exponent.value.sign == "+" || exponent.value.sign == "-")
            && IsDigits(exponent.value.digits) && exponent.value.digits != "")
    }

    function FracDigits(): string {
      if frac.Some? then frac.value else ""
    }

    function Significand(): string {
      whole + if frac.Some? then "." + frac.value else ""
    }

    function ExponentText(): string {
      if exponent.Some? then [exponent.value.mark] + (exponent.value.sign + exponent.value.digits) else ""
    }

    function Text(): string {
      (if negative then "-" else "") + (Significand() + ExponentText())
    }
  }

  type Numeral = l: Literal | l.WellFormed() witness Literal(false, "0", None, None)

  /** A literal denotes (-1)^negative * Coefficient * 10^Scale. */
  function Coefficient(l: Numeral): nat {
    ParseNat(l.whole + l.FracDigits())
  }

  function Exponent(l: Numeral): int {
    if l.exponent.None? then 0
    else
      var n: int := ParseNat(l.exponent.value.digits);
      if l.exponent.value.sign == "-" then -n else n
  }

  function Scale(l: Numeral): int {
    Exponent(l) - |l.FracDigits()|
  }

  ghost function Value(l: Numeral): real {
    Shift(Signed(l.negative, Coefficient(l)), Scale(l))
  }

  /** x * 10^e: the decimal point of x moved e places to the right. */
  ghost function Shift(x: real, e: int): real
    decreases if e < 0 then -e else e
  {
    if e == 0 then x else if e > 0 then Shift(10.0 * x, e - 1) else Shift(x / 10.0, e + 1)
  }

  ghost function Signed(negative: bool, coefficient: nat): real {
    if negative then -(coefficient as real) else coefficient as real
  }

  /** Moves every factor of ten out of the coefficient. */
  function Reduce(coefficient: nat, scale: int): (r: (nat, int))
    requires coefficient > 0
    ensures r.0 > 0
  {
    if coefficient % 10 == 0 then Reduce(coefficient / 10, scale + 1) else (coefficient, scale)
  }

  /** The canonical text of (-1)^negative * coefficient * 10^scale. */
  function Canonical(negative: bool, coefficient: nat, scale: int): string {
    if coefficient == 0 then "0"
    else
      var (c, e) := Reduce(coefficient, scale);
      SignedText(negative, c, e)
  }

  function SignedText(negative: bool, coefficient: nat, scale: int): string {
    (if negative then "-" else "") + (NatString(coefficient) + ("e" + IntString(scale)))
  }

  function Normalized(l: Numeral): string {
    Canonical(l.negative, Coefficient(l), Scale(l))
  }

  // ----- The string algorithm computes the canonical text -----

  function IndexWhere(s: string, p: char -> bool): (i: int)
    ensures -1 <= i < |s|
  {
    if s == "" then -1
    else if p(s[0]) then 0
    else
      var i := IndexWhere(s[1..], p);
      if i < 0 then -1 else i + 1
  }

  function TrimPrefix(s: string, c: char): string {
    if s != "" && s[0] == c then s[1..] else s
  }

  function LeadingZeros(s: string): (k: nat)
    ensures k <= |s| && (forall i :: 0 <= i < k ==> s[i] == '0')
    ensures k < |s| ==> s[k] != '0'
  {
    if s != "" && s[0] == '0' then 1 + LeadingZeros(s[1..]) else 0
  }

  function TrimRightZeros(s: string): (r: string)
    ensures r <= s && (forall i :: |r| <= i < |s| ==> s[i] == '0')
    ensures r != "" ==> r[|r| - 1] != '0'
  {
    if s != "" && s[|s| - 1] == '0' then TrimRightZeros(s[..|s| - 1]) else s
  }

  predicate IsExponentMark(c: char) {
    c == 'e' || c == 'E'
  }

  predicate IsPoint(c: char) {
    c == '.'
  }

  function SignedNat(s: string): int {
    var digits := TrimPrefix(s, '-');
    var n: int := if IsDigits(digits) then ParseNat(digits) else 0;
    if s != "" && s[0] == '-' then -n else n
  }

  method NormalizeNumber(text: string, ghost l: Numeral) returns (r: string)
    requires text == l.Text()
    ensures r == Normalized(l)
  {
    hide *;
    var negative := text != "" && text[0] == '-';
    var s := TrimPrefix(text, '-');
    var exponent := 0;
    var i := IndexWhere(s, IsExponentMark);
    if i >= 0 {
      exponent := SignedNat(TrimPrefix(s[i + 1..], '+'));
      s := s[..i];
    }
    assert negative == l.negative && s == l.Significand() && exponent == Exponent(l) by {
      ExponentCut(l, TrimPrefix(text, '-'), i);
    }
    i := IndexWhere(s, IsPoint);
    if i >= 0 {
      exponent := exponent - (|s| - i - 1);
      s := s[..i] + s[i + 1..];
    }
    assert s == l.whole + l.FracDigits() && exponent == Scale(l) by {
      PointCut(l, l.Significand(), i);
    }
    r := StripZeros(negative, s, exponent, l);
  }

  // The second half of the algorithm: strip zeros at both ends and print.
  method StripZeros(negative: bool, digits: string, scale: int, ghost l: Numeral) returns (r: string)
    requires negative == l.negative && digits == l.whole + l.FracDigits() && scale == Scale(l)
    ensures r == Normalized(l)
  {
    hide *;
    var s := digits[LeadingZeros(digits)..];
    if s == "" {
      NothingLeft(l, digits);
      return "0";
    }
    var trimmed := TrimRightZeros(s);
    var exponent := scale + (|s| - |trimmed|);
    StrippedIsNormalized(l, digits, s, trimmed);
    JoinedIs(negative, trimmed, exponent);
    if negative {
      trimmed := "-" + trimmed;
    }
    r := trimmed + "e" + IntString(exponent);
  }

  lemma JoinedIs(negative: bool, t: string, e: int)
    ensures Joined(negative, t, e) == (if negative then "-" + t else t) + "e" + IntString(e)
  {
  }

  function Joined(negative: bool, t: string, e: int): string {
    (if negative then "-" + t else t) + "e" + IntString(e)
  }

  lemma {:induction false} IndexIs(s: string, p: char -> bool, k: nat)
    requires k <= |s| && (k < |s| ==> p(s[k])) && forall j :: 0 <= j < k ==> !p(s[j])
    ensures IndexWhere(s, p) == if k < |s| then k else -1
  {
    if k > 0 {
      assert s[0] == s[..k][0];
      IndexIs(s[1..], p, k - 1);
    }
  }

  function SignTail(x: ExponentPart): string {
    x.sign + x.digits
  }

  // Cutting at the sign and at the exponent mark recovers the parts of the literal.
  lemma SignCut(l: Numeral)
    ensures var t := l.Text();
      && (t != "" && t[0] == '-' <==> l.negative)
      && TrimPrefix(t, '-') == l.Significand() + l.ExponentText()
  {
    var rest := l.Significand() + l.ExponentText();
    assert rest[0] == l.whole[0] && IsDigit(l.whole[0]);
    if l.negative {
      assert l.Text()[1..] == rest;
    } else {
      assert l.Text() == rest;
    }
  }

  lemma MarkPosition(l: Numeral, s: string)
    requires s == l.Significand() + l.ExponentText()
    ensures IndexWhere(s, IsExponentMark) == if l.exponent.None? then -1 else |l.Significand()|
  {
    var sig := l.Significand();
    forall j | 0 <= j < |sig|
      ensures !IsExponentMark(s[j])
    {
      assert s[j] == sig[j];
      assert IsDigit(sig[j]) || sig[j] == '.';
    }
    IndexIs(s, IsExponentMark, |sig|);
  }

  lemma ExponentCut(l: Numeral, s: string, i: int)
    requires s == TrimPrefix(l.Text(), '-') && i == IndexWhere(s, IsExponentMark)
    ensures l.Text() != "" && l.Text()[0] == '-' <==> l.negative
    ensures i < 0 ==> s == l.Significand() && Exponent(l) == 0
    ensures i >= 0 ==>
      && s[..i] == l.Significand()
      && SignedNat(TrimPrefix(s[i + 1..], '+')) == Exponent(l)
  {
    hide *;
    SignCut(l);
    MarkPosition(l, s);
    ExponentTextIs(l);
    if l.exponent.Some? {
      assert s[i + 1..] == SignTail(l.exponent.value);
    } else {
      assert s == l.Significand();
    }
  }

  lemma ExponentTextIs(l: Numeral)
    ensures l.exponent.None? ==> l.ExponentText() == "" && Exponent(l) == 0
    ensures l.exponent.Some? ==>
      && var tail := SignTail(l.exponent.value);
      && l.ExponentText() == [l.exponent.value.mark] + tail
      && SignedNat(TrimPrefix(tail, '+')) == Exponent(l)
  {
    if l.exponent.Some? {
      ExponentDigits(l.exponent.value);
    }
  }

  lemma ExponentDigits(x: ExponentPart)
    requires x.sign == "" || x.sign == "+" || x.sign == "-"
    requires x.digits != "" && IsDigits(x.digits)
    ensures var d := TrimPrefix(SignTail(x), '+');
      && TrimPrefix(d, '-') == x.digits
      && (d != "" && d[0] == '-' <==> x.sign == "-")
  {
    assert IsDigit(x.digits[0]);
    assert x.sign == "" ==> SignTail(x) == x.digits;
    assert x.sign != "" ==> SignTail(x)[0] == x.sign[0] && SignTail(x)[1..] == x.digits;
  }

  // Cutting at the decimal point joins the digits on either side of it.
  lemma PointCut(l: Numeral, s: string, i: int)
    requires s == l.Significand() && i == IndexWhere(s, IsPoint)
    ensures (if i < 0 then s else s[..i] + s[i + 1..]) == l.whole + l.FracDigits()
    ensures Exponent(l) - (if i < 0 then 0 else |s| - i - 1) == Scale(l)
  {
    assert forall j :: 0 <= j < |l.whole| ==> s[j] == l.whole[j];
    IndexIs(s, IsPoint, |l.whole|);
    if l.frac.Some? {
      assert s[..i] == l.whole && s[i + 1..] == l.frac.value;
    }
  }

  // Digits that are all zeros denote zero.
  lemma NothingLeft(l: Numeral, digits: string)
    requires digits == l.whole + l.FracDigits() && LeadingZeros(digits) == |digits|
    ensures Normalized(l) == "0"
  {
    ParseNatLeading(digits, |digits|);
  }

  // Stripping zeros at both ends of other digits yields the canonical text.
  lemma StrippedIsNormalized(l: Numeral, digits: string, s: string, t: string)
    requires digits == l.whole + l.FracDigits()
    requires s == digits[LeadingZeros(digits)..] && t == TrimRightZeros(s) && s != ""
    ensures Normalized(l) == Joined(l.negative, t, Scale(l) + (|s| - |t|))
  {
    hide *;
    CoefficientIs(l, digits);
    ParseNatLeading(digits, LeadingZeros(digits));
    StrippedIsReduced(s, t, Scale(l));
    var m, e := ParseNat(t), Scale(l) + (|s| - |t|);
    NormalizedIs(l, m, e);
    SignedTextIs(l.negative, m, e, t);
  }

  lemma CoefficientIs(l: Numeral, digits: string)
    requires digits == l.whole + l.FracDigits()
    ensures IsDigits(digits) && IsDigits(digits[LeadingZeros(digits)..])
    ensures Coefficient(l) == ParseNat(digits)
  {
  }

  lemma NormalizedIs(l: Numeral, m: nat, e: int)
    requires Coefficient(l) > 0 && Reduce(Coefficient(l), Scale(l)) == (m, e)
    ensures Normalized(l) == SignedText(l.negative, m, e)
  {
  }

  lemma SignedTextIs(negative: bool, m: nat, e: int, t: string)
    requires NatString(m) == t
    ensures SignedText(negative, m, e) == Joined(negative, t, e)
  {
    var x := IntString(e);
    assert ("-" + t) + "e" + x == "-" + (t + ("e" + x));
    assert t + "e" + x == "" + (t + ("e" + x));
  }

  // Dropping the trailing zeros of a digit string without leading ones is Reduce.
  lemma StrippedIsReduced(s: string, trimmed: string, scale: int)
    requires IsDigits(s) && s != "" && s[0] != '0' && trimmed == TrimRightZeros(s)
    ensures IsDigits(trimmed) && ParseNat(s) > 0 && trimmed != ""
    ensures Reduce(ParseNat(s), scale) == (ParseNat(trimmed), scale + |s| - |trimmed|)
    ensures NatString(ParseNat(trimmed)) == trimmed
  {
    var m, k := ParseNat(trimmed), |s| - |trimmed|;
    assert m > 0 && NatString(m) == trimmed by {
      NatStringParse(trimmed);
    }
    assert m % 10 != 0 by {
      LastDigit(trimmed);
    }
    assert ParseNat(s) == TimesTen(m, k) by {
      ParseNatZeros(s, |trimmed|);
      assert s[..|trimmed|] == trimmed;
    }
    ReducePower(m, k, scale);
  }

  lemma {:induction false} ReduceTen(c: nat, scale: int)
    requires c > 0
    ensures Reduce(10 * c, scale) == Reduce(c, scale + 1)
  {
    var d := 10 * c;
    assert d % 10 == 0 && d / 10 == c;
  }

  lemma {:induction false} ReducePower(c: nat, k: nat, scale: int)
    requires c % 10 != 0
    ensures TimesTen(c, k) > 0 && Reduce(TimesTen(c, k), scale) == (c, scale + k)
  {
    if k > 0 {
      ReducePower(c, k - 1, scale + 1);
      ReduceTen(TimesTen(c, k - 1), scale);
    }
  }

  lemma {:induction false} ReducedForm(c: nat, scale: int)
    requires c > 0
    ensures Reduce(c, scale).0 % 10 != 0
  {
    if c % 10 == 0 {
      ReducedForm(c / 10, scale + 1);
    }
  }

  // ----- Canonical texts agree exactly when the rationals do -----

  lemma {:induction false} ShiftStep(x: real, e: int)
    ensures Shift(10.0 * x, e) == Shift(x, e + 1)
    decreases if e < 0 then -e else e
  {
    if e < -1 {
      ShiftStep(x / 10.0, e + 1);
    }
  }

  lemma {:induction false} ShiftInjective(x: real, y: real, e: int)
    requires Shift(x, e) == Shift(y, e)
    ensures x == y
    decreases if e < 0 then -e else e
  {
    if e > 0 {
      ShiftInjective(10.0 * x, 10.0 * y, e - 1);
    } else if e < 0 {
      ShiftInjective(x / 10.0, y / 10.0, e + 1);
    }
  }

  lemma {:induction false} ShiftZero(e: int)
    ensures Shift(0.0, e) == 0.0
    decreases if e < 0 then -e else e
  {
    if e > 0 {
      ShiftZero(e - 1);
    } else if e < 0 {
      ShiftZero(e + 1);
    }
  }

  lemma {:induction false} ReduceKeepsValue(negative: bool, c: nat, e: int)
    requires c > 0
    ensures var (m, k) := Reduce(c, e); Shift(Signed(negative, m), k) == Shift(Signed(negative, c), e)
  {
    if c % 10 == 0 {
      ReduceKeepsValue(negative, c / 10, e + 1);
      assert Signed(negative, c) == 10.0 * Signed(negative, c / 10);
      ShiftStep(Signed(negative, c / 10), e);
    }
  }

  // Two coefficients free of factors of ten denote the same number only at the same scale.
  lemma {:induction false} ReducedUnique(p: bool, m: nat, e: int, q: bool, n: nat, f: int)
    requires m % 10 != 0 && n > 0 && e <= f
    requires Shift(Signed(p, m), e) == Shift(Signed(q, n), f)
    ensures p == q && m == n && e == f
    decreases f - e
  {
    if e == f {
      ShiftInjective(Signed(p, m), Signed(q, n), e);
    } else {
      ShiftStep(Signed(q, n), f - 1);
      assert Signed(q, 10 * n) == 10.0 * Signed(q, n);
      ReducedUnique(p, m, e, q, 10 * n, f - 1);
    }
  }

  lemma SignedTextInjective(p: bool, m: nat, e: int, q: bool, n: nat, f: int)
    requires SignedText(p, m, e) == SignedText(q, n, f)
    ensures p == q && m == n && e == f
  {
    var s := SignedText(p, m, e);
    assert (s[0] == '-' <==> p) && (s[0] == '-' <==> q);
    var t := if p then s[1..] else s;
    assert t == NatString(m) + ("e" + IntString(e)) == NatString(n) + ("e" + IntString(f));
    DigitPrefix(NatString(m), IntString(e), NatString(n), IntString(f));
    ParseNatString(m);
    ParseNatString(n);
    IntStringInjective(e, f);
  }

  lemma DigitPrefix(a: string, x: string, b: string, y: string)
    requires IsDigits(a) && IsDigits(b) && a + ("e" + x) == b + ("e" + y)
    ensures a == b && x == y
  {
    var t := a + ("e" + x);
    assert t[|a|] == 'e' && t[|b|] == 'e';
    assert forall i :: 0 <= i < |a| ==> t[i] == a[i] != 'e';
    assert forall i :: 0 <= i < |b| ==> t[i] == b[i] != 'e';
    assert |a| == |b|;
    assert a == t[..|a|] == b;
    assert x == t[|a| + 1..] == y;
  }

  /** Main result: two literals normalise to the same text exactly when they denote the same rational. */
  lemma NormalizedIffEqualValue(a: Numeral, b: Numeral)
    ensures Normalized(a) == Normalized(b) <==> Value(a) == Value(b)
  {
    ZeroIsZero(a);
    ZeroIsZero(b);
    if Coefficient(a) > 0 && Coefficient(b) > 0 {
      var (m, e) := Reduce(Coefficient(a), Scale(a));
      var (n, f) := Reduce(Coefficient(b), Scale(b));
      ReduceKeepsValue(a.negative, Coefficient(a), Scale(a));
      ReduceKeepsValue(b.negative, Coefficient(b), Scale(b));
      ReducedForm(Coefficient(a), Scale(a));
      ReducedForm(Coefficient(b), Scale(b));
      if Normalized(a) == Normalized(b) {
        SignedTextInjective(a.negative, m, e, b.negative, n, f);
      }
      if Value(a) == Value(b) {
        if e <= f {
          ReducedUnique(a.negative, m, e, b.negative, n, f);
        } else {
          ReducedUnique(b.negative, n, f, a.negative, m, e);
        }
      }
    }
  }

  lemma ZeroIsZero(l: Numeral)
    ensures Value(l) == 0.0 <==> Coefficient(l) == 0
    ensures Normalized(l) == "0" <==> Coefficient(l) == 0
  {
    ShiftZero(Scale(l));
    if Value(l) == 0.0 {
      ShiftInjective(Signed(l.negative, Coefficient(l)), 0.0, Scale(l));
    }
    if Coefficient(l) > 0 {
      var (m, e) := Reduce(Coefficient(l), Scale(l));
      assert |NatString(m)| + |IntString(e)| >= 2;
    }
  }

  // ----- How the value follows the text -----

  /** 10^n */
  ghost function Power(n: nat): (r: real)
    ensures r > 0.0
  {
    if n == 0 then 1.0 else 10.0 * Power(n - 1)
  }

  lemma {:induction false} ShiftAdds(x: real, a: int, b: int)
    ensures Shift(x, a + b) == Shift(Shift(x, a), b)
    decreases if a < 0 then -a else a
  {
    if a > 0 {
      ShiftAdds(10.0 * x, a - 1, b);
      ShiftStep(x, a + b - 1);
    } else if a < 0 {
      ShiftAdds(x / 10.0, a + 1, b);
      ShiftStep(x / 10.0, a + b);
    }
  }

  lemma {:induction false} ShiftRight(x: real, n: nat)
    ensures Shift(x, n) == x * Power(n)
    decreases n
  {
    if n > 0 {
      ShiftRight(10.0 * x, n - 1);
      Commutes(x, Power(n - 1));
    }
  }

  lemma Commutes(x: real, y: real)
    ensures (10.0 * x) * y == x * (10.0 * y)
  {
  }

  /** Shifting left undoes shifting right. */
  lemma {:induction false} ShiftLeft(x: real, n: nat)
    ensures Shift(x, 0 - n) * Power(n) == x
  {
    ShiftAdds(x, 0 - n, n);
    ShiftRight(Shift(x, 0 - n), n);
  }

  lemma Quotient(x: real, y: real, z: real)
    requires y > 0.0 && z * y == x
    ensures z == x / y
  {
  }

  /** Without fraction and exponent a literal is its digits, with the sign in front. */
  lemma PlainValue(negative: bool, whole: string)
    requires Literal(negative, whole, None, None).WellFormed()
    ensures Value(Literal(negative, whole, None, None))
         == if negative then -(ParseNat(whole) as real) else ParseNat(whole) as real
  {
    assert whole + "" == whole;
  }

  /** The n-th digit behind the point adds its value over 10^n to the magnitude. */
  lemma FractionValue(negative: bool, whole: string, frac: string, digit: char)
    requires IsDigit(digit) && Literal(negative, whole, Some(frac + [digit]), None).WellFormed()
    ensures IsDigits(frac)
    ensures var shorter := Literal(negative, whole, if frac == "" then None else Some(frac), None);
      var part := DigitValue(digit) as real / Power(|frac| + 1);
      Value(Literal(negative, whole, Some(frac + [digit]), None))
        == Value(shorter) + if negative then -part else part
  {
    hide *;
    WithoutLast(negative, whole, frac, digit);
    var shorter: Numeral := Literal(negative, whole, if frac == "" then None else Some(frac), None);
    var longer: Numeral := Literal(negative, whole, Some(frac + [digit]), None);
    UnscaledValue(shorter, frac);
    UnscaledValue(longer, frac + [digit]);
    NextDigit(whole + frac, whole + (frac + [digit]), digit);
    FractionDigit(negative, ParseNat(whole + frac), DigitValue(digit), |frac|);
  }

  lemma WithoutLast(negative: bool, whole: string, frac: string, digit: char)
    requires IsDigit(digit) && Literal(negative, whole, Some(frac + [digit]), None).WellFormed()
    ensures IsDigits(frac)
    ensures var shorter := Literal(negative, whole, if frac == "" then None else Some(frac), None);
      shorter.WellFormed() && shorter.FracDigits() == frac
    ensures Literal(negative, whole, Some(frac + [digit]), None).FracDigits() == frac + [digit]
    ensures whole + (frac + [digit]) == whole + frac + [digit] && |frac + [digit]| == |frac| + 1
  {
    assert forall i :: 0 <= i < |frac| ==> frac[i] == (frac + [digit])[i];
  }

  lemma UnscaledValue(l: Numeral, frac: string)
    requires l.exponent.None? && l.FracDigits() == frac
    ensures IsDigits(l.whole + frac) && Value(l) == Shift(Signed(l.negative, ParseNat(l.whole + frac)), 0 - |frac|)
  {
  }

  lemma FractionDigit(negative: bool, c: nat, d: nat, n: nat)
    ensures var part := d as real / Power(n + 1);
      Shift(Signed(negative, 10 * c + d), 0 - n - 1)
        == Shift(Signed(negative, c), 0 - n) + if negative then -part else part
  {
    hide Shift, Power;
    SignedDigit(negative, c, d);
    FractionShift(Signed(negative, c), Signed(negative, d), n);
    var part := d as real / Power(n + 1);
    Quotient(Signed(negative, d), Power(n + 1), if negative then -part else part);
  }

  lemma NextDigit(s: string, t: string, digit: char)
    requires IsDigits(s) && IsDigit(digit) && t == s + [digit]
    ensures IsDigits(t) && ParseNat(t) == 10 * ParseNat(s) + DigitValue(digit)
  {
    assert t[..|t| - 1] == s;
  }

  lemma SignedDigit(negative: bool, c: nat, d: nat)
    ensures Signed(negative, 10 * c + d) == 10.0 * Signed(negative, c) + Signed(negative, d)
  {
  }

  lemma FractionShift(c: real, d: real, n: nat)
    ensures Shift(10.0 * c + d, 0 - n - 1) == Shift(c, 0 - n) + d / Power(n + 1)
  {
    ShiftLeft(10.0 * c + d, n + 1);
    ShiftLeft(c, n);
    var x, y, p := Shift(10.0 * c + d, 0 - (n + 1)), Shift(c, 0 - n), Power(n);
    assert x * (10.0 * p) == 10.0 * (y * p) + d;
    Commutes(y, p);
    assert (x - y) * (10.0 * p) == d;
    Quotient(d, 10.0 * p, x - y);
  }

  /** An exponent d or +d multiplies by 10^d, an exponent -d divides by it. */
  lemma ExponentValue(l: Numeral, mark: char, sign: string, digits: string)
    requires l.exponent.None? && l.(exponent := Some(ExponentPart(mark, sign, digits))).WellFormed()
    ensures IsDigits(digits)
    ensures var n, v := ParseNat(digits), Value(l.(exponent := Some(ExponentPart(mark, sign, digits))));
      if sign == "-" then v == Value(l) / Power(n) else v == Value(l) * Power(n)
  {
    hide *;
    var long: Numeral := l.(exponent := Some(ExponentPart(mark, sign, digits)));
    ExponentScale(l, mark, sign, digits);
    var n: int, x := ParseNat(digits), Signed(l.negative, Coefficient(l));
    if sign == "-" {
      ShiftAdds(x, Scale(l), 0 - n);
      ShiftLeft(Value(l), n);
      Quotient(Value(l), Power(n), Value(long));
    } else {
      ShiftAdds(x, Scale(l), n);
      ShiftRight(Value(l), n);
    }
  }

  lemma ExponentScale(l: Numeral, mark: char, sign: string, digits: string)
    requires l.exponent.None? && l.(exponent := Some(ExponentPart(mark, sign, digits))).WellFormed()
    ensures IsDigits(digits)
    ensures var long: Numeral, x := l.(exponent := Some(ExponentPart(mark, sign, digits))),
      Signed(l.negative, Coefficient(l));
      && Scale(long) == Scale(l) + (if sign == "-" then 0 - ParseNat(digits) else ParseNat(digits))
      && Value(l) == Shift(x, Scale(l)) && Value(long) == Shift(x, Scale(long))
  {
    hide Shift, ParseNat, Signed;
    assert l.(exponent := Some(ExponentPart(mark, sign, digits))).FracDigits() == l.FracDigits();
  }

  /** The number m * 10^k with the sign in front. */
  ghost function Scientific(negative: bool, m: nat, k: int): real {
    if k >= 0 then Signed(negative, m) * Power(k) else Signed(negative, m) / Power(-k)
  }

  lemma ShiftIsScientific(negative: bool, m: nat, k: int)
    ensures Shift(Signed(negative, m), k) == Scientific(negative, m, k)
  {
    var x := Signed(negative, m);
    if k >= 0 {
      ShiftRight(x, k);
    } else {
      ShiftLeft(x, -k);
      Quotient(x, Power(-k), Shift(x, k));
    }
  }

  /** A canonical text says what number the literal denotes, with no factor of ten left in its digits. */
  lemma NormalizedDenotes(l: Numeral) returns (m: nat, k: int)
    ensures Value(l) == 0.0 ==> Normalized(l) == "0"
    ensures Value(l) != 0.0 ==>
      && m % 10 != 0 && Value(l) == Scientific(l.negative, m, k)
      && Normalized(l) == (if l.negative then "-" else "") + (NatString(m) + ("e" + IntString(k)))
  {
    ZeroIsZero(l);
    m, k := 0, 0;
    if Coefficient(l) > 0 {
      m, k := Reduce(Coefficient(l), Scale(l)).0, Reduce(Coefficient(l), Scale(l)).1;
      ReduceKeepsValue(l.negative, Coefficient(l), Scale(l));
      ReducedForm(Coefficient(l), Scale(l));
      ShiftIsScientific(l.negative, m, k);
    }
  }
}
