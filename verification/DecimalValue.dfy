/** What the exact decimals of Numbers are worth as real numbers, and that equal worth means equal
    decimals. */
module DecimalValue {
  import opened Text
  import opened Numbers

  function Power(n: nat): (r: nat)
    ensures r > 0
  {
    if n == 0 then 1 else 10 * Power(n - 1)
  }

  /** m * 10^e */
  function Scaled(m: nat, e: int): real {
    if e >= 0 then (m * Power(e)) as real
    else m as real / Power(-e) as real
  }

  function RealOf(d: Decimal): real
    requires IsNormal(d)
  {
    var v := Scaled(StringToNat(d.digits), d.point - |d.digits|);
    if d.neg then -v else v
  }

  // ---------- Scaling ----------

  lemma Product(a: real, b: real, c: real)
    requires b > 0.0 && a * b == c * b
    ensures a == c
  {
    assert (a - c) * b == 0.0;
  }

  lemma Quotient(m: real, q: real)
    requires q > 0.0
    ensures (10.0 * m) / (10.0 * q) == m / q
  {
    var x, y := m / q, (10.0 * m) / (10.0 * q);
    assert x * q == m && y * (10.0 * q) == 10.0 * m;
    assert y * q == m;
    Product(x, q, y);
  }

  /** Scaled(m, 0) is m, and a zero at the end of the mantissa is worth one in the exponent. */
  lemma ScaledShift(m: nat, e: int)
    ensures Scaled(m, 0) == m as real
    ensures Scaled(10 * m, e) == Scaled(m, e + 1)
  {
    if e < 0 {
      var q := Power(-e - 1) as real;
      assert Power(-e) as real == 10.0 * q && (10 * m) as real == 10.0 * m as real;
      Quotient(m as real, q);
      if e == -1 { assert m as real / 1.0 == m as real; }
    }
  }

  lemma {:induction false} ScaledBy(m: nat, k: nat, e: int)
    ensures Scaled(m * Power(k), e) == Scaled(m, e + k)
    decreases k
  {
    if k > 0 {
      assert m * Power(k) == 10 * (m * Power(k - 1));
      ScaledShift(m * Power(k - 1), e);
      ScaledBy(m, k - 1, e + 1);
    }
  }

  lemma ScaledInjective(m: nat, n: nat, e: int)
    requires Scaled(m, e) == Scaled(n, e)
    ensures m == n
  {
    if e >= 0 {
      assert m * Power(e) == n * Power(e);
      assert (m - n) * Power(e) == 0;
    } else {
      var p := Power(-e) as real;
      assert m as real / p * p == m as real && n as real / p * p == n as real;
    }
  }

  lemma SignOfFactor(x: real, p: real)
    requires p > 0.0
    ensures (x * p >= 0.0 ==> x >= 0.0) && (x * p > 0.0 ==> x > 0.0)
  {
  }

  lemma ScaledPositive(m: nat, e: int)
    ensures Scaled(m, e) >= 0.0 && (m > 0 ==> Scaled(m, e) > 0.0)
  {
    if e < 0 {
      var p := Power(-e) as real;
      var x := m as real / p;
      assert x * p == m as real;
      SignOfFactor(x, p);
    } else if m > 0 {
      assert m * Power(e) > 0;
    }
  }

  // ---------- Digits ----------

  lemma {:induction false} LeadingZero(ds: string)
    requires AllDigits(ds) && ds != "" && ds[0] == '0'
    ensures StringToNat(ds) == StringToNat(ds[1..])
  {
    var n := |ds| - 1;
    if n == 0 {
      assert ds[..0] == "" && ds[1..] == "";
    } else {
      LeadingZero(ds[..n]);
      assert ds[1..][..n - 1] == ds[..n][1..] && ds[1..][n - 1] == ds[n];
    }
  }

  lemma TrailingZero(ds: string)
    requires AllDigits(ds) && ds != "" && ds[|ds| - 1] == '0'
    ensures StringToNat(ds) == 10 * StringToNat(ds[..|ds| - 1])
  {
  }

  /** The worth of +/- 0.ds * 10^point. */
  function Worth(neg: bool, ds: string, point: int): real
    requires AllDigits(ds)
  {
    var v := Scaled(StringToNat(ds), point - |ds|);
    if neg then -v else v
  }

  lemma DropLeading(neg: bool, ds: string, point: int)
    requires AllDigits(ds) && ds != "" && ds[0] == '0'
    ensures Worth(neg, ds[1..], point - 1) == Worth(neg, ds, point)
  {
    hide Scaled, StringToNat;
    LeadingZero(ds);
  }

  lemma DropTrailing(neg: bool, ds: string, point: int)
    requires AllDigits(ds) && ds != "" && ds[|ds| - 1] == '0'
    ensures Worth(neg, ds[..|ds| - 1], point) == Worth(neg, ds, point)
  {
    hide Scaled, StringToNat;
    TrailingZero(ds);
    ScaledShift(StringToNat(ds[..|ds| - 1]), point - |ds|);
  }

  /** Stripping zeros keeps the worth. */
  lemma {:induction false} NormalIsWorth(neg: bool, ds: string, point: int)
    requires AllDigits(ds)
    ensures RealOf(Normal(neg, ds, point)) == Worth(neg, ds, point)
    decreases |ds|
  {
    hide Worth, RealOf;
    if ds == "" {
      WorthOfNothing(point);
      assert Worth(neg, ds, point) == 0.0 by { WorthOfNoDigits(neg, point); }
    } else if ds[0] == '0' {
      NormalIsWorth(neg, ds[1..], point - 1);
      DropLeading(neg, ds, point);
    } else if ds[|ds| - 1] == '0' {
      NormalIsWorth(neg, ds[..|ds| - 1], point);
      DropTrailing(neg, ds, point);
    } else {
      SignificantWorth(neg, ds, point);
    }
  }

  lemma WorthOfNoDigits(neg: bool, point: int)
    ensures Worth(neg, "", point) == 0.0
  {
    WorthOfNothing(point);
  }

  lemma SignificantWorth(neg: bool, ds: string, point: int)
    requires AllDigits(ds) && ds != "" && ds[0] != '0' && ds[|ds| - 1] != '0'
    ensures RealOf(Normal(neg, ds, point)) == Worth(neg, ds, point)
  {
    hide Scaled, StringToNat;
    NormalKeeps(neg, ds, point);
  }

  lemma WorthOfNothing(e: int)
    ensures Scaled(0, e) == 0.0 && RealOf(Decimal(false, "", 0)) == 0.0
  {
  }

  lemma {:induction false} SignificantIsPositive(ds: string)
    requires AllDigits(ds) && ds != "" && ds[0] != '0'
    ensures StringToNat(ds) > 0
  {
    var n := |ds| - 1;
    if n > 0 { SignificantIsPositive(ds[..n]); }
  }

  /** Only negative decimals are worth less than nothing. */
  lemma NegativeIff(d: Decimal)
    requires IsNormal(d)
    ensures RealOf(d) < 0.0 <==> d.neg
  {
    ScaledPositive(StringToNat(d.digits), d.point - |d.digits|);
    if d.digits != "" { SignificantIsPositive(d.digits); }
  }

  /** Numerals without a leading zero are determined by their number. */
  lemma {:induction false} NumeralOf(ds: string)
    requires AllDigits(ds) && ds != "" && ds[0] != '0'
    ensures NatToString(StringToNat(ds)) == ds
  {
    var n := |ds| - 1;
    var last := DigitValue(ds[n]);
    assert ds == ds[..n] + [ds[n]] && DigitChar(last) == ds[n];
    if n == 0 {
      assert ds[..0] == "" && StringToNat(ds) == last;
    } else {
      NumeralOf(ds[..n]);
      SignificantIsPositive(ds[..n]);
      var m := StringToNat(ds[..n]);
      assert StringToNat(ds) / 10 == m && StringToNat(ds) % 10 == last;
    }
  }

  lemma TenDivides(n: nat, k: nat)
    ensures k > 0 ==> (n * Power(k)) % 10 == 0
  {
    if k > 0 {
      assert n * Power(k) == 10 * (n * Power(k - 1));
    }
  }

  lemma SameMantissa(m: nat, e: int, n: nat, f: int)
    requires m % 10 != 0 && n % 10 != 0 && e <= f && Scaled(m, e) == Scaled(n, f)
    ensures m == n && e == f
  {
    var k := f - e;
    ScaledBy(n, k, e);
    ScaledInjective(m, n * Power(k), e);
    TenDivides(n, k);
  }

  lemma LastDigitCounts(ds: string)
    requires AllDigits(ds) && ds != "" && ds[|ds| - 1] != '0'
    ensures StringToNat(ds) % 10 != 0
  {
  }

  lemma SameMagnitude(a: Decimal, b: Decimal)
    requires IsNormal(a) && IsNormal(b) && a.digits != "" && b.digits != ""
    requires Scaled(StringToNat(a.digits), a.point - |a.digits|) == Scaled(StringToNat(b.digits), b.point - |b.digits|)
    ensures a.digits == b.digits && a.point == b.point
  {
    LastDigitCounts(a.digits);
    LastDigitCounts(b.digits);
    var m, e, n, f := StringToNat(a.digits), a.point - |a.digits|, StringToNat(b.digits), b.point - |b.digits|;
    if e <= f { SameMantissa(m, e, n, f); } else { SameMantissa(n, f, m, e); }
    NumeralOf(a.digits);
    NumeralOf(b.digits);
  }

  /** Decimals in normal form are equal exactly when they are worth the same. */
  lemma EqualIffSameWorth(a: Decimal, b: Decimal)
    requires IsNormal(a) && IsNormal(b)
    ensures a == b <==> RealOf(a) == RealOf(b)
  {
    if RealOf(a) == RealOf(b) {
      NegativeIff(a);
      NegativeIff(b);
      ScaledPositive(StringToNat(a.digits), a.point - |a.digits|);
      ScaledPositive(StringToNat(b.digits), b.point - |b.digits|);
      WorthOfNothing(0);
      if a.digits != "" { SignificantIsPositive(a.digits); }
      if b.digits != "" { SignificantIsPositive(b.digits); }
      if a.digits != "" && b.digits != "" { SameMagnitude(a, b); }
    }
  }

  // ---------- What a text is worth ----------

  /** A sign stands at the end of the text, white space aside. */
  ghost predicate EndsWithSign(pre: string) {
    exists k :: 0 <= k < |pre| && pre[k] in "△▽−–-" && forall l :: k < l < |pre| ==> IsSpace(pre[l])
  }

  lemma EndsNegativeIff(pre: string)
    ensures EndsNegative(pre) <==> EndsWithSign(pre)
  {
    var i, j := StripSplits(pre);
    var p := Strip(pre);
    SignsAreVisible();
    hide Strip, IsSpace;
    if EndsNegative(pre) {
      assert pre[j - 1] == p[|p| - 1];
      assert EndsWithSign(pre);
    }
    if EndsWithSign(pre) {
      var k :| 0 <= k < |pre| && pre[k] in "△▽−–-" && forall l :: k < l < |pre| ==> IsSpace(pre[l]);
      assert i <= k < j;
      assert k == j - 1;
      assert p[|p| - 1] == pre[k];
    }
  }

  lemma SignsAreVisible()
    ensures forall c :: c in "△▽−–-" ==> !IsSpace(c)
  {
  }

  /** The number begins at the first digit, or at a hyphen right before it. */
  lemma {:induction false} StartAfter(pre: string, body: string)
    requires (forall i :: 0 <= i < |pre| ==> !IsDigit(pre[i])) && body != "" && IsDigit(body[0])
    ensures NumberStart(pre + body)
         == Some(if pre != "" && pre[|pre| - 1] == '-' then |pre| - 1 else |pre|)
  {
    var s := pre + body;
    if pre == "" {
      assert s == body;
    } else {
      assert s[0] == pre[0] && s[1..] == pre[1..] + body;
      if |pre| == 1 { assert s[1] == body[0]; } else { assert s[1] == pre[1]; }
      StartAfter(pre[1..], body);
    }
  }

  lemma SignedAfter(pre: string, body: string)
    requires (forall i :: 0 <= i < |pre| ==> !IsDigit(pre[i])) && body != "" && IsDigit(body[0])
    ensures SignedNumber(pre + body) == Some(ReadUnsigned(body, EndsWithSign(pre)))
  {
    StartAfter(pre, body);
    EndsNegativeIff(pre);
    hide ReadUnsigned, NumberStart, EndsNegative;
    var token, n := pre + body, |pre|;
    if pre != "" && pre[n - 1] == '-' {
      assert token[n - 1..][1..] == body && token[n - 1] == '-';
      assert EndsWithSign(pre);
    } else {
      assert token[n..] == body && token[..n] == pre && token[n] == body[0];
    }
  }

  /** Text without a digit holds no number. */
  lemma {:induction false} NoDigitNoNumber(s: string)
    requires forall i :: 0 <= i < |s| ==> !IsDigit(s[i])
    ensures SignedNumber(s).None?
  {
    NoStart(s);
  }

  lemma {:induction false} NoStart(s: string)
    requires forall i :: 0 <= i < |s| ==> !IsDigit(s[i])
    ensures NumberStart(s).None?
  {
    if s != "" { NoStart(s[1..]); }
  }

  /** What signed_number reads: after text without a digit, the digits and the fraction, with a minus when
      a sign, △ among them, stands before the digits, white space aside. */
  lemma SignedNumberIsWorth(pre: string, ints: string, frac: string, rest: string)
    requires forall i :: 0 <= i < |pre| ==> !IsDigit(pre[i])
    requires ints != "" && AllDigits(ints) && AllDigits(frac)
    requires rest == "" || (!IsDigit(rest[0]) && rest[0] != ',' && rest[0] != '.')
    ensures AllDigits(ints + frac)
    ensures var r := SignedNumber(pre + (ints + ((if frac == "" then "" else "." + frac) + rest)));
      r.Some? && var v := StringToNat(ints + frac) as real / Power(|frac|) as real;
                 RealOf(r.value) == if EndsWithSign(pre) then -v else v
  {
    var body := ints + (Fraction(frac) + rest);
    ReadPrinted(ints, frac, rest, EndsWithSign(pre));
    SignedAfter(pre, body);
    NormalIsWorth(EndsWithSign(pre), ints + frac, |ints|);
    ScaledDown(StringToNat(ints + frac), |frac|);
    hide SignedNumber, ReadUnsigned, Normal, RealOf, Scaled, EndsWithSign, StringToNat;
  }

  lemma ScaledDown(m: nat, n: int)
    requires n >= 0
    ensures Scaled(m, -n) == m as real / Power(n) as real
  {
    if n == 0 { assert m as real / 1.0 == m as real; }
  }

  /** Commas behind the first digit do not matter, wherever they stand. */
  lemma CommaIsSkipped(pre: string, a: string, rest: string)
    requires forall i :: 0 <= i < |pre| ==> !IsDigit(pre[i])
    requires a != "" && IsDigit(a[0]) && forall i :: 0 <= i < |a| ==> IsDigit(a[i]) || a[i] == ','
    ensures SignedNumber(pre + (a + "," + rest)) == SignedNumber(pre + (a + rest))
  {
    SignedAfter(pre, a + "," + rest);
    SignedAfter(pre, a + rest);
    CommaIsRead(a, rest, EndsWithSign(pre));
    hide *;
  }

  lemma CommaIsRead(a: string, rest: string, neg: bool)
    requires forall i :: 0 <= i < |a| ==> IsNumberChar(a[i])
    ensures ReadUnsigned(a + "," + rest, neg) == ReadUnsigned(a + rest, neg)
  {
    var s, t := a + "," + rest, a + rest;
    var n: nat := NumberRun(rest);
    hide NumberRun, NoCommas, FractionPart, Normal;
    NumberRunIs(s, |a| + 1 + n);
    NumberRunIs(t, |a| + n);
    var head := rest[..n];
    assert s[..|a| + 1 + n] == a + ("," + head) && t[..|a| + n] == a + head;
    assert s[|a| + 1 + n..] == rest[n..] == t[|a| + n..];
    NoCommasJoined(a, "," + head);
    NoCommasJoined(a, head);
    NoCommasJoined(",", head);
    NoCommasOfComma();
    assert NoCommas("," + head) == NoCommas(head);
    assert NoCommas(s[..|a| + 1 + n]) == NoCommas(t[..|a| + n]);
  }

  lemma NoCommasOfComma()
    ensures NoCommas(",") == ""
  {
  }

  lemma {:induction false} NoCommasJoined(a: string, b: string)
    requires forall i :: 0 <= i < |a| ==> IsNumberChar(a[i])
    requires forall i :: 0 <= i < |b| ==> IsNumberChar(b[i])
    ensures forall i :: 0 <= i < |a + b| ==> IsNumberChar((a + b)[i])
    ensures NoCommas(a + b) == NoCommas(a) + NoCommas(b)
  {
    if a == "" {
      assert a + b == b;
    } else {
      assert (a + b)[0] == a[0] && (a + b)[1..] == a[1..] + b;
      NoCommasJoined(a[1..], b);
    }
  }
}
