/** Numbers in charts (src/core/charts.py): signed_number, which reads a number out of a cell, and the
    `:g` format, which prints it.  Values are exact decimals in a normal form, so equal values are
    equal data. */
module Numbers {
  import opened Text

  /** +/- 0.d1 d2 ... dn * 10^point, without leading or trailing zeros; zero has no digits. */
  datatype Decimal = Decimal(neg: bool, digits: string, point: int)

  predicate IsNormal(d: Decimal) {
    && AllDigits(d.digits)
    && (d.digits == "" ==> d == Decimal(false, "", 0))
    && (d.digits != "" ==> d.digits[0] != '0' && d.digits[|d.digits| - 1] != '0')
  }

  /** The normal form of +/- 0.ds * 10^point. */
  function Normal(neg: bool, ds: string, point: int): (d: Decimal)
    requires AllDigits(ds)
    ensures IsNormal(d) && |d.digits| <= |ds|
    decreases |ds|
  {
    if ds == "" then Decimal(false, "", 0)
    else if ds[0] == '0' then Normal(neg, ds[1..], point - 1)
    else if ds[|ds| - 1] == '0' then Normal(neg, ds[..|ds| - 1], point)
    else Decimal(neg, ds, point)
  }

  function Zeros(n: nat): (z: string)
    ensures |z| == n && AllDigits(z) && forall i :: 0 <= i < n ==> z[i] == '0'
  {
    if n == 0 then "" else Zeros(n - 1) + "0"
  }

  lemma {:induction false} NormalTrailing(neg: bool, ds: string, n: nat, point: int)
    requires AllDigits(ds) && ds != "" && ds[0] != '0' && ds[|ds| - 1] != '0'
    ensures AllDigits(ds + Zeros(n)) && Normal(neg, ds + Zeros(n), point) == Decimal(neg, ds, point)
    decreases n
  {
    if n == 0 {
      assert ds + "" == ds;
    } else {
      var all := ds + Zeros(n);
      assert all[..|all| - 1] == ds + Zeros(n - 1);
      NormalTrailing(neg, ds, n - 1, point);
    }
  }

  lemma {:induction false} NormalLeading(neg: bool, n: nat, ds: string, point: int)
    requires AllDigits(ds)
    ensures AllDigits(Zeros(n) + ds) && Normal(neg, Zeros(n) + ds, point) == Normal(neg, ds, point - n)
    decreases n
  {
    if n == 0 {
      assert "" + ds == ds;
    } else {
      ZerosFront(n);
      var all := Zeros(n) + ds;
      assert all[1..] == Zeros(n - 1) + ds;
      NormalLeading(neg, n - 1, ds, point - 1);
    }
  }

  lemma {:induction false} ZerosFront(n: nat)
    requires n > 0
    ensures Zeros(n) == "0" + Zeros(n - 1)
  {
    if n > 1 { ZerosFront(n - 1); }
  }

  // ---------- Reading ----------

  predicate IsNumberChar(c: char) {
    IsDigit(c) || c == ','
  }

  /** The longest run of digits and commas. */
  function NumberRun(s: string): (n: nat)
    ensures n <= |s| && (n < |s| ==> !IsNumberChar(s[n]))
    ensures forall i :: 0 <= i < n ==> IsNumberChar(s[i])
  {
    if s != "" && IsNumberChar(s[0]) then
      assert forall i :: 1 <= i < |s| ==> s[i] == s[1..][i - 1];
      1 + NumberRun(s[1..])
    else 0
  }

  function NoCommas(s: string): (r: string)
    requires forall i :: 0 <= i < |s| ==> IsNumberChar(s[i])
    ensures AllDigits(r)
  {
    if s == "" then ""
    else
      assert forall i :: 1 <= i < |s| ==> s[1..][i - 1] == s[i];
      var rest := NoCommas(s[1..]);
      assert IsNumberChar(s[0]);
      if s[0] == ',' then rest else [s[0]] + rest
  }

  /** Where NUMBER_RE matches first: at a digit, or at a hyphen before a digit. */
  function NumberStart(s: string): (r: Option<nat>)
    ensures r.Some? ==>
        r.value < |s| && (IsDigit(s[r.value]) || (s[r.value] == '-' && r.value + 1 < |s| && IsDigit(s[r.value + 1])))
  {
    if s == "" then None
    else if IsDigit(s[0]) || (s[0] == '-' && |s| > 1 && IsDigit(s[1])) then Some(0)
    else
      var rest := NumberStart(s[1..]);
      if rest.None? then None else Some(rest.value + 1)
  }

  /** The digits of ".ddd", when s begins with a fraction. */
  function FractionPart(s: string): (f: string)
    ensures AllDigits(f) && (f != "" ==> |f| < |s|)
  {
    if |s| > 1 && s[0] == '.' then s[1..][..DigitRun(s[1..])] else ""
  }

  /** float() of the digits, commas and fraction that s begins with. */
  function ReadUnsigned(s: string, neg: bool): (d: Decimal)
    ensures IsNormal(d)
  {
    var n := NumberRun(s);
    var ints, frac := NoCommas(s[..n]), FractionPart(s[n..]);
    Normal(neg, ints + frac, |ints|)
  }

  predicate IsNegativeSign(c: char) {
    c in "△▽−–-"
  }

  predicate EndsNegative(prefix: string) {
    var p := Strip(prefix);
    p != "" && IsNegativeSign(p[|p| - 1])
  }

  /** signed_number */
  function SignedNumber(token: string): (r: Option<Decimal>)
    ensures r.Some? ==> IsNormal(r.value)
  {
    var start := NumberStart(token);
    if start.None? then None
    else
      var hyphen := token[start.value] == '-';
      var body := if hyphen then token[start.value + 1..] else token[start.value..];
      Some(ReadUnsigned(body, hyphen || EndsNegative(token[..start.value])))
  }

  lemma NumberRunIs(s: string, n: nat)
    requires n <= |s| && (forall i :: 0 <= i < n ==> IsNumberChar(s[i])) && (n < |s| ==> !IsNumberChar(s[n]))
    ensures NumberRun(s) == n
  {
  }

  lemma {:induction false} NoCommasInDigits(s: string)
    requires AllDigits(s)
    ensures (forall i :: 0 <= i < |s| ==> IsNumberChar(s[i])) && NoCommas(s) == s
  {
    if s != "" {
      assert IsDigit(s[0]);
      NoCommasInDigits(s[1..]);
    }
  }

  function Fraction(frac: string): string {
    if frac == "" then "" else "." + frac
  }

  lemma FractionPrinted(frac: string, rest: string)
    requires AllDigits(frac) && (rest == "" || (!IsDigit(rest[0]) && rest[0] != '.'))
    ensures FractionPart(Fraction(frac) + rest) == frac
  {
    if frac != "" {
      var s := Fraction(frac) + rest;
      assert s[1..] == frac + rest && (frac + rest)[..|frac|] == frac;
      DigitRunIs(frac + rest, |frac|);
    } else {
      assert Fraction(frac) + rest == rest;
    }
  }

  /** A printed number is read back digit by digit, up to the first character that cannot belong
      to it. */
  lemma ReadPrinted(ints: string, frac: string, rest: string, neg: bool)
    requires ints != "" && AllDigits(ints) && AllDigits(frac)
    requires rest == "" || (!IsNumberChar(rest[0]) && rest[0] != '.')
    ensures AllDigits(ints + frac)
        && ReadUnsigned(ints + (Fraction(frac) + rest), neg) == Normal(neg, ints + frac, |ints|)
  {
    var n, after := |ints|, Fraction(frac) + rest;
    var s := ints + after;
    assert s[..n] == ints && s[n..] == after;
    NoCommasInDigits(ints);
    assert n < |s| ==> s[n] == after[0];
    NumberRunIs(s, n);
    FractionPrinted(frac, rest);
    hide Normal, NoCommas, NumberRun, FractionPart;
  }

  /** A token that begins with a digit, or with a hyphen and a digit, is read from its start. */
  lemma SignedAtStart(body: string, neg: bool)
    requires body != "" && IsDigit(body[0])
    ensures SignedNumber((if neg then "-" else "") + body) == Some(ReadUnsigned(body, neg))
  {
    var token := (if neg then "-" else "") + body;
    assert (if neg then token[1..] else token[0..]) == body;
    assert NumberStart(token) == Some(0);
    assert !EndsNegative(token[..0]) by { assert token[..0] == ""; }
    hide ReadUnsigned, NumberStart, EndsNegative;
  }

  lemma SignedPrinted(ints: string, frac: string, rest: string, neg: bool)
    requires ints != "" && AllDigits(ints) && AllDigits(frac)
    requires rest == "" || (!IsNumberChar(rest[0]) && rest[0] != '.')
    ensures AllDigits(ints + frac)
    ensures SignedNumber((if neg then "-" else "") + (ints + (Fraction(frac) + rest)))
        == Some(Normal(neg, ints + frac, |ints|))
  {
    ReadPrinted(ints, frac, rest, neg);
    SignedAtStart(ints + (Fraction(frac) + rest), neg);
  }

  // ---------- Printing ----------

  /** The next decimal numeral of the same length, and whether it overflowed. */
  function Increment(s: string): (r: (bool, string))
    requires AllDigits(s)
    ensures |r.1| == |s| && AllDigits(r.1)
  {
    if s == "" then (true, "")
    else
      var last := s[|s| - 1];
      if last == '9' then
        var (carry, init) := Increment(s[..|s| - 1]);
        (carry, init + "0")
      else (false, s[..|s| - 1] + [last + 1 as char])
  }

  const PRECISION := 6

  /** Rounding to six significant digits, halves to even. */
  function Rounded(d: Decimal): (r: Decimal)
    requires IsNormal(d)
    ensures IsNormal(r) && |r.digits| <= PRECISION
    ensures |d.digits| <= PRECISION ==> r == d
  {
    if |d.digits| <= PRECISION then d
    else
      var head, tail := d.digits[..PRECISION], d.digits[PRECISION..];
      var up := tail[0] > '5' || (tail[0] == '5' && (|tail| > 1 || DigitValue(head[PRECISION - 1]) % 2 == 1));
      if !up then Normal(d.neg, head, d.point)
      else
        var (carry, next) := Increment(head);
        if carry then Decimal(d.neg, "1", d.point + 1) else Normal(d.neg, next, d.point)
  }

  /** f"{v:g}" */
  function FormatG(d: Decimal): string
    requires IsNormal(d)
  {
    var r := Rounded(d);
    (if r.neg then "-" else "") + FormatUnsigned(r)
  }

  predicate PrintsFixed(r: Decimal) {
    r.digits == "" || -4 <= r.point - 1 < PRECISION
  }

  function Exponent(x: int): string {
    var n := NatToString(if x < 0 then -x else x);
    (if x < 0 then "e-" else "e+") + if |n| < 2 then "0" + n else n
  }

  /** The integer digits, the fraction and the exponent that are printed. */
  datatype Layout = Layout(ints: string, frac: string, rest: string)

  function LayoutOf(r: Decimal): (l: Layout)
    requires IsNormal(r)
    ensures l.ints != "" && AllDigits(l.ints) && AllDigits(l.frac)
    ensures l.rest == "" || l.rest[0] == 'e'
  {
    if r.digits == "" then Layout("0", "", "")
    else if !PrintsFixed(r) then Layout(r.digits[..1], r.digits[1..], Exponent(r.point - 1))
    else if r.point <= 0 then Layout("0", Zeros(-r.point) + r.digits, "")
    else if |r.digits| <= r.point then Layout(r.digits + Zeros(r.point - |r.digits|), "", "")
    else Layout(r.digits[..r.point], r.digits[r.point..], "")
  }

  function FormatUnsigned(r: Decimal): string
    requires IsNormal(r)
  {
    var l := LayoutOf(r);
    l.ints + (Fraction(l.frac) + l.rest)
  }

  /** What is read back from a printed value: the rounded value, or, when it was printed with an
      exponent, only its mantissa. */
  function ReadBack(d: Decimal): (r: Decimal)
    requires IsNormal(d)
  {
    var r := Rounded(d);
    if PrintsFixed(r) then r else Decimal(r.neg, r.digits, 1)
  }

  lemma NormalKeeps(neg: bool, ds: string, point: int)
    requires AllDigits(ds) && (ds != "" ==> ds[0] != '0' && ds[|ds| - 1] != '0')
    ensures Normal(neg, ds, point) == if ds == "" then Decimal(false, "", 0) else Decimal(neg, ds, point)
  {
  }

  /** What the printed digits are worth. */
  ghost predicate LayoutIsWorth(r: Decimal, value: Decimal)
    requires IsNormal(r)
  {
    var l := LayoutOf(r);
    AllDigits(l.ints + l.frac) && Normal(r.neg, l.ints + l.frac, |l.ints|) == value
  }

  lemma LayoutOfZero(r: Decimal)
    requires IsNormal(r) && r.digits == ""
    ensures LayoutIsWorth(r, r)
  {
    NormalLeading(r.neg, 1, "", 1);
    NormalKeeps(r.neg, "", 0);
    hide Normal;
    assert Zeros(1) + "" == "0" && "0" + "" == "0";
  }

  lemma LayoutOfExponent(r: Decimal)
    requires IsNormal(r) && r.digits != "" && !PrintsFixed(r)
    ensures LayoutIsWorth(r, Decimal(r.neg, r.digits, 1))
  {
    NormalKeeps(r.neg, r.digits, 1);
    hide Normal, Exponent, Zeros;
    assert r.digits[..1] + r.digits[1..] == r.digits;
  }

  lemma LayoutOfSmall(r: Decimal)
    requires IsNormal(r) && r.digits != "" && PrintsFixed(r) && r.point <= 0
    ensures LayoutIsWorth(r, r)
  {
    var n := -r.point;
    ZerosFront(n + 1);
    NormalLeading(r.neg, n + 1, r.digits, 1);
    NormalKeeps(r.neg, r.digits, r.point);
    hide Normal, Exponent, Zeros, PrintsFixed;
    assert "0" + (Zeros(n) + r.digits) == Zeros(n + 1) + r.digits;
  }

  lemma LayoutOfWhole(r: Decimal)
    requires IsNormal(r) && r.digits != "" && PrintsFixed(r) && 0 < r.point && |r.digits| <= r.point
    ensures LayoutIsWorth(r, r)
  {
    var n := r.point - |r.digits|;
    NormalTrailing(r.neg, r.digits, n, r.point);
    hide Normal, Exponent, Zeros, PrintsFixed;
    assert (r.digits + Zeros(n)) + "" == r.digits + Zeros(n);
  }

  lemma LayoutOfPoint(r: Decimal)
    requires IsNormal(r) && r.digits != "" && PrintsFixed(r) && 0 < r.point < |r.digits|
    ensures LayoutIsWorth(r, r)
  {
    NormalKeeps(r.neg, r.digits, r.point);
    hide Normal, Exponent, Zeros, PrintsFixed;
    assert r.digits[..r.point] + r.digits[r.point..] == r.digits;
  }

  lemma LayoutValue(r: Decimal)
    requires IsNormal(r)
    ensures LayoutIsWorth(r, if PrintsFixed(r) then r else Decimal(r.neg, r.digits, 1))
  {
    hide LayoutIsWorth, IsNormal, PrintsFixed;
    if r.digits == "" {
      LayoutOfZero(r);
      ZeroIsFixed(r);
    } else if !PrintsFixed(r) {
      LayoutOfExponent(r);
    } else if r.point <= 0 {
      LayoutOfSmall(r);
    } else if |r.digits| <= r.point {
      LayoutOfWhole(r);
    } else {
      LayoutOfPoint(r);
    }
  }

  lemma ZeroIsFixed(r: Decimal)
    requires r.digits == ""
    ensures PrintsFixed(r)
  {
  }

  /** Reading what `:g` printed. */
  lemma PrintedIsReadBack(d: Decimal)
    requires IsNormal(d)
    ensures SignedNumber(FormatG(d)) == Some(ReadBack(d))
  {
    var r := Rounded(d);
    var l := LayoutOf(r);
    LayoutValue(r);
    SignedPrinted(l.ints, l.frac, l.rest, r.neg);
    hide Rounded, LayoutOf, Normal, SignedNumber, Fraction;
  }

  /** An exponent is printed with its sign and at least two digits. */
  lemma ExponentIs(x: int)
    ensures var n := if x < 0 then -x else x;
      Exponent(x) == (if x < 0 then "e-" else "e+") + (if n < 10 then "0" else "") + NatToString(n)
  {
    var n := if x < 0 then -x else x;
    if n >= 10 { assert |NatToString(n / 10)| >= 1; }
  }

  /** Values that `:g` prints without loss: at most six significant digits, and neither 10^6 or more
      nor below 10^-4. */
  predicate PrintsExactly(d: Decimal) {
    |d.digits| <= PRECISION && (d.digits == "" || -3 <= d.point <= 6)
  }

  /** A value survives printing and reading exactly when it prints exactly. */
  lemma SurvivesIffPrintsExactly(d: Decimal)
    requires IsNormal(d)
    ensures SignedNumber(FormatG(d)) == Some(d) <==> PrintsExactly(d)
  {
    PrintedIsReadBack(d);
  }

  /** One million is printed as 1e+06 and read back as 1. */
  lemma OneMillionIsReadAsOne()
    ensures SignedNumber("1" + Zeros(6)) == Some(Decimal(false, "1", 7))
    ensures FormatG(Decimal(false, "1", 7)) == "1e+06"
    ensures SignedNumber("1e+06") == Some(Decimal(false, "1", 1))
  {
    var d := Decimal(false, "1", 7);
    OneMillionPrinted(d);
    PrintedIsReadBack(d);
    var ints := "1" + Zeros(6);
    NormalTrailing(false, "1", 6, 7);
    SignedPrinted(ints, "", "", false);
    hide *;
    assert Fraction("") == "" by { NoFraction(); }
    assert "" + (ints + ("" + "")) == ints && ints + "" == ints;
    assert ReadBack(d) == Decimal(false, "1", 1) by { OneMillionReadBack(d); }
  }

  lemma NoFraction()
    ensures Fraction("") == ""
  {
  }

  lemma OneMillionPrinted(d: Decimal)
    requires d == Decimal(false, "1", 7)
    ensures FormatG(d) == "1e+06"
  {
    assert NatToString(6) == "6" && d.digits[1..] == "" && d.digits[..1] == "1";
    hide Zeros, NatToString;
  }

  lemma OneMillionReadBack(d: Decimal)
    requires d == Decimal(false, "1", 7)
    ensures ReadBack(d) == Decimal(false, "1", 1)
  {
  }
}
