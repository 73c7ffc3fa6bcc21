/** The six digits that `:g` keeps are the nearest ones, halves going to the even digit. */
module Rounding {
  import opened Text
  import opened Numbers
  import opened DecimalValue

  // ---------- Digits and their number ----------

  lemma LastDigit(s: string)
    requires AllDigits(s) && s != ""
    ensures AllDigits(s[..|s| - 1])
    ensures StringToNat(s) == 10 * StringToNat(s[..|s| - 1]) + DigitValue(s[|s| - 1])
  {
  }

  lemma {:induction false} JoinedDigits(a: string, b: string)
    requires AllDigits(a) && AllDigits(b)
    ensures AllDigits(a + b) && StringToNat(a + b) == StringToNat(a) * Power(|b|) + StringToNat(b)
    decreases |b|
  {
    if b == "" {
      assert a + b == a;
    } else {
      hide StringToNat, Power;
      var n := |b| - 1;
      LastDigit(b);
      JoinedDigits(a, b[..n]);
      assert (a + b)[..|a| + n] == a + b[..n] && (a + b)[|a| + n] == b[n];
      LastDigit(a + b);
      TimesTen(StringToNat(a), n);
    }
  }

  lemma TimesTen(m: nat, n: nat)
    ensures 10 * (m * Power(n)) == m * Power(n + 1)
  {
  }

  lemma {:induction false} DigitsBelow(s: string)
    requires AllDigits(s)
    ensures StringToNat(s) < Power(|s|)
  {
    if s != "" { DigitsBelow(s[..|s| - 1]); }
  }

  lemma {:induction false} IncrementAddsOne(s: string)
    requires AllDigits(s)
    ensures var (carry, next) := Increment(s);
      StringToNat(next) + (if carry then Power(|s|) else 0) == StringToNat(s) + 1
  {
    if s != "" {
      var n := |s| - 1;
      var next := Increment(s).1;
      if s[n] == '9' {
        IncrementAddsOne(s[..n]);
        var init := Increment(s[..n]).1;
        assert next == init + "0" && next[..n] == init && next[n] == '0';
      } else {
        assert next == s[..n] + [s[n] + 1 as char] && next[..n] == s[..n];
      }
    }
  }

  // ---------- Above or below the half ----------

  /** A tail of digits compared with half a unit of the digit before it. */
  lemma TailAgainstHalf(tail: string)
    requires tail != "" && AllDigits(tail) && tail[|tail| - 1] != '0'
    ensures var t, p := StringToNat(tail), Power(|tail|);
      && (tail[0] > '5' || (tail[0] == '5' && |tail| > 1) ==> 2 * t > p)
      && (tail[0] < '5' ==> 2 * t < p)
      && (tail == "5" ==> 2 * t == p)
  {
    var first, rest := tail[..1], tail[1..];
    assert tail == first + rest && first[0] == tail[0];
    JoinedDigits(first, rest);
    DigitsBelow(rest);
    OneDigit(first);
    var d, q := DigitValue(tail[0]), Power(|rest|);
    assert StringToNat(tail) == d * q + StringToNat(rest) && Power(|tail|) == 10 * q;
    if |tail| > 1 {
      assert rest[|rest| - 1] == tail[|tail| - 1];
      LastDigitCounts(rest);
    }
    DigitTimes(d, q);
  }

  lemma OneDigit(s: string)
    requires |s| == 1 && AllDigits(s)
    ensures StringToNat(s) == DigitValue(s[0])
  {
    assert s[..0] == "";
  }

  lemma DigitTimes(d: nat, q: nat)
    ensures (d > 5 ==> d * q >= 6 * q) && (d == 5 ==> d * q == 5 * q) && (d < 5 ==> d * q <= 4 * q)
  {
    if d > 5 { assert d * q == 6 * q + (d - 6) * q; }
    if d < 5 { assert 4 * q == d * q + (4 - d) * q; }
  }

  // ---------- The rounded value ----------

  lemma ScaledIsTimes(m: nat, e: int)
    ensures Scaled(m, e) == m as real * Scaled(1, e) && Scaled(1, e) > 0.0
  {
    ScaledPositive(1, e);
    if e >= 0 {
      assert (m * Power(e)) as real == m as real * Power(e) as real;
    }
  }

  /** Rounding picks the six-digit number below or above, as the tail says. */
  function SixDigits(d: Decimal): nat
    requires IsNormal(d) && |d.digits| > 6
  {
    var head, tail := d.digits[..6], d.digits[6..];
    StringToNat(head)
    + if tail[0] > '5' || (tail[0] == '5' && (|tail| > 1 || DigitValue(head[5]) % 2 == 1)) then 1 else 0
  }

  predicate RoundsUp(d: Decimal)
    requires IsNormal(d) && |d.digits| > 6
  {
    var head, tail := d.digits[..6], d.digits[6..];
    tail[0] > '5' || (tail[0] == '5' && (|tail| > 1 || DigitValue(head[5]) % 2 == 1))
  }

  lemma RoundedCases(d: Decimal)
    requires IsNormal(d) && |d.digits| > 6
    ensures var head := d.digits[..6];
      var (carry, next) := Increment(head);
      Rounded(d) == if !RoundsUp(d) then Normal(d.neg, head, d.point)
                    else if carry then Decimal(d.neg, "1", d.point + 1) else Normal(d.neg, next, d.point)
    ensures SixDigits(d) == StringToNat(d.digits[..6]) + if RoundsUp(d) then 1 else 0
  {
    hide Normal, StringToNat, Increment;
  }

  function Signed(neg: bool, v: real): real {
    if neg then -v else v
  }

  lemma WorthOfSix(neg: bool, ds: string, point: int)
    requires AllDigits(ds) && |ds| == 6
    ensures RealOf(Normal(neg, ds, point)) == Signed(neg, Scaled(StringToNat(ds), point - 6))
  {
    NormalIsWorth(neg, ds, point);
    hide Normal, Scaled, StringToNat, RealOf;
  }

  lemma RoundedIsSix(d: Decimal)
    requires IsNormal(d) && |d.digits| > 6
    ensures RealOf(Rounded(d)) == Signed(d.neg, Scaled(SixDigits(d), d.point - 6))
  {
    hide *;
    RoundedCases(d);
    var head := d.digits[..6];
    HeadIsDigits(d);
    var r := Increment(head);
    IncrementAddsOne(head);
    DigitsBelow(head);
    WorthOfSix(d.neg, head, d.point);
    WorthOfSix(d.neg, r.1, d.point);
    MillionIsOne(d.neg, d.point);
  }

  lemma HeadIsDigits(d: Decimal)
    requires IsNormal(d) && |d.digits| > 6
    ensures AllDigits(d.digits[..6]) && AllDigits(d.digits[6..]) && d.digits[0] != '0'
    ensures d.digits[|d.digits| - 1] != '0'
  {
  }

  lemma MillionIsOne(neg: bool, point: int)
    ensures IsNormal(Decimal(neg, "1", point + 1))
    ensures RealOf(Decimal(neg, "1", point + 1)) == Signed(neg, Scaled(Power(6), point - 6))
  {
    OneDigit("1");
    ScaledBy(1, 6, point - 6);
    assert 1 * Power(6) == Power(6);
    hide Scaled, Power;
  }

  /** Twice the distance of the six digits from the value, in units of its last digit. */
  function Off(n: nat, h: nat, t: nat, p: nat): int {
    2 * ((n - h) * p - t)
  }

  /** The value, in the same units. */
  function Whole(h: nat, t: nat, p: nat): nat {
    h * p + t
  }

  lemma SixIsNearest(d: Decimal, h: nat, t: nat, p: nat)
    requires IsNormal(d) && |d.digits| > 6
    requires h == StringToNat(d.digits[..6]) && t == StringToNat(d.digits[6..]) && p == Power(|d.digits| - 6)
    ensures var n := SixDigits(d);
      && h <= n <= h + 1 && -(p as int) <= Off(n, h, t, p) <= p
      && (Off(n, h, t, p) == p || Off(n, h, t, p) == -(p as int) ==> n % 2 == 0)
  {
    hide StringToNat, Power;
    var head, tail := d.digits[..6], d.digits[6..];
    HeadIsDigits(d);
    assert tail[|tail| - 1] == d.digits[|d.digits| - 1];
    TailAgainstHalf(tail);
    DigitsBelow(tail);
    ParityIsOfLast(head);
    assert |tail| == 1 && tail[0] == '5' ==> tail == "5";
  }

  lemma ParityIsOfLast(s: string)
    requires AllDigits(s) && s != ""
    ensures StringToNat(s) % 2 == DigitValue(s[|s| - 1]) % 2
  {
    hide StringToNat;
    LastDigit(s);
    EvenAside(StringToNat(s[..|s| - 1]), DigitValue(s[|s| - 1]));
  }

  lemma EvenAside(m: nat, v: nat)
    ensures (10 * m + v) % 2 == v % 2
  {
  }

  lemma SixIsLarge(d: Decimal)
    requires IsNormal(d) && |d.digits| > 6
    ensures 100000 <= StringToNat(d.digits[..6]) < 1000000
  {
    var head := d.digits[..6];
    HeadIsDigits(d);
    DigitsBelow(head);
    var first, rest := head[..1], head[1..];
    assert head == first + rest;
    JoinedDigits(first, rest);
    OneDigit(first);
    Powers();
    hide Power;
    FirstCounts(DigitValue(first[0]));
  }

  lemma FirstCounts(d: nat)
    ensures d >= 1 ==> d * 100000 >= 100000
  {
  }

  lemma Powers()
    ensures Power(5) == 100000 && Power(6) == 1000000
  {
    assert Power(2) == 100 && Power(4) == 10000;
  }

  function Units(m: int, u: real): real {
    m as real * u
  }

  /** The value, counted in units of its last digit. */
  lemma ValueInUnits(d: Decimal, h: nat, t: nat, p: nat)
    requires IsNormal(d) && |d.digits| > 6
    requires h == StringToNat(d.digits[..6]) && t == StringToNat(d.digits[6..]) && p == Power(|d.digits| - 6)
    ensures RealOf(d) == Signed(d.neg, Units(Whole(h, t, p), Scaled(1, d.point - |d.digits|)))
  {
    hide Scaled, StringToNat, Power;
    HeadIsDigits(d);
    JoinedDigits(d.digits[..6], d.digits[6..]);
    assert d.digits[..6] + d.digits[6..] == d.digits;
    ScaledIsTimes(h * p + t, d.point - |d.digits|);
  }

  /** The unit of the sixth digit, counted the same way. */
  lemma UnitInUnits(point: int, k: nat, e: int)
    requires e == point - 6 - k
    ensures Scaled(1, point - 6) == Units(Power(k), Scaled(1, e)) && Scaled(1, e) > 0.0
  {
    hide Scaled, Power;
    ScaledBy(1, k, e);
    ScaledIsTimes(1 * Power(k), e);
    assert e + k == point - 6 && 1 * Power(k) == Power(k);
  }

  lemma SixInUnits(d: Decimal)
    requires IsNormal(d) && |d.digits| > 6
    ensures RealOf(Rounded(d)) == Signed(d.neg, Units(SixDigits(d), Scaled(1, d.point - 6)))
  {
    hide *;
    RoundedIsSix(d);
    ScaledInUnits(SixDigits(d), d.point - 6);
  }

  lemma ScaledInUnits(m: nat, e: int)
    ensures Scaled(m, e) == Units(m, Scaled(1, e))
  {
    hide Scaled;
    ScaledIsTimes(m, e);
  }

  /** The value that is printed differs from the value itself by at most half a unit of the sixth digit, and
      when it is exactly half a unit the sixth digit is even. */
  lemma RoundedIsNearest(d: Decimal)
    requires IsNormal(d) && |d.digits| > 6
    ensures var n, unit, off := SixDigits(d), Scaled(1, d.point - 6), RealOf(Rounded(d)) - RealOf(d);
      && RealOf(Rounded(d)) == Signed(d.neg, Units(n, unit))
      && 100000 <= n <= 1000000
      && -unit <= 2.0 * off <= unit
      && (2.0 * off == unit || 2.0 * off == -unit ==> n % 2 == 0)
  {
    hide *;
    HeadIsDigits(d);
    var n, k := SixDigits(d), |d.digits| - 6;
    var h, t, p := StringToNat(d.digits[..6]), StringToNat(d.digits[6..]), Power(k);
    SixIsNearest(d, h, t, p);
    SixIsLarge(d);
    SixInUnits(d);
    ValueInUnits(d, h, t, p);
    UnitInUnits(d.point, k, d.point - |d.digits|);
    Difference(d.neg, n, h, t, p, Scaled(1, d.point - |d.digits|), Scaled(1, d.point - 6), RealOf(Rounded(d)),
        RealOf(d));
  }

  lemma Difference(neg: bool, n: nat, h: nat, t: nat, p: nat, u: real, unit: real, r: real, v: real)
    requires u > 0.0 && unit == Units(p, u) && h <= n
    requires r == Signed(neg, Units(n, unit)) && v == Signed(neg, Units(Whole(h, t, p), u))
    requires -(p as int) <= Off(n, h, t, p) <= p
    ensures -unit <= 2.0 * (r - v) <= unit
    ensures 2.0 * (r - v) == unit || 2.0 * (r - v) == -unit ==>
      Off(n, h, t, p) == p || Off(n, h, t, p) == -(p as int)
  {
    hide *;
    Apart(neg, Units(n, unit), Units(Whole(h, t, p), u), r, v);
    OffInUnits(n, h, t, p, u);
    Bounded(Off(n, h, t, p), p, u);
  }

  lemma Apart(neg: bool, a: real, b: real, r: real, v: real)
    requires r == Signed(neg, a) && v == Signed(neg, b)
    ensures r - v == a - b || r - v == b - a
  {
  }

  lemma OffInUnits(n: nat, h: nat, t: nat, p: nat, u: real)
    requires h <= n
    ensures 2.0 * (Units(n, Units(p, u)) - Units(Whole(h, t, p), u)) == Units(Off(n, h, t, p), u)
  {
    assert Units(n, Units(p, u)) == Units(n * p, u) by { UnitsOfUnits(n, p, u); }
    UnitsDiffer(n * p, Whole(h, t, p), u);
    Expand(n, h, p, t);
    TwiceUnits((n - h) * p - t, u);
    hide Units;
    assert n * p - Whole(h, t, p) == (n - h) * p - t;
  }

  lemma UnitsOfUnits(n: nat, p: nat, u: real)
    ensures Units(n, Units(p, u)) == Units(n * p, u)
  {
    assert (n * p) as real == n as real * p as real;
  }

  lemma UnitsDiffer(a: int, b: int, u: real)
    ensures Units(a, u) - Units(b, u) == Units(a - b, u)
  {
  }

  lemma TwiceUnits(x: int, u: real)
    ensures 2.0 * Units(x, u) == Units(2 * x, u)
  {
  }

  lemma Expand(n: nat, h: nat, p: nat, t: nat)
    ensures n * p - (h * p + t) == (n - h) * p - t
  {
  }

  lemma Bounded(y: int, p: int, u: real)
    requires u > 0.0 && -p <= y <= p
    ensures -Units(p, u) <= Units(y, u) <= Units(p, u)
    ensures (Units(y, u) == Units(p, u) ==> y == p) && (Units(y, u) == -Units(p, u) ==> y == -p)
  {
    UnitsDiffer(p, y, u);
    UnitsDiffer(y, -p, u);
    UnitsDiffer(0, p, u);
    UnitsSign(p - y, u);
    UnitsSign(y + p, u);
    UnitsSign(0, u);
    hide Units;
    assert y - -p == y + p && 0 - p == -p;
  }

  lemma UnitsSign(x: int, u: real)
    requires u > 0.0 && x >= 0
    ensures Units(x, u) >= 0.0 && (Units(x, u) == 0.0 <==> x == 0)
  {
    if x > 0 { assert x as real * u > 0.0; }
  }
}
