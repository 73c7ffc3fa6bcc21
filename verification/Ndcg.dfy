/** nDCG of scripts/eval_search.py.  The discount 1/log2(i + 2) is any positive, strictly decreasing
    sequence of weights: nothing else about the logarithm matters for the results below. */
module Ndcg {

  type Discount = nat -> real

  ghost predicate IsDiscount(w: Discount) {
    && (forall i: nat :: w(i) > 0.0)
    && (forall i: nat :: w(i + 1) < w(i))
  }

  /** 2**n, also for negative n */
  function Pow2(n: int): (r: real)
    ensures r > 0.0
    decreases if n < 0 then -n else n
  {
    if n == 0 then 1.0 else if n > 0 then 2.0 * Pow2(n - 1) else Pow2(n + 1) / 2.0
  }

  function Gain(grade: int): real {
    Pow2(grade) - 1.0
  }

  lemma {:induction false} Pow2Doubles(n: int)
    ensures Pow2(n + 1) == 2.0 * Pow2(n)
  {
  }

  lemma {:induction false} GainIncreases(a: int, b: int)
    requires a < b
    ensures Gain(a) < Gain(b)
    decreases b - a
  {
    Pow2Doubles(b - 1);
    if a < b - 1 {
      GainIncreases(a, b - 1);
    }
  }

  /** What a grade contributes at position i. */
  function Term(w: Discount, grade: int, i: nat): real {
    Gain(grade) * w(i)
  }

  /** _dcg of the grades that stand at positions off, off + 1, ... */
  function DcgFrom(w: Discount, grades: seq<int>, off: nat): real {
    if grades == [] then 0.0 else Term(w, grades[0], off) + DcgFrom(w, grades[1..], off + 1)
  }

  function Dcg(w: Discount, grades: seq<int>): real {
    DcgFrom(w, grades, 0)
  }

  function Insert(g: int, sorted: seq<int>): (r: seq<int>)
    ensures multiset(r) == multiset([g]) + multiset(sorted)
  {
    if sorted == [] || g >= sorted[0] then [g] + sorted
    else
      assert sorted == [sorted[0]] + sorted[1..];
      [sorted[0]] + Insert(g, sorted[1..])
  }

  /** sorted(grades, reverse=True) */
  function SortDesc(grades: seq<int>): (r: seq<int>)
    ensures multiset(r) == multiset(grades)
    ensures |r| == |grades|
  {
    if grades == [] then []
    else
      assert grades == [grades[0]] + grades[1..];
      var r := Insert(grades[0], SortDesc(grades[1..]));
      assert |multiset(r)| == |r| && |multiset(grades)| == |grades|;
      r
  }

  predicate Descending(s: seq<int>) {
    forall i, j :: 0 <= i < j < |s| ==> s[i] >= s[j]
  }

  lemma DescendingTail(s: seq<int>)
    requires s != [] && Descending(s)
    ensures Descending(s[1..]) && (|s| > 1 ==> s[0] >= s[1])
  {
  }

  lemma DescendingCons(g: int, s: seq<int>)
    requires Descending(s) && (s == [] || g >= s[0])
    ensures Descending([g] + s)
  {
    var r := [g] + s;
    assert forall i :: 0 < i < |r| ==> r[i] == s[i - 1];
    forall j | 0 < j < |r| ensures g >= r[j] { assert s[0] >= s[j - 1]; }
  }

  lemma InsertStep(g: int, s: seq<int>)
    ensures Insert(g, s) == if s == [] || g >= s[0] then [g] + s else [s[0]] + Insert(g, s[1..])
  {
  }

  lemma {:induction false} InsertDescending(g: int, s: seq<int>)
    requires Descending(s)
    ensures Descending(Insert(g, s))
    ensures Insert(g, s)[0] == if s == [] || g >= s[0] then g else s[0]
  {
    hide Descending, Insert;
    InsertStep(g, s);
    if s == [] || g >= s[0] {
      DescendingCons(g, s);
    } else {
      DescendingTail(s);
      InsertDescending(g, s[1..]);
      DescendingCons(s[0], Insert(g, s[1..]));
    }
  }

  lemma {:induction false} SortDescDescending(s: seq<int>)
    ensures Descending(SortDesc(s))
  {
    if s != [] {
      SortDescDescending(s[1..]);
      InsertDescending(s[0], SortDesc(s[1..]));
    }
  }

  lemma FirstIsLargest(a: seq<int>, x: int)
    requires Descending(a) && x in multiset(a)
    ensures a != [] && x <= a[0]
  {
  }

  /** A descending arrangement of given grades is unique. */
  lemma {:induction false} DescendingUnique(a: seq<int>, b: seq<int>)
    requires multiset(a) == multiset(b) && Descending(a) && Descending(b)
    ensures a == b
  {
    if a == [] || b == [] {
      assert |multiset(a)| == |a| && |multiset(b)| == |b|;
    } else {
      assert a[0] in multiset(a) && b[0] in multiset(b);
      FirstIsLargest(a, b[0]);
      FirstIsLargest(b, a[0]);
      assert Descending(a[1..]) && Descending(b[1..]);
      SameTails(a, b);
      DescendingUnique(a[1..], b[1..]);
      assert a == [a[0]] + a[1..] && b == [b[0]] + b[1..];
    }
  }

  lemma SameTails(a: seq<int>, b: seq<int>)
    requires a != [] && b != [] && a[0] == b[0] && multiset(a) == multiset(b)
    ensures multiset(a[1..]) == multiset(b[1..])
  {
    hide Descending;
    assert a == [a[0]] + a[1..] && b == [b[0]] + b[1..];
    assert multiset(a[1..]) == multiset(a) - multiset{a[0]};
    assert multiset(b[1..]) == multiset(b) - multiset{b[0]};
  }

  // ---------- Rearrangement ----------

  lemma DcgCons(w: Discount, g: int, s: seq<int>, off: nat)
    ensures DcgFrom(w, [g] + s, off) == Term(w, g, off) + DcgFrom(w, s, off + 1)
  {
    assert ([g] + s)[1..] == s;
  }

  lemma SwapTerms(w: Discount, small: int, large: int, i: nat)
    requires IsDiscount(w) && small < large
    ensures Term(w, small, i) + Term(w, large, i + 1) < Term(w, large, i) + Term(w, small, i + 1)
  {
    GainIncreases(small, large);
    SwapProducts(Gain(small), Gain(large), w(i), w(i + 1));
  }

  lemma SwapProducts(a: real, b: real, w0: real, w1: real)
    requires a < b && w1 < w0
    ensures a * w0 + b * w1 < b * w0 + a * w1
  {
    assert (b - a) * (w0 - w1) > 0.0;
  }

  /** Moving a grade down past the larger ones never lowers the gain, and raises it unless the grade
      was in place already. */
  lemma {:induction false} InsertRaisesDcg(w: Discount, g: int, s: seq<int>, off: nat)
    requires IsDiscount(w) && Descending(s)
    ensures DcgFrom(w, [g] + s, off) <= DcgFrom(w, Insert(g, s), off)
    ensures s != [] && g < s[0] ==> DcgFrom(w, [g] + s, off) < DcgFrom(w, Insert(g, s), off)
  {
    if s != [] && g < s[0] {
      var rest := s[1..];
      InsertRaisesDcg(w, g, rest, off + 1);
      assert s == [s[0]] + rest;
      DcgCons(w, g, s, off);
      DcgCons(w, s[0], rest, off + 1);
      DcgCons(w, g, rest, off + 1);
      DcgCons(w, s[0], Insert(g, rest), off);
      SwapTerms(w, g, s[0], off);
      assert Insert(g, s) == [s[0]] + Insert(g, rest);
      hide *;
    }
  }

  lemma SortStep(s: seq<int>)
    requires s != []
    ensures SortDesc(s) == Insert(s[0], SortDesc(s[1..]))
  {
    hide Insert;
  }

  lemma NothingSorted(w: Discount, off: nat)
    ensures DcgFrom(w, [], off) == DcgFrom(w, SortDesc([]), off) && Descending([])
  {
  }

  lemma {:induction false} SortRaisesDcg(w: Discount, s: seq<int>, off: nat)
    requires IsDiscount(w)
    ensures DcgFrom(w, s, off) <= DcgFrom(w, SortDesc(s), off)
    ensures !Descending(s) ==> DcgFrom(w, s, off) < DcgFrom(w, SortDesc(s), off)
  {
    hide *;
    if s == [] {
      NothingSorted(w, off);
    } else {
      var g, rest := s[0], s[1..];
      var t := SortDesc(rest);
      assert s == [g] + rest;
      SortRaisesDcg(w, rest, off + 1);
      SortDescDescending(rest);
      InsertRaisesDcg(w, g, t, off);
      DcgCons(w, g, t, off);
      DcgCons(w, g, rest, off);
      SortStep(s);
      if Descending(rest) {
        DescendingUnique(rest, t);
        if rest == [] || g >= rest[0] { DescendingCons(g, rest); }
      }
    }
  }

  /** No arrangement of the same grades beats the descending one. */
  lemma DescendingIsIdeal(w: Discount, grades: seq<int>, other: seq<int>)
    requires IsDiscount(w) && multiset(other) == multiset(grades)
    ensures Dcg(w, other) <= Dcg(w, SortDesc(grades))
    ensures Dcg(w, other) == Dcg(w, SortDesc(grades)) <==> Descending(other)
  {
    SortRaisesDcg(w, other, 0);
    SortDescDescending(other);
    SortDescDescending(grades);
    DescendingUnique(SortDesc(other), SortDesc(grades));
    if Descending(other) {
      DescendingUnique(other, SortDesc(other));
    }
  }

  // ---------- nDCG ----------

  /** grades[:k] for any Python integer k */
  function Head(grades: seq<int>, k: int): seq<int> {
    if k >= |grades| then grades
    else if k >= 0 then grades[..k]
    else if -k <= |grades| then grades[..|grades| + k]
    else []
  }

  /** ndcg_at_k */
  function NdcgAtK(w: Discount, grades: seq<int>, k: int): real {
    if grades == [] then 0.0
    else
      var actual, ideal := Dcg(w, Head(grades, k)), Dcg(w, SortDesc(Head(grades, k)));
      if ideal > 0.0 then actual / ideal else 0.0
  }

  lemma TermSign(w: Discount, grade: int, i: nat)
    requires IsDiscount(w) && grade >= 0
    ensures Term(w, grade, i) >= 0.0
    ensures Term(w, grade, i) > 0.0 <==> grade > 0
  {
    if grade > 0 { GainIncreases(0, grade); }
  }

  lemma {:induction false} DcgNonNegative(w: Discount, s: seq<int>, off: nat)
    requires IsDiscount(w) && forall i :: 0 <= i < |s| ==> s[i] >= 0
    ensures DcgFrom(w, s, off) >= 0.0
    ensures DcgFrom(w, s, off) > 0.0 <==> exists i :: 0 <= i < |s| && s[i] > 0
  {
    if s != [] {
      DcgNonNegative(w, s[1..], off + 1);
      TermSign(w, s[0], off);
      hide Term;
      if i :| 0 <= i < |s| - 1 && s[1..][i] > 0 {
        assert s[i + 1] > 0;
      }
      assert forall i :: 1 <= i < |s| && s[i] > 0 ==> s[1..][i - 1] > 0;
    }
  }

  lemma Ratio(a: real, b: real)
    requires b > 0.0
    ensures a <= b ==> a / b <= 1.0
    ensures a / b == 1.0 <==> a == b
    ensures a >= 0.0 ==> a / b >= 0.0
  {
  }

  /** nDCG never exceeds 1, whatever the grades; it is 1 exactly when the ranking is ideal and the
      ideal gain is positive. */
  lemma NdcgAtMostOne(w: Discount, grades: seq<int>, k: int)
    requires IsDiscount(w)
    ensures NdcgAtK(w, grades, k) <= 1.0
    ensures NdcgAtK(w, grades, k) == 1.0 <==> Descending(Head(grades, k)) && Dcg(w, Head(grades, k)) > 0.0
  {
    var head := Head(grades, k);
    var actual, ideal := Dcg(w, head), Dcg(w, SortDesc(head));
    DescendingIsIdeal(w, head, head);
    assert head == [] ==> actual == ideal == 0.0;
    hide DcgFrom, SortDesc, Dcg;
    if ideal > 0.0 { Ratio(actual, ideal); }
  }

  /** For the grades the judges give (never negative) nDCG lies in [0, 1], and it is 1 exactly when
      the graded results stand in descending order and not all of them are worthless. */
  lemma NdcgInUnitInterval(w: Discount, grades: seq<int>, k: int)
    requires IsDiscount(w) && forall i :: 0 <= i < |grades| ==> grades[i] >= 0
    ensures 0.0 <= NdcgAtK(w, grades, k) <= 1.0
    ensures NdcgAtK(w, grades, k) == 1.0 <==>
            Descending(Head(grades, k)) && exists i :: 0 <= i < |Head(grades, k)| && Head(grades, k)[i] > 0
  {
    NdcgAtMostOne(w, grades, k);
    var head := Head(grades, k);
    DcgNonNegative(w, head, 0);
    var actual, ideal := Dcg(w, head), Dcg(w, SortDesc(head));
    hide DcgFrom, SortDesc;
    if ideal > 0.0 { Ratio(actual, ideal); }
  }

  lemma DcgStep(w: Discount, g: int, rest: seq<int>, off: nat)
    ensures DcgFrom(w, [g] + rest, off) == (Pow2(g) - 1.0) * w(off) + DcgFrom(w, rest, off + 1)
  {
    hide Pow2;
    assert ([g] + rest)[1..] == rest;
  }

  lemma NoDcg(w: Discount, off: nat)
    ensures DcgFrom(w, [], off) == 0.0 && Pow2(0) == 1.0
  {
  }

  lemma {:induction false} DcgFromLast(w: Discount, s: seq<int>, g: int, off: nat)
    ensures DcgFrom(w, s + [g], off) == DcgFrom(w, s, off) + (Pow2(g) - 1.0) * w(off + |s|)
  {
    hide *;
    if s == [] {
      DcgStep(w, g, [], off);
      NoDcg(w, off);
      NoDcg(w, off + 1);
      assert [] + [g] == [g] + [];
    } else {
      DcgStep(w, s[0], s[1..] + [g], off);
      DcgStep(w, s[0], s[1..], off);
      DcgFromLast(w, s[1..], g, off + 1);
      assert s + [g] == [s[0]] + (s[1..] + [g]) && s == [s[0]] + s[1..];
    }
  }

  /** The gain at the last position is 2^g - 1, discounted by that position. */
  lemma DcgOfLast(w: Discount, s: seq<int>, g: int)
    ensures Dcg(w, s + [g]) == Dcg(w, s) + (Pow2(g) - 1.0) * w(|s|)
    ensures Dcg(w, []) == 0.0 && Pow2(0) == 1.0
  {
    hide DcgFrom;
    DcgFromLast(w, s, g, 0);
    NoDcg(w, 0);
  }

  /** nDCG compares the first k grades with the same grades in descending order, and is nothing when that
      order gains nothing. */
  lemma NdcgIsShareOfIdeal(w: Discount, grades: seq<int>, k: nat, best: seq<int>)
    requires var head := if k < |grades| then grades[..k] else grades;
      multiset(best) == multiset(head) && Descending(best)
    ensures var head := if k < |grades| then grades[..k] else grades;
      if Dcg(w, best) > 0.0 then NdcgAtK(w, grades, k) * Dcg(w, best) == Dcg(w, head)
      else NdcgAtK(w, grades, k) == 0.0
  {
    hide *;
    var head := Head(grades, k);
    HeadIs(grades, k);
    SortDescDescending(head);
    DescendingUnique(best, SortDesc(head));
    NdcgUnfolds(w, grades, k);
    if Dcg(w, best) > 0.0 { QuotientTimes(Dcg(w, head), Dcg(w, best)); }
  }

  lemma HeadIs(grades: seq<int>, k: nat)
    ensures Head(grades, k) == if k < |grades| then grades[..k] else grades
  {
  }

  lemma NdcgUnfolds(w: Discount, grades: seq<int>, k: int)
    ensures NdcgAtK(w, grades, k) ==
      if Dcg(w, SortDesc(Head(grades, k))) > 0.0
      then Dcg(w, Head(grades, k)) / Dcg(w, SortDesc(Head(grades, k))) else 0.0
  {
    if grades == [] { assert Head(grades, k) == []; }
  }

  lemma QuotientTimes(a: real, b: real)
    requires b > 0.0
    ensures a / b * b == a
  {
  }

  /** Grades behind the first k do not count. */
  lemma OnlyFirstGradesCount(w: Discount, grades: seq<int>, more: seq<int>, k: nat)
    requires 0 < k <= |grades|
    ensures NdcgAtK(w, grades + more, k) == NdcgAtK(w, grades, k)
  {
    assert (grades + more)[..k] == grades[..k];
    assert k == |grades| ==> grades[..k] == grades;
    assert k == |grades + more| ==> (grades + more)[..k] == grades + more;
  }
}
