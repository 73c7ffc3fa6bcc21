/** A strictly ordered sequence is determined by its elements. */
module Ordered {

  ghost predicate Rising<T>(s: seq<T>, less: (T, T) -> bool) {
    forall j, k :: 0 <= j < k < |s| ==> less(s[j], s[k])
  }

  ghost predicate Asymmetric<T(!new)>(less: (T, T) -> bool) {
    forall x, y :: less(x, y) ==> !less(y, x)
  }

  /** What the tail of a rising sequence holds. */
  lemma TailHas<T(!new)>(s: seq<T>, less: (T, T) -> bool, t: T)
    requires s != [] && Rising(s, less) && Asymmetric(less)
    ensures t in s[1..] <==> t in s && t != s[0]
  {
    var tail := s[1..];
    assert forall k :: 0 <= k < |tail| ==> tail[k] == s[k + 1];
    forall k | 0 <= k < |tail| ensures tail[k] != s[0] { assert less(s[0], s[k + 1]); }
    assert s == [s[0]] + tail;
  }

  lemma FirstIsLeast<T(!new)>(s: seq<T>, less: (T, T) -> bool, t: T)
    requires Rising(s, less) && t in s
    ensures t == s[0] || less(s[0], t)
  {
    var k :| 0 <= k < |s| && s[k] == t;
  }

  lemma {:induction false} SameRising<T(!new)>(a: seq<T>, b: seq<T>, less: (T, T) -> bool)
    requires Rising(a, less) && Rising(b, less) && Asymmetric(less)
    requires forall t :: t in a <==> t in b
    ensures a == b
    decreases |a|
  {
    if b != [] { assert b[0] in b; }
    if a != [] {
      assert a[0] in b && b[0] in a;
      FirstIsLeast(a, less, b[0]);
      FirstIsLeast(b, less, a[0]);
      forall t ensures t in a[1..] <==> t in b[1..] {
        TailHas(a, less, t);
        TailHas(b, less, t);
      }
      SameRising(a[1..], b[1..], less);
    }
  }
}
