/** The conflict join of the fact ledger, said of the fields of the entries: which pairs it reports, as
    what, and which of them share a finding (src/services/ledger.py). */
module LedgerFields {
  import opened Text
  import opened Ledger

  // ---------- Metric names ----------

  /** Names are compared character by character: the name of a joined text is that of its parts. */
  lemma {:induction false} NormMetricOfJoined(a: string, b: string)
    ensures NormMetric(a + b) == NormMetric(a) + NormMetric(b)
  {
    if a == "" {
      assert a + b == b;
    } else {
      assert (a + b)[0] == a[0] && (a + b)[1..] == a[1..] + b;
      NormMetricOfJoined(a[1..], b);
    }
  }

  /** Of the characters, white space, the middle dot, parentheses and the hyphen do not count, and ASCII
      capitals count as small letters. */
  lemma NormMetricOfChar(c: char)
    ensures c in " \t\n\r·()-" ==> NormMetric([c]) == ""
    ensures 'A' <= c <= 'Z' ==> NormMetric([c]) == [(c as int + 32) as char]
    ensures !('A' <= c <= 'Z') && !IsSpace(c) && c !in "·()-" ==> NormMetric([c]) == [c]
  {
    assert [c][1..] == "";
    assert NormMetric("") == "";
  }

  // ---------- Which pairs are reported ----------

  /** Two entries of different sections conflict exactly when they have one metric name, which has one
      value in each of the sections, no two different column heads and one unit, neither is the hardened
      upper end of the other's range, and their values differ: numbers by more than two percent and both
      positive, anything else as text. */
  lemma ConflictPairIff(es: Entries, i: nat, j: nat)
    requires i < j < |es|
    ensures var a, b := es[i], es[j];
      ConflictPair(es, (i, j)) <==>
        && a.sectionRef != b.sectionRef
        && NormMetric(a.metric) == NormMetric(b.metric) && NormMetric(a.metric) != ""
        && (a.column == "" || b.column == "" || a.column == b.column)
        && (forall k :: 0 <= k < |es| && es[k].sectionRef == a.sectionRef ==>
              NormMetric(es[k].metric) == NormMetric(a.metric) ==> es[k].value.text == a.value.text)
        && (forall k :: 0 <= k < |es| && es[k].sectionRef == b.sectionRef ==>
              NormMetric(es[k].metric) == NormMetric(b.metric) ==> es[k].value.text == b.value.text)
        && RangePromotion(a, b).None?
        && a.unit == b.unit
        && (if a.value.number.Some? && b.value.number.Some? then
              var x, y := a.value.number.value, b.value.number.value;
              x > 0.0 && y > 0.0 && (x < 0.98 * y || y < 0.98 * x)
            else a.value.text != b.value.text)
  {
    hide NormMetric, RangePromotion, Ambiguous, ValuesConflict;
    var a, b := es[i], es[j];
    AmbiguousIff(es, i);
    AmbiguousIff(es, j);
    ValuesConflictIff(a, b);
  }

  lemma ValuesConflictIff(a: Entry, b: Entry)
    ensures ValuesConflict(a, b) <==>
      && a.unit == b.unit
      && (if a.value.number.Some? && b.value.number.Some? then
            var x, y := a.value.number.value, b.value.number.value;
            x > 0.0 && y > 0.0 && (x < 0.98 * y || y < 0.98 * x)
          else a.value.text != b.value.text)
  {
    if a.unit == b.unit && a.value.number.Some? && b.value.number.Some? {
      NumericConflict(a, b);
    }
  }

  lemma AmbiguousIff(es: Entries, i: nat)
    requires i < |es|
    ensures !IsAmbiguous(es, es[i]) <==>
      forall k :: 0 <= k < |es| && es[k].sectionRef == es[i].sectionRef ==>
        NormMetric(es[k].metric) == NormMetric(es[i].metric) ==> es[k].value.text == es[i].value.text
  {
    hide NormMetric;
    var m, r := NormMetric(es[i].metric), es[i].sectionRef;
    forall k | 0 <= k < |es| && es[k].sectionRef == r && NormMetric(es[k].metric) == m
               && es[k].value.text != es[i].value.text
      ensures IsAmbiguous(es, es[i])
    {
      assert Keyed(es[i], m, r) && Keyed(es[k], m, r);
    }
  }

  /** A pair is a hardened range exactly when one entry has a range whose upper end, within 1e-9, is the
      number of the other, which has none; it is reported under the section that states the number. */
  lemma PromotionIff(a: Entry, b: Entry)
    ensures RangePromotion(a, b).Some? <==>
      || (a.rangeTop.Some? && a.rangeTop.value.Some? && b.rangeTop.None? && b.value.number.Some?
          && -1.0 <= (a.rangeTop.value.value - b.value.number.value) * 1000000000.0 <= 1.0)
      || (b.rangeTop.Some? && b.rangeTop.value.Some? && a.rangeTop.None? && a.value.number.Some?
          && -1.0 <= (b.rangeTop.value.value - a.value.number.value) * 1000000000.0 <= 1.0)
    ensures RangePromotion(a, b).Some? ==>
      RangePromotion(a, b).value == if a.rangeTop.Some? then Promotion(a.sectionRef, b.sectionRef)
                                    else Promotion(b.sectionRef, a.sectionRef)
  {
  }

  /** What a promotion finding says of its pair. */
  lemma PromotionIsSound(es: Entries, findings: seq<Finding>, at: seq<Pair>, n: nat)
    requires IsJoin(es, findings, at) && n < |findings| && findings[n].PromotionFinding?
    ensures var (i, j) := at[n]; var f := findings[n];
      && i < j < |es| && es[i].sectionRef != es[j].sectionRef
      && NormMetric(es[i].metric) == NormMetric(es[j].metric) && f.metric == es[i].metric
      && f.chunkIds == es[i].chunkIds + es[j].chunkIds && f.sectionRef == f.pointRef
      && f.rangeRef == (if es[i].rangeTop.Some? then es[i].sectionRef else es[j].sectionRef)
      && f.pointRef == (if es[i].rangeTop.Some? then es[j].sectionRef else es[i].sectionRef)
  {
    hide NormMetric, Ambiguous, KeyOf, RangePromotion, ValuesConflict, IsJoin;
    assert FoundAt(es, at[n], findings[n]) by { JoinAt(es, findings, at, n); }
    PromotionIff(es[at[n].0], es[at[n].1]);
  }

  lemma JoinAt(es: Entries, findings: seq<Finding>, at: seq<Pair>, n: nat)
    requires IsJoin(es, findings, at) && n < |findings|
    ensures |at| == |findings| && FoundAt(es, at[n], findings[n])
  {
    hide FoundAt, First;
  }

  // ---------- Which pairs share a finding ----------

  /** Two reportable pairs share a finding exactly when both are promotions of literally the same metric
      in the same sections, in the same order, or both are conflicts over one metric name, the same two
      sections and the same two values, each in either order. */
  lemma ClashIff(es: Entries, p: Pair, q: Pair)
    requires Reportable(es, p) && Reportable(es, q)
    ensures var a, b, c, d := es[p.0], es[p.1], es[q.0], es[q.1];
      Clash(es, p, q) <==>
        if RangePromotion(a, b).Some? then
          && RangePromotion(c, d).Some? && a.metric == c.metric
          && a.sectionRef == c.sectionRef && b.sectionRef == d.sectionRef
        else
          && RangePromotion(c, d).None? && NormMetric(a.metric) == NormMetric(c.metric)
          && ((a.sectionRef == c.sectionRef && b.sectionRef == d.sectionRef)
              || (a.sectionRef == d.sectionRef && b.sectionRef == c.sectionRef))
          && ((a.value.text == c.value.text && b.value.text == d.value.text)
              || (a.value.text == d.value.text && b.value.text == c.value.text))
  {
    var a, b, c, d := es[p.0], es[p.1], es[q.0], es[q.1];
    hide NormMetric, LexMin, LexMax, RangePromotion, Comparable, ValuesConflict;
    UnorderedPair(a.sectionRef, b.sectionRef, c.sectionRef, d.sectionRef);
    UnorderedPair(a.value.text, b.value.text, c.value.text, d.value.text);
  }
}
