/** The conflict join of the fact ledger (src/services/ledger.py): same metric, different sections,
    different values. */
module Ledger {
  import opened Ordered
  import opened Text

  /** A ledger value: its text, and its number when float() reads one. */
  datatype Value = Value(text: string, number: Option<real>)

  /** One ledger entry.  column == "" when the entry has no table column; rangeTop is present when
      the entry records a range, and holds the range's upper end when that reads as a number. */
  datatype Entry = Entry(metric: string, sectionRef: string, value: Value, unit: string,
                         time: Option<string>, scenario: Option<string>, column: string,
                         rangeTop: Option<Option<real>>, chunkIds: set<string>)

  // ---------- Comparing two entries ----------

  /** _norm_metric: without white space, middle dots, parentheses and hyphens, in lower case */
  function NormMetric(text: string): string {
    if text == "" then ""
    else if IsSpace(text[0]) || text[0] in "·()-" then NormMetric(text[1..])
    else [LowerChar(text[0])] + NormMetric(text[1..])
  }

  predicate SameMetric(a: Entry, b: Entry) {
    NormMetric(a.metric) != "" && NormMetric(a.metric) == NormMetric(b.metric)
  }

  /** _values_conflict */
  function ValuesConflict(a: Entry, b: Entry): bool {
    if a.unit != b.unit then false
    else if a.value.number.None? || b.value.number.None? then a.value.text != b.value.text
    else
      var va, vb := a.value.number.value, b.value.number.value;
      if va == vb then false
      else
        var hi, lo := if va < vb then vb else va, if va < vb then va else vb;
        lo > 0.0 && (hi - lo) / hi > 0.02
  }

  /** _qualifiers_confirmed */
  predicate QualifiersConfirmed(a: Entry, b: Entry) {
    && !(a.scenario.Some? && b.scenario.Some? && a.scenario != b.scenario)
    && a.time.Some? && b.time.Some? && a.time == b.time
  }

  predicate DifferentTableColumn(a: Entry, b: Entry) {
    a.column != "" && b.column != "" && a.column != b.column
  }

  predicate TopBecamePoint(rng: Entry, point: Entry) {
    && rng.rangeTop.Some? && point.rangeTop.None?
    && point.value.number.Some? && rng.rangeTop.value.Some?
    && -0.000000001 <= point.value.number.value - rng.rangeTop.value.value <= 0.000000001
  }

  datatype Promotion = Promotion(rangeRef: string, pointRef: string)

  /** _range_promotion */
  function RangePromotion(a: Entry, b: Entry): Option<Promotion> {
    if TopBecamePoint(a, b) then Some(Promotion(a.sectionRef, b.sectionRef))
    else if TopBecamePoint(b, a) then Some(Promotion(b.sectionRef, a.sectionRef))
    else None
  }

  /** Two numbers conflict exactly when both are positive and the smaller is below 98% of the larger:
      the order of the pair does not matter, and values that are not positive never conflict. */
  lemma NumericConflict(a: Entry, b: Entry)
    requires a.unit == b.unit && a.value.number.Some? && b.value.number.Some?
    ensures var x, y := a.value.number.value, b.value.number.value;
      ValuesConflict(a, b) <==> x > 0.0 && y > 0.0 && (x < 0.98 * y || y < 0.98 * x)
  {
    var x, y := a.value.number.value, b.value.number.value;
    var hi, lo := if x < y then y else x, if x < y then x else y;
    if lo > 0.0 {
      RatioAbove(hi, lo);
    }
  }

  lemma RatioAbove(hi: real, lo: real)
    requires hi >= lo > 0.0
    ensures (hi - lo) / hi > 0.02 <==> lo < 0.98 * hi
  {
    var q := (hi - lo) / hi;
    assert q * hi == hi - lo;
    ShareAbove(q, hi, lo);
  }

  lemma ShareAbove(q: real, hi: real, lo: real)
    requires hi > 0.0 && q * hi == hi - lo
    ensures q > 0.02 <==> lo < 0.98 * hi
  {
    SignOfProduct(q - 0.02, hi);
    assert (q - 0.02) * hi == q * hi - 0.02 * hi;
  }

  lemma SignOfProduct(x: real, y: real)
    requires y > 0.0
    ensures x * y > 0.0 <==> x > 0.0
  {
  }

  // ---------- The join ----------

  type Entries = seq<Entry>

  /** A metric that has several values within one section is a list heading, not an identifier. */
  ghost predicate Ambiguous(es: Entries, metric: string, sectionRef: string) {
    exists k, l :: 0 <= k < |es| && 0 <= l < |es| && Keyed(es[k], metric, sectionRef)
        && Keyed(es[l], metric, sectionRef)
                   && es[k].value.text != es[l].value.text
  }

  predicate Keyed(e: Entry, metric: string, sectionRef: string) {
    NormMetric(e.metric) == metric && e.sectionRef == sectionRef
  }

  ghost predicate IsAmbiguous(es: Entries, e: Entry) {
    Ambiguous(es, NormMetric(e.metric), e.sectionRef)
  }

  ghost predicate Comparable(es: Entries, a: Entry, b: Entry) {
    && a.sectionRef != b.sectionRef
    && !IsAmbiguous(es, a) && !IsAmbiguous(es, b)
    && SameMetric(a, b) && !DifferentTableColumn(a, b)
  }

  /** What two entries are reported under; a key is reported once. */
  datatype Key =
    | PromotionKey(refA: string, refB: string, metric: string)
    | ConflictKey(lowRef: string, highRef: string, metric: string, lowValue: string, highValue: string)

  datatype Finding =
    | PromotionFinding(sectionRef: string, metric: string, rangeRef: string, pointRef: string, chunkIds: set<string>)
    | ConflictFinding(critical: bool, sectionRef: string, metric: string, refA: string, valueA: string, refB: string,
        valueB: string, unit: string, chunkIds: set<string>)

  function KeyOf(a: Entry, b: Entry): Key {
    if RangePromotion(a, b).Some? then PromotionKey(a.sectionRef, b.sectionRef, a.metric)
    else ConflictKey(LexMin(a.sectionRef, b.sectionRef), LexMax(a.sectionRef, b.sectionRef), NormMetric(a.metric),
                     LexMin(a.value.text, b.value.text), LexMax(a.value.text, b.value.text))
  }

  function FindingOf(a: Entry, b: Entry): Finding {
    var promo := RangePromotion(a, b);
    if promo.Some? then
      PromotionFinding(promo.value.pointRef, a.metric, promo.value.rangeRef, promo.value.pointRef,
          a.chunkIds + b.chunkIds)
    else
      ConflictFinding(QualifiersConfirmed(a, b), b.sectionRef, a.metric, a.sectionRef, a.value.text,
                      b.sectionRef, b.value.text, a.unit, a.chunkIds + b.chunkIds)
  }

  /** A pair of positions, as the two loops meet it. */
  type Pair = (nat, nat)

  ghost predicate InRange(es: Entries, p: Pair) {
    p.0 < p.1 < |es|
  }

  /** Positions i < j whose entries call for a finding. */
  ghost predicate Reportable(es: Entries, p: Pair) {
    && InRange(es, p) && Comparable(es, es[p.0], es[p.1])
    && (RangePromotion(es[p.0], es[p.1]).Some? || ValuesConflict(es[p.0], es[p.1]))
  }

  ghost predicate ConflictPair(es: Entries, p: Pair) {
    Reportable(es, p) && RangePromotion(es[p.0], es[p.1]).None?
  }

  ghost function KeyAt(es: Entries, p: Pair): Key
    requires InRange(es, p)
  {
    KeyOf(es[p.0], es[p.1])
  }

  predicate Before(p: Pair, q: Pair) {
    p.0 < q.0 || (p.0 == q.0 && p.1 < q.1)
  }

  ghost predicate Clash(es: Entries, p: Pair, q: Pair) {
    Reportable(es, p) && Reportable(es, q) && KeyAt(es, p) == KeyAt(es, q)
  }

  /** No earlier pair is reported under the same key. */
  ghost predicate First(es: Entries, p: Pair) {
    Reportable(es, p) && forall q: Pair :: Before(q, p) ==> !Clash(es, q, p)
  }

  ghost predicate FoundAt(es: Entries, p: Pair, f: Finding) {
    First(es, p) && f == FindingOf(es[p.0], es[p.1])
  }

  /** findings[p] is the finding of the pair at[p]; the pairs are exactly the first ones of their
      keys, in loop order. */
  ghost predicate IsJoin(es: Entries, findings: seq<Finding>, at: seq<Pair>) {
    && |at| == |findings|
    && (forall n :: 0 <= n < |at| ==> FoundAt(es, at[n], findings[n]))
    && (forall m, n :: 0 <= m < n < |at| ==> Before(at[m], at[n]))
    && (forall p: Pair :: First(es, p) ==> p in at)
  }

  lemma JoinHas(es: Entries, findings: seq<Finding>, at: seq<Pair>)
    requires IsJoin(es, findings, at)
    ensures Rising(at, Before) && forall p: Pair :: p in at <==> First(es, p)
  {
    hide First, FindingOf;
    forall p: Pair | p in at ensures First(es, p) {
      var n :| 0 <= n < |at| && at[n] == p;
      assert FoundAt(es, at[n], findings[n]);
    }
  }

  /** A ledger has one join only: its findings and their order are determined. */
  lemma JoinIsUnique(es: Entries, findings: seq<Finding>, at: seq<Pair>, findings': seq<Finding>, at': seq<Pair>)
    requires IsJoin(es, findings, at) && IsJoin(es, findings', at')
    ensures findings == findings' && at == at'
  {
    hide First, FindingOf;
    JoinHas(es, findings, at);
    JoinHas(es, findings', at');
    SameRising(at, at', Before);
    forall n | 0 <= n < |at| ensures findings[n] == findings'[n] {
      assert FoundAt(es, at[n], findings[n]) && FoundAt(es, at'[n], findings'[n]);
    }
  }

  ghost predicate IsJoinOf(es: Entries, findings: seq<Finding>) {
    exists at: seq<Pair> :: IsJoin(es, findings, at)
  }

  method AmbiguousKeys(es: Entries) returns (ambiguous: set<(string, string)>)
    ensures forall m, s :: (m, s) in ambiguous <==> Ambiguous(es, m, s)
  {
    hide NormMetric;
    var valuesByKey: map<(string, string), set<string>> := map[];
    for k := 0 to |es|
      invariant forall m, s :: (m, s) in valuesByKey <==> exists j :: 0 <= j < k && Keyed(es[j], m, s)
      invariant forall m, s :: (m, s) in valuesByKey ==>
                  forall v :: v in valuesByKey[(m, s)]
                      <==> exists j :: 0 <= j < k && Keyed(es[j], m, s) && es[j].value.text == v
    {
      var key := (NormMetric(es[k].metric), es[k].sectionRef);
      var known := if key in valuesByKey then valuesByKey[key] else {};
      assert Keyed(es[k], key.0, key.1);
      valuesByKey := valuesByKey[key := known + {es[k].value.text}];
    }
    ambiguous := set key | key in valuesByKey && |valuesByKey[key]| > 1;
    forall m, s ensures (m, s) in ambiguous <==> Ambiguous(es, m, s) {
      if (m, s) in valuesByKey {
        var values := valuesByKey[(m, s)];
        SeveralIffDistinct(values);
        if Ambiguous(es, m, s) {
          var k, l :| 0 <= k < |es| && 0 <= l < |es| && Keyed(es[k], m, s) && Keyed(es[l], m, s)
              && es[k].value.text != es[l].value.text;
          assert es[k].value.text in values && es[l].value.text in values;
        }
      }
    }
  }

  lemma SeveralIffDistinct(s: set<string>)
    ensures |s| > 1 <==> exists v, w :: v in s && w in s && v != w
  {
    if |s| > 1 {
      var v :| v in s;
      assert |s - {v}| == |s| - 1;
      var w :| w in s - {v};
    }
    if v, w :| v in s && w in s && v != w {
      assert {v, w} <= s;
      var rest := s - {v, w};
      assert s == rest + {v, w} && |rest + {v, w}| == |rest| + 2;
    }
  }

  /** What the loops have established when all pairs before `here` have been met. */
  ghost predicate Progress(es: Entries, findings: seq<Finding>, at: seq<Pair>, reported: set<Key>, here: Pair) {
    && |at| == |findings|
    && (forall n :: 0 <= n < |at| ==> FoundAt(es, at[n], findings[n]) && Before(at[n], here))
    && (forall m, n :: 0 <= m < n < |at| ==> Before(at[m], at[n]))
    && (forall p: Pair :: First(es, p) && Before(p, here) ==> p in at)
    && Keys(es, reported, here)
  }

  /** The keys reported are those of the reportable pairs met. */
  ghost predicate Keys(es: Entries, reported: set<Key>, here: Pair) {
    && (forall p: Pair :: Reportable(es, p) && Before(p, here) ==> KeyAt(es, p) in reported)
    && (forall key :: key in reported ==> exists p: Pair :: Reportable(es, p) && Before(p, here) && KeyAt(es, p) == key)
  }

  lemma SkipPair(es: Entries, findings: seq<Finding>, at: seq<Pair>, reported: set<Key>, i: nat, j: nat)
    requires Progress(es, findings, at, reported, (i, j))
    requires Reportable(es, (i, j)) ==> KeyAt(es, (i, j)) in reported
    ensures Progress(es, findings, at, reported, (i, j + 1))
  {
    hide Comparable, RangePromotion, ValuesConflict, KeyOf, FindingOf;
    var here: Pair, next: Pair := (i, j), (i, j + 1);
    forall p: Pair | Before(p, next) ensures p == here || Before(p, here) {}
    if Reportable(es, here) {
      var q: Pair :| Reportable(es, q) && Before(q, here) && KeyAt(es, q) == KeyAt(es, here);
      assert Clash(es, q, here);
      assert !First(es, here);
    }
    forall p: Pair | First(es, p) && Before(p, next) ensures p in at {
      assert p != here;
    }
    assert Keys(es, reported, next);
  }

  lemma AddPair(es: Entries, findings: seq<Finding>, at: seq<Pair>, reported: set<Key>, i: nat, j: nat)
    requires Progress(es, findings, at, reported, (i, j))
    requires Reportable(es, (i, j)) && KeyAt(es, (i, j)) !in reported
    ensures Progress(es, findings + [FindingOf(es[i], es[j])], at + [(i, j)], reported + {KeyAt(es, (i, j))},
        (i, j + 1))
  {
    hide Comparable, RangePromotion, ValuesConflict, KeyOf, FindingOf;
    var here: Pair, next: Pair := (i, j), (i, j + 1);
    forall p: Pair | Before(p, next) ensures p == here || Before(p, here) {}
    assert First(es, here);
    assert FoundAt(es, here, FindingOf(es[i], es[j]));
    var at' := at + [here];
    forall p: Pair | First(es, p) && Before(p, next) ensures p in at' {
      if p != here { assert p in at; }
    }
    var reported' := reported + {KeyAt(es, here)};
    forall key | key in reported'
        ensures exists p: Pair :: Reportable(es, p) && Before(p, next) && KeyAt(es, p) == key {
      if key != KeyAt(es, here) {
        var p: Pair :| Reportable(es, p) && Before(p, here) && KeyAt(es, p) == key;
        assert Before(p, next);
      }
    }
  }

  /** Pairs that the loops do not meet are never reportable. */
  lemma MoveOn(es: Entries, findings: seq<Finding>, at: seq<Pair>, reported: set<Key>, here: Pair, there: Pair)
    requires Progress(es, findings, at, reported, here)
    requires forall p: Pair :: InRange(es, p) ==> (Before(p, here) <==> Before(p, there))
    ensures Progress(es, findings, at, reported, there)
  {
    forall p: Pair | Reportable(es, p) ensures InRange(es, p) {}
    hide Reportable, KeyAt, FindingOf;
    assert Keys(es, reported, there) by {
      forall key | key in reported
          ensures exists p: Pair :: Reportable(es, p) && Before(p, there) && KeyAt(es, p) == key {
        var p: Pair :| Reportable(es, p) && Before(p, here) && KeyAt(es, p) == key;
        assert Before(p, there);
      }
    }
  }

  /** join_conflicts, with the positions of the pairs as a ghost result. */
  method JoinConflicts(es: Entries) returns (findings: seq<Finding>, ghost at: seq<Pair>)
    ensures IsJoin(es, findings, at)
    ensures IsJoinOf(es, findings)
  {
    hide NormMetric, SameMetric, RangePromotion, ValuesConflict, FindingOf, KeyOf, DifferentTableColumn, Progress,
      Ambiguous, IsJoin;
    var ambiguous := AmbiguousKeys(es);
    var reported: set<Key> := {};
    findings, at := [], [];
    EmptyProgress(es);
    for i := 0 to |es|
      invariant Progress(es, findings, at, reported, (i, 0))
    {
      MoveOn(es, findings, at, reported, (i, 0), (i, i + 1));
      for j := i + 1 to |es|
        invariant Progress(es, findings, at, reported, (i, j))
      {
        var a, b := es[i], es[j];
        if a.sectionRef == b.sectionRef
           || (NormMetric(a.metric), a.sectionRef) in ambiguous || (NormMetric(b.metric), b.sectionRef) in ambiguous
           || !SameMetric(a, b) || DifferentTableColumn(a, b)
        {
          SkipPair(es, findings, at, reported, i, j);
          continue;
        }
        var promo := RangePromotion(a, b);
        if promo.None? && !ValuesConflict(a, b) {
          SkipPair(es, findings, at, reported, i, j);
          continue;
        }
        var key := KeyOf(a, b);
        if key in reported {
          SkipPair(es, findings, at, reported, i, j);
          continue;
        }
        AddPair(es, findings, at, reported, i, j);
        findings, at, reported := findings + [FindingOf(a, b)], at + [(i, j)], reported + {key};
      }
      MoveOn(es, findings, at, reported, (i, |es|), (i + 1, 0));
    }
    AllProgress(es, findings, at, reported);
  }

  lemma EmptyProgress(es: Entries)
    ensures Progress(es, [], [], {}, (0, 0))
  {
    hide First, Reportable;
  }

  lemma AllProgress(es: Entries, findings: seq<Finding>, at: seq<Pair>, reported: set<Key>)
    requires Progress(es, findings, at, reported, (|es|, 0))
    ensures IsJoin(es, findings, at)
  {
    forall p: Pair | First(es, p) ensures Before(p, (|es|, 0)) {}
    hide First, Reportable, FoundAt;
  }

  // ---------- What the join guarantees ----------

  /** Every conflict finding has a witness pair, and it is critical exactly when that pair names the
      same explicit time and no different scenario. */
  lemma JoinIsSound(es: Entries, findings: seq<Finding>, at: seq<Pair>, p: nat)
    requires IsJoin(es, findings, at) && p < |findings| && findings[p].ConflictFinding?
    ensures var (i, j) := at[p]; var f := findings[p];
      && ConflictPair(es, (i, j))
      && f.refA == es[i].sectionRef && f.refB == es[j].sectionRef && f.refA != f.refB
      && f.valueA == es[i].value.text && f.valueB == es[j].value.text && f.unit == es[i].unit == es[j].unit
      && f.sectionRef == es[j].sectionRef && f.metric == es[i].metric && f.chunkIds == es[i].chunkIds + es[j].chunkIds
      && (f.critical <==>
            && es[i].time.Some? && es[j].time.Some? && es[i].time.value == es[j].time.value
            && !(es[i].scenario.Some? && es[j].scenario.Some? && es[i].scenario.value != es[j].scenario.value))
  {
    hide NormMetric, Ambiguous, KeyOf;
  }

  lemma {:induction false} FirstOfKey(es: Entries, p: Pair) returns (q: Pair)
    requires Reportable(es, p)
    ensures First(es, q) && Clash(es, q, p)
    ensures q == p || Before(q, p)
    decreases p.0, p.1
  {
    hide Reportable, KeyAt;
    if First(es, p) {
      q := p;
    } else {
      var p': Pair :| Before(p', p) && Clash(es, p', p);
      q := FirstOfKey(es, p');
    }
  }

  /** A finding names the two sections and the metric of a pair, in either order. */
  ghost predicate Represents(f: Finding, a: Entry, b: Entry) {
    && f.ConflictFinding? && NormMetric(f.metric) == NormMetric(a.metric)
    && ((f.refA == a.sectionRef && f.refB == b.sectionRef && f.valueA == a.value.text && f.valueB == b.value.text)
        || (f.refA == b.sectionRef && f.refB == a.sectionRef && f.valueA == b.value.text && f.valueB == a.value.text))
  }

  /** Same key, both conflicts: the same two sections with the same metric and the same two values.
      The values cannot be exchanged, because each section has one value of the metric. */
  lemma SameConflictKey(es: Entries, i: nat, j: nat, k: nat, l: nat)
    requires ConflictPair(es, (i, j)) && ConflictPair(es, (k, l)) && KeyOf(es[i], es[j]) == KeyOf(es[k], es[l])
    ensures NormMetric(es[i].metric) == NormMetric(es[k].metric)
    ensures (es[i].sectionRef == es[k].sectionRef && es[j].sectionRef == es[l].sectionRef
             && es[i].value.text == es[k].value.text && es[j].value.text == es[l].value.text)
         || (es[i].sectionRef == es[l].sectionRef && es[j].sectionRef == es[k].sectionRef
             && es[i].value.text == es[l].value.text && es[j].value.text == es[k].value.text)
  {
    hide NormMetric, LexMin, LexMax, RangePromotion;
    UnorderedPair(es[i].sectionRef, es[j].sectionRef, es[k].sectionRef, es[l].sectionRef);
    UnambiguousValue(es, es[i], es[k]);
    UnambiguousValue(es, es[i], es[l]);
    UnambiguousValue(es, es[j], es[l]);
    UnambiguousValue(es, es[j], es[k]);
  }

  lemma UnambiguousValue(es: Entries, a: Entry, b: Entry)
    requires a in es && b in es && !IsAmbiguous(es, a)
    ensures NormMetric(a.metric) == NormMetric(b.metric) && a.sectionRef == b.sectionRef ==>
        a.value.text == b.value.text
  {
    hide NormMetric;
    var k :| 0 <= k < |es| && es[k] == a;
    var l :| 0 <= l < |es| && es[l] == b;
    if NormMetric(a.metric) == NormMetric(b.metric) && a.sectionRef == b.sectionRef {
      assert Keyed(es[k], NormMetric(a.metric), a.sectionRef) && Keyed(es[l], NormMetric(a.metric), a.sectionRef);
    }
  }

  lemma SameMetricPair(es: Entries, i: nat, j: nat)
    requires ConflictPair(es, (i, j))
    ensures NormMetric(es[i].metric) == NormMetric(es[j].metric) && es[i].sectionRef != es[j].sectionRef
  {
    hide NormMetric, RangePromotion, ValuesConflict, Ambiguous;
  }

  /** The finding of the first pair under its key represents a conflict pair, and has that first
      pair's severity: a later pair that is confirmed does not raise it. */
  lemma SeverityIsOfFirstPair(es: Entries, findings: seq<Finding>, at: seq<Pair>, p: Pair) returns (n: nat)
    requires IsJoin(es, findings, at) && ConflictPair(es, p)
    ensures n < |findings| && First(es, at[n]) && Clash(es, at[n], p)
    ensures Represents(findings[n], es[p.0], es[p.1])
    ensures findings[n].critical <==> QualifiersConfirmed(es[at[n].0], es[at[n].1])
  {
    var first := FirstOfKey(es, p);
    var (k, l) := first;
    KeyKinds(es, p.0, p.1, k, l);
    SameConflictKey(es, p.0, p.1, k, l);
    SameMetricPair(es, p.0, p.1);
    SameMetricPair(es, k, l);
    FindingOfConflict(es, k, l);
    hide NormMetric, First, Reportable, ConflictPair, KeyOf, RangePromotion, FindingOf;
    n :| 0 <= n < |at| && at[n] == (k, l);
    assert FoundAt(es, at[n], findings[n]);
  }

  /** Every conflicting pair that is not a range promotion is represented by a finding. */
  lemma JoinIsComplete(es: Entries, findings: seq<Finding>, at: seq<Pair>, i: nat, j: nat)
    requires IsJoin(es, findings, at) && ConflictPair(es, (i, j))
    ensures exists p :: 0 <= p < |findings| && Represents(findings[p], es[i], es[j])
  {
    hide *;
    var n := SeverityIsOfFirstPair(es, findings, at, (i, j));
  }

  ghost predicate Confirmed(es: Entries, p: Pair)
    requires InRange(es, p)
  {
    QualifiersConfirmed(es[p.0], es[p.1])
  }

  /** Some critical finding represents the pair. */
  ghost predicate IsCritical(es: Entries, findings: seq<Finding>, p: Pair)
    requires InRange(es, p)
  {
    exists n: nat :: n < |findings| && Represents(findings[n], es[p.0], es[p.1]) && findings[n].critical
  }

  /** The first pair under the key of p is confirmed. */
  ghost predicate FirstIsConfirmed(es: Entries, p: Pair) {
    forall q: Pair :: First(es, q) && Clash(es, q, p) ==> Confirmed(es, q)
  }

  lemma FirstIsOnlyOne(es: Entries, p: Pair, q: Pair, r: Pair)
    requires First(es, q) && First(es, r) && Clash(es, q, p) && Clash(es, r, p)
    ensures q == r
  {
    hide Reportable, KeyOf;
    assert Clash(es, q, r) && Clash(es, r, q);
  }

  lemma RepresentedOnce(es: Entries, findings: seq<Finding>, at: seq<Pair>, p: Pair, m: nat, n: nat)
    requires IsJoin(es, findings, at) && InRange(es, p) && m < |findings| && n < |findings|
    requires Represents(findings[m], es[p.0], es[p.1]) && Represents(findings[n], es[p.0], es[p.1])
    ensures m == n
  {
    hide IsJoin, NormMetric;
    if m < n {
      OneFindingPerSectionPairAndMetric(es, findings, at, m, n);
    } else if n < m {
      OneFindingPerSectionPairAndMetric(es, findings, at, n, m);
    }
  }

  lemma ConfirmedFields(a: Entry, b: Entry)
    ensures QualifiersConfirmed(a, b) <==>
      && a.time.Some? && b.time.Some? && a.time.value == b.time.value
      && !(a.scenario.Some? && b.scenario.Some? && a.scenario.value != b.scenario.value)
  {
  }

  lemma FirstConfirmedFields(es: Entries, p: Pair)
    ensures FirstIsConfirmed(es, p) <==> forall q: Pair :: First(es, q) && Clash(es, q, p) ==>
      var a, b := es[q.0], es[q.1];
      && a.time.Some? && b.time.Some? && a.time.value == b.time.value
      && !(a.scenario.Some? && b.scenario.Some? && a.scenario.value != b.scenario.value)
  {
    hide First, Comparable, ValuesConflict, RangePromotion, KeyOf, QualifiersConfirmed;
    forall q: Pair | First(es, q) && Clash(es, q, p)
      ensures Confirmed(es, q) == QualifiersConfirmed(es[q.0], es[q.1])
    {
    }
    forall q: Pair | First(es, q) && Clash(es, q, p)
      ensures Confirmed(es, q) <==>
        var a, b := es[q.0], es[q.1];
        && a.time.Some? && b.time.Some? && a.time.value == b.time.value
        && !(a.scenario.Some? && b.scenario.Some? && a.scenario.value != b.scenario.value)
    {
      ConfirmedFields(es[q.0], es[q.1]);
    }
  }

  /** A conflict pair ends in a critical finding exactly when the first pair under its key names one
      time, and no two scenarios. */
  lemma CriticalIffFirstIsConfirmed(es: Entries, findings: seq<Finding>, p: Pair)
    requires IsJoinOf(es, findings) && ConflictPair(es, p)
    ensures IsCritical(es, findings, p) <==> FirstIsConfirmed(es, p)
    ensures FirstIsConfirmed(es, p) <==> forall q: Pair :: First(es, q) && Clash(es, q, p) ==>
      var a, b := es[q.0], es[q.1];
      && a.time.Some? && b.time.Some? && a.time.value == b.time.value
      && !(a.scenario.Some? && b.scenario.Some? && a.scenario.value != b.scenario.value)
  {
    FirstConfirmedFields(es, p);
    var at :| IsJoin(es, findings, at);
    assert InRange(es, p) && |at| == |findings|;
    hide IsJoin, First, Clash, Reportable, Represents, QualifiersConfirmed;
    var n := SeverityIsOfFirstPair(es, findings, at, p);
    forall q: Pair | First(es, q) && Clash(es, q, p) ensures q == at[n] { FirstIsOnlyOne(es, p, q, at[n]); }
    forall m: nat | m < |findings| && Represents(findings[m], es[p.0], es[p.1]) ensures m == n {
      RepresentedOnce(es, findings, at, p, m, n);
    }
  }

  /** All contradictions about one and the same time are critical exactly when none of them shares
      its key with an earlier pair that is not about one time. */
  lemma ConfirmedConflictsAreCriticalIff(es: Entries, findings: seq<Finding>)
    requires IsJoinOf(es, findings)
    ensures (forall p: Pair :: ConflictPair(es, p) && Confirmed(es, p) ==> IsCritical(es, findings, p))
      <==> (forall p: Pair :: ConflictPair(es, p) && Confirmed(es, p) ==> FirstIsConfirmed(es, p))
  {
    hide Confirmed, IsCritical, FirstIsConfirmed, Comparable, ValuesConflict, RangePromotion, IsJoinOf;
    forall p: Pair | ConflictPair(es, p) ensures IsCritical(es, findings, p) <==> FirstIsConfirmed(es, p) {
      CriticalIffFirstIsConfirmed(es, findings, p);
    }
  }

  /** An entry of the example below: one metric, told by two sections. */
  function Told(sectionRef: string, value: string, number: real, time: Option<string>): Entry {
    Entry("m", sectionRef, Value(value, Some(number)), "", time, None, "", None, {})
  }

  /** Two entries of section 1 and one of section 2, which names the year as the second of section 1
      does. */
  function YearToldTwice(): Entries {
    [Told("1", "5", 5.0, None), Told("2", "7", 7.0, Some("2024")), Told("1", "5", 5.0, Some("2024"))]
  }

  /** So a contradiction about the same explicit year can end as a mere warning: section 1 states the
      value once without and once with the year, and the pair without the year comes first. */
  lemma ConfirmedConflictCanBeMasked(findings: seq<Finding>, at: seq<Pair>)
    requires IsJoin(YearToldTwice(), findings, at)
    ensures ConflictPair(YearToldTwice(), (1, 2)) && QualifiersConfirmed(YearToldTwice()[1], YearToldTwice()[2])
    ensures forall n :: 0 <= n < |findings| ==> findings[n].ConflictFinding? && !findings[n].critical
  {
    hide YearToldTwice, FindingOf, First, ConflictPair, QualifiersConfirmed;
    MaskingExample();
    MaskingFinding();
    forall n | 0 <= n < |findings| ensures findings[n].ConflictFinding? && !findings[n].critical {
      assert FoundAt(YearToldTwice(), at[n], findings[n]);
      OnlyOneFirst(at[n]);
    }
  }

  lemma MaskingFinding()
    ensures var es := YearToldTwice();
      |es| == 3 && QualifiersConfirmed(es[1], es[2]) && var f := FindingOf(es[0], es[1]);
          f.ConflictFinding? && !f.critical
  {
  }

  lemma OnlyOneFirst(p: Pair)
    requires First(YearToldTwice(), p)
    ensures p == (0, 1)
  {
    hide Comparable, ValuesConflict, RangePromotion, YearToldTwice;
    MaskingExample();
  }

  lemma ToldConflict(es: Entries, i: nat, j: nat)
    requires i < j < |es| && !IsAmbiguous(es, es[i]) && !IsAmbiguous(es, es[j])
    requires es[i] == Told(es[i].sectionRef, es[i].value.text, 5.0, es[i].time)
        || es[i] == Told(es[i].sectionRef, es[i].value.text, 7.0, es[i].time)
    requires es[j] == Told(es[j].sectionRef, es[j].value.text, 5.0, es[j].time)
        || es[j] == Told(es[j].sectionRef, es[j].value.text, 7.0, es[j].time)
    requires es[i].sectionRef != es[j].sectionRef && es[i].value.number != es[j].value.number
    ensures ConflictPair(es, (i, j))
  {
    hide Ambiguous, IsAmbiguous, NormMetric;
    NumericConflict(es[i], es[j]);
    hide ValuesConflict;
    NormalMetric();
  }

  lemma YearIsUnambiguous()
    ensures var es := YearToldTwice(); |es| == 3 && forall i :: 0 <= i < 3 ==> !IsAmbiguous(es, es[i])
  {
    OneValuePerSection(YearToldTwice());
    hide IsAmbiguous;
  }

  lemma YearConflicts()
    ensures ConflictPair(YearToldTwice(), (0, 1)) && ConflictPair(YearToldTwice(), (1, 2))
  {
    hide IsAmbiguous, NormMetric, ConflictPair;
    YearIsUnambiguous();
    ToldConflict(YearToldTwice(), 0, 1);
    ToldConflict(YearToldTwice(), 1, 2);
  }

  lemma YearKeys()
    ensures var es := YearToldTwice();
        KeyOf(es[0], es[1]) == KeyOf(es[1], es[2]) && es[0].sectionRef == es[2].sectionRef
  {
    hide NormMetric, KeyOf;
    var es := YearToldTwice();
    ExchangedKey(es[0], es[1], es[2]);
  }

  lemma SharedKey(es: Entries, p: Pair, q: Pair)
    requires ConflictPair(es, p) && ConflictPair(es, q) && KeyOf(es[p.0], es[p.1]) == KeyOf(es[q.0], es[q.1])
        && Before(p, q)
    ensures !First(es, q)
  {
    hide KeyOf, Comparable, ValuesConflict, RangePromotion;
    assert Clash(es, p, q);
  }

  lemma MaskingExample()
    ensures var es := YearToldTwice();
      ConflictPair(es, (0, 1)) && ConflictPair(es, (1, 2)) && !First(es, (1, 2)) && !Reportable(es, (0, 2))
    ensures forall p: Pair :: InRange(YearToldTwice(), p) ==> p == (0, 1) || p == (0, 2) || p == (1, 2)
  {
    hide YearToldTwice, ConflictPair, KeyOf, First, Reportable;
    YearIsUnambiguous();
    YearConflicts();
    YearKeys();
    SharedKey(YearToldTwice(), (0, 1), (1, 2));
    SameSection(YearToldTwice(), 0, 2);
  }

  lemma SameSection(es: Entries, i: nat, j: nat)
    requires i < j < |es| && es[i].sectionRef == es[j].sectionRef
    ensures !Reportable(es, (i, j))
  {
    hide Ambiguous, IsAmbiguous, NormMetric, ValuesConflict, RangePromotion;
  }

  lemma NormalMetric()
    ensures NormMetric("m") == "m"
  {
  }

  lemma OneValuePerSection(es: Entries)
    requires forall k, l :: 0 <= k < |es| && 0 <= l < |es| && es[k].sectionRef == es[l].sectionRef ==>
        es[k].value.text == es[l].value.text
    ensures forall e :: e in es ==> !IsAmbiguous(es, e)
  {
    hide NormMetric;
  }

  lemma ExchangedKey(a: Entry, b: Entry, c: Entry)
    requires a.sectionRef == c.sectionRef && a.value == c.value && a.metric == b.metric
    requires RangePromotion(a, b).None? && RangePromotion(b, c).None?
    ensures KeyOf(a, b) == KeyOf(b, c)
  {
    UnorderedPair(a.sectionRef, b.sectionRef, b.sectionRef, c.sectionRef);
    UnorderedPair(a.value.text, b.value.text, b.value.text, c.value.text);
    hide LexMin, LexMax, NormMetric;
  }

  lemma KeyKinds(es: Entries, i: nat, j: nat, k: nat, l: nat)
    requires ConflictPair(es, (i, j)) && Clash(es, (k, l), (i, j))
    ensures ConflictPair(es, (k, l)) && KeyOf(es[k], es[l]) == KeyOf(es[i], es[j])
  {
  }

  lemma FindingOfConflict(es: Entries, k: nat, l: nat)
    requires ConflictPair(es, (k, l))
    ensures Represents(FindingOf(es[k], es[l]), es[k], es[l])
    ensures FindingOf(es[k], es[l]).refA == es[k].sectionRef && FindingOf(es[k], es[l]).refB == es[l].sectionRef
    ensures FindingOf(es[k], es[l]).metric == es[k].metric
  {
    hide NormMetric;
  }

  /** There is at most one conflict finding for two sections and a metric. */
  lemma OneFindingPerSectionPairAndMetric(es: Entries, findings: seq<Finding>, at: seq<Pair>, p: nat, q: nat)
    requires IsJoin(es, findings, at) && p < q < |findings|
    requires findings[p].ConflictFinding? && findings[q].ConflictFinding?
    requires NormMetric(findings[p].metric) == NormMetric(findings[q].metric)
    ensures {findings[p].refA, findings[p].refB} != {findings[q].refA, findings[q].refB}
  {
    JoinIsSound(es, findings, at, p);
    JoinIsSound(es, findings, at, q);
    var (i, j) := at[p];
    var (k, l) := at[q];
    FindingOfConflict(es, i, j);
    FindingOfConflict(es, k, l);
    assert FoundAt(es, at[p], findings[p]) && FoundAt(es, at[q], findings[q]);
    assert !Clash(es, at[p], at[q]);
    if {findings[p].refA, findings[p].refB} == {findings[q].refA, findings[q].refB} {
      SameSectionsSameKey(es, i, j, k, l);
    }
  }

  lemma SameSectionsSameKey(es: Entries, i: nat, j: nat, k: nat, l: nat)
    requires ConflictPair(es, (i, j)) && ConflictPair(es, (k, l))
    requires NormMetric(es[i].metric) == NormMetric(es[k].metric)
    requires {es[i].sectionRef, es[j].sectionRef} == {es[k].sectionRef, es[l].sectionRef}
    ensures KeyOf(es[i], es[j]) == KeyOf(es[k], es[l])
  {
    SameMetricPair(es, i, j);
    SameMetricPair(es, k, l);
    hide NormMetric, LexMin, LexMax, RangePromotion;
    assert es[i].sectionRef in {es[k].sectionRef, es[l].sectionRef}
        && es[j].sectionRef in {es[k].sectionRef, es[l].sectionRef};
    UnorderedPair(es[i].sectionRef, es[j].sectionRef, es[k].sectionRef, es[l].sectionRef);
    UnambiguousValue(es, es[i], es[k]);
    UnambiguousValue(es, es[i], es[l]);
    UnambiguousValue(es, es[j], es[l]);
    UnambiguousValue(es, es[j], es[k]);
    UnorderedPair(es[i].value.text, es[j].value.text, es[k].value.text, es[l].value.text);
  }
}
