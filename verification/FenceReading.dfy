/** What the parser of chart fences accepts, whatever text it is given, and what it reads from it
    (src/core/charts.py: parse_chart_spec). */
module FenceReading {
  import opened Text
  import opened Numbers
  import opened Charts

  // ---------- Lists ----------

  lemma {:induction false} PartsJoined(a: seq<string>, b: seq<string>)
    ensures NonEmptyParts(a + b) == NonEmptyParts(a) + NonEmptyParts(b)
  {
    hide Strip;
    if a == [] {
      assert a + b == b;
    } else {
      assert (a + b)[0] == a[0] && (a + b)[1..] == a[1..] + b;
      PartsJoined(a[1..], b);
    }
  }

  /** The items of a list are the items before the first separator, then those after it. */
  lemma ItemsBeforeAndAfter(a: string, sep: char, b: string)
    requires sep !in a
    ensures SplitList(a + [sep] + b, sep) == SplitList(a, sep) + SplitList(b, sep)
  {
    hide Split, NonEmptyParts;
    SplitPrefix(a, sep, b);
    SplitOne(a, sep);
    PartsJoined([a], Split(b, sep));
  }

  /** Text without a separator is one item, without its outer white space, or none when it is blank. */
  lemma OneItem(a: string, sep: char)
    requires sep !in a
    ensures SplitList(a, sep) == if Strip(a) == "" then [] else [Strip(a)]
  {
    hide Strip, Split;
    SplitOne(a, sep);
    NoParts(a);
  }

  lemma NoParts(a: string)
    ensures NonEmptyParts([a]) == if Strip(a) == "" then [] else [Strip(a)]
  {
    hide Strip;
    assert [a][1..] == [];
    assert NonEmptyParts([]) == [];
  }

  /** Sources are the items that are numerals, one by one. */
  lemma {:induction false} SourcesOneByOne(parts: seq<string>, p: string)
    ensures ReadSources(parts + [p])
         == ReadSources(parts) + if p != "" && AllDigits(p) then [StringToNat(p)] else []
  {
    hide StringToNat;
    if parts == [] {
      assert parts + [p] == [p] && [p][1..] == [];
      assert ReadSources([]) == [];
    } else {
      assert (parts + [p])[0] == parts[0] && (parts + [p])[1..] == parts[1..] + [p];
      SourcesOneByOne(parts[1..], p);
    }
  }

  // ---------- One series line ----------

  /** The line reads "name = values": its first "=" behind the first character stands at e, and is not the
      last character. */
  ghost predicate IsSplitAt(raw: string, e: nat) {
    1 <= e < |raw| - 1 && raw[e] == '=' && forall i :: 1 <= i < e ==> raw[i] != '='
  }

  ghost predicate AreNumbers(items: seq<string>, values: seq<Decimal>) {
    |items| == |values| && forall i :: 0 <= i < |items| ==> SignedNumber(items[i]) == Some(values[i])
  }

  /** The line gives this series over that many points. */
  ghost predicate Reads(raw: string, points: nat, s: Series) {
    exists e: nat :: IsSplitAt(raw, e) && s.name == Strip(raw[..e])
      && AreNumbers(SplitList(raw[e + 1..], '|'), s.values) && |s.values| == points
  }

  ghost predicate AllNumbers(items: seq<string>) {
    forall i :: 0 <= i < |items| ==> SignedNumber(items[i]).Some?
  }

  /** What is wrong with a line. */
  ghost predicate HasFault(raw: string, points: nat, error: SpecError) {
    match error
    case BadSeries => forall e: nat :: !IsSplitAt(raw, e)
    case BadNumber => exists e: nat :: IsSplitAt(raw, e) && !AllNumbers(SplitList(raw[e + 1..], '|'))
    case WrongCount =>
      exists e: nat :: IsSplitAt(raw, e) && AllNumbers(SplitList(raw[e + 1..], '|'))
                       && |SplitList(raw[e + 1..], '|')| != points
    case _ => false
  }

  lemma {:induction false} NumbersIff(items: seq<string>)
    ensures ReadNumbers(items).Some? ==> AreNumbers(items, ReadNumbers(items).value)
    ensures ReadNumbers(items).Some? <==> AllNumbers(items)
  {
    hide SignedNumber;
    if items != [] {
      NumbersIff(items[1..]);
      if ReadNumbers(items[1..]).None? {
        var i :| 0 <= i < |items| - 1 && SignedNumber(items[1..][i]).None?;
        assert SignedNumber(items[i + 1]).None?;
      } else {
        forall i | 1 <= i < |items| ensures SignedNumber(items[i]) == Some(ReadNumbers(items[1..]).value[i - 1]) {
          assert items[i] == items[1..][i - 1];
        }
      }
    }
  }

  lemma SplitIs(raw: string)
    ensures SplitSeries(raw).None? <==> forall e: nat :: !IsSplitAt(raw, e)
    ensures forall e: nat :: IsSplitAt(raw, e) ==> SplitSeries(raw) == Some((Strip(raw[..e]), raw[e + 1..]))
  {
    hide Strip;
    if raw != "" {
      var k := FirstIndex(raw, '=', 1);
      forall e: nat | IsSplitAt(raw, e) ensures e == k {}
      if k + 1 < |raw| { assert IsSplitAt(raw, k); }
    }
  }

  lemma SeriesIff(raw: string, points: nat)
    ensures forall s :: ParseSeries(raw, points) == Ok(s) <==> Reads(raw, points, s)
    ensures forall error :: ParseSeries(raw, points) == Err(error) <==> HasFault(raw, points, error)
  {
    hide SplitSeries, ReadNumbers, SplitList, SignedNumber, Strip, AreNumbers, AllNumbers;
    SplitIs(raw);
    if e: nat :| IsSplitAt(raw, e) {
      var items := SplitList(raw[e + 1..], '|');
      forall f: nat | IsSplitAt(raw, f) ensures f == e { OneSplit(raw, e, f); }
      NumbersIff(items);
      forall values | AreNumbers(items, values) ensures ReadNumbers(items) == Some(values) {
        SameNumbers(items, values);
      }
      NumberOrNot(items);
    }
  }

  lemma OneSplit(raw: string, e: nat, f: nat)
    requires IsSplitAt(raw, e) && IsSplitAt(raw, f)
    ensures e == f
  {
  }

  lemma NumberOrNot(items: seq<string>)
    ensures forall values :: AreNumbers(items, values) ==> |values| == |items| && AllNumbers(items)
  {
    hide SignedNumber;
  }

  lemma SameNumbers(items: seq<string>, values: seq<Decimal>)
    requires AreNumbers(items, values)
    ensures ReadNumbers(items) == Some(values)
  {
    hide SignedNumber;
    NumbersIff(items);
    assert AllNumbers(items);
    var read := ReadNumbers(items).value;
    forall i | 0 <= i < |items| ensures read[i] == values[i] { assert SignedNumber(items[i]) == Some(read[i]); }
    assert read == values;
  }

  // ---------- All series lines ----------

  ghost predicate AllRead(raws: seq<string>, points: nat, series: seq<Series>) {
    |series| == |raws| && forall i :: 0 <= i < |raws| ==> Reads(raws[i], points, series[i])
  }

  ghost predicate IsReadable(raw: string, points: nat) {
    exists s :: Reads(raw, points, s)
  }

  /** Line i has the fault and the lines before it are read. */
  ghost predicate FirstFault(raws: seq<string>, points: nat, error: SpecError, i: nat) {
    && i < |raws| && HasFault(raws[i], points, error)
    && forall k :: 0 <= k < i ==> IsReadable(raws[k], points)
  }

  lemma {:induction false} AllSeriesIff(raws: seq<string>, points: nat)
    ensures forall series :: ParseAllSeries(raws, points) == Ok(series) <==> AllRead(raws, points, series)
    ensures forall error :: ParseAllSeries(raws, points) == Err(error) <==>
      exists i: nat :: FirstFault(raws, points, error, i)
  {
    hide ParseSeries, Reads, HasFault;
    if raws != [] {
      var r, tail := ParseSeries(raws[0], points), raws[1..];
      SeriesIff(raws[0], points);
      AllSeriesIff(tail, points);
      forall series ensures AllRead(raws, points, series) <==>
        series != [] && Reads(raws[0], points, series[0]) && AllRead(tail, points, series[1..])
      {
        AllReadStep(raws, points, series);
      }
      forall series: seq<Series> | series != [] ensures series == [series[0]] + series[1..] {}
      forall error ensures (exists i: nat :: FirstFault(raws, points, error, i)) <==>
        HasFault(raws[0], points, error)
        || (IsReadable(raws[0], points) && exists i: nat :: FirstFault(tail, points, error, i))
      {
        FirstFaultStep(raws, points, error);
      }
      hide AllRead, FirstFault;
    }
  }

  lemma AllReadStep(raws: seq<string>, points: nat, series: seq<Series>)
    requires raws != []
    ensures AllRead(raws, points, series) <==>
      series != [] && Reads(raws[0], points, series[0]) && AllRead(raws[1..], points, series[1..])
  {
    hide Reads;
    if series != [] && Reads(raws[0], points, series[0]) && AllRead(raws[1..], points, series[1..]) {
      forall i | 0 < i < |raws| ensures Reads(raws[i], points, series[i]) {
        assert raws[i] == raws[1..][i - 1] && series[i] == series[1..][i - 1];
      }
    }
  }

  lemma FirstFaultStep(raws: seq<string>, points: nat, error: SpecError)
    requires raws != []
    ensures (exists i: nat :: FirstFault(raws, points, error, i)) <==>
      HasFault(raws[0], points, error)
      || (IsReadable(raws[0], points) && exists i: nat :: FirstFault(raws[1..], points, error, i))
  {
    hide IsReadable, HasFault;
    var tail := raws[1..];
    assert forall i :: 0 < i < |raws| ==> raws[i] == tail[i - 1];
    if i: nat :| FirstFault(raws, points, error, i) {
      if i > 0 {
        forall k | 0 <= k < i - 1 ensures IsReadable(tail[k], points) { assert tail[k] == raws[k + 1]; }
        assert FirstFault(tail, points, error, i - 1);
      }
    }
    if HasFault(raws[0], points, error) { assert FirstFault(raws, points, error, 0); }
    if IsReadable(raws[0], points) && exists i: nat :: FirstFault(tail, points, error, i) {
      var i: nat :| FirstFault(tail, points, error, i);
      forall k | 0 <= k < i + 1 ensures IsReadable(raws[k], points) {
        if k > 0 { assert IsReadable(tail[k - 1], points); }
      }
      assert FirstFault(raws, points, error, i + 1);
    }
  }

  // ---------- The whole text ----------

  function FieldsOf(b: string): Fields {
    FieldsFrom(SplitLines(b), Fields(map[], []))
  }

  /** The kind a text names, in small letters. */
  function KindIn(f: Fields): string {
    Lower(Strip(Lookup(f.single, "type")))
  }

  function PointsIn(f: Fields): seq<string> {
    SplitList(Lookup(f.single, "x"), '|')
  }

  /** The parts of the spec that no condition speaks of. */
  ghost predicate HasTexts(spec: ChartSpec, f: Fields) {
    && spec.title == Strip(Lookup(f.single, "title")) && spec.unit == Strip(Lookup(f.single, "unit"))
    && spec.source == ReadSources(SplitList(Lookup(f.single, "source"), ','))
    && spec.table == Lookup(f.single, "table")
  }

  /** The number of series and, for a pie, of labels. */
  ghost predicate FitsCaps(kind: string, points: nat, series: nat) {
    1 <= series <= 5 && (kind == "pie" ==> series == 1 && points <= 5)
  }

  /** The fields name bar, line or pie, at least two labels and one to five series lines, each of which reads
      "name = values" with one number for every label, and a pie has one series and at most five labels;
      the spec is what is read. */
  ghost predicate IsChartOf(f: Fields, spec: ChartSpec) {
    && spec.kind == KindIn(f) && spec.kind in ["bar", "line", "pie"]
    && spec.x == PointsIn(f) && |spec.x| >= 2
    && |spec.series| == |f.series|
    && (forall i :: 0 <= i < |f.series| ==> Reads(f.series[i], |spec.x|, spec.series[i]))
    && FitsCaps(spec.kind, |spec.x|, |spec.series|) && HasTexts(spec, f)
  }

  /** Every text is accepted exactly when its fields are those of a chart, and as that chart. */
  lemma AcceptedIff(b: string, spec: ChartSpec)
    ensures ParseText(b) == Ok(spec) <==> IsChartOf(FieldsOf(b), spec)
  {
    hide *;
    TextIs(b);
    if SpecOf(FieldsOf(b)) == Ok(spec) { OkIsChart(FieldsOf(b), spec); }
    if IsChartOf(FieldsOf(b), spec) { ChartIsOk(FieldsOf(b), spec); }
  }

  lemma TextIs(b: string)
    ensures ParseText(b) == SpecOf(FieldsOf(b))
  {
  }

  lemma KindIff(kind: string)
    ensures IsKind(kind) <==> kind in ["bar", "line", "pie"]
  {
  }

  lemma AllReadIs(raws: seq<string>, points: nat, series: seq<Series>)
    ensures AllRead(raws, points, series) <==>
      |series| == |raws| && forall i :: 0 <= i < |raws| ==> Reads(raws[i], points, series[i])
  {
    hide Reads;
  }

  lemma OkIsChart(f: Fields, spec: ChartSpec)
    requires SpecOf(f) == Ok(spec)
    ensures IsChartOf(f, spec)
  {
    OkSteps(f, spec);
    hide *;
    AllSeriesIff(f.series, |PointsIn(f)|);
    AllReadIs(f.series, |spec.x|, spec.series);
    KindIff(spec.kind);
    ChartIs(f, spec);
  }

  lemma OkSteps(f: Fields, spec: ChartSpec)
    requires SpecOf(f) == Ok(spec)
    ensures spec.kind == KindIn(f) && IsKind(spec.kind) && spec.x == PointsIn(f) && |spec.x| >= 2
    ensures ParseAllSeries(f.series, |PointsIn(f)|) == Ok(spec.series)
    ensures FitsCaps(spec.kind, |spec.x|, |spec.series|) && HasTexts(spec, f)
  {
    hide Strip, Lower, SplitList, ReadSources, ParseAllSeries, IsKind, Lookup;
  }

  lemma ChartIs(f: Fields, spec: ChartSpec)
    ensures IsChartOf(f, spec) <==>
      && spec.kind == KindIn(f) && spec.kind in ["bar", "line", "pie"] && spec.x == PointsIn(f) && |spec.x| >= 2
      && |spec.series| == |f.series|
      && (forall i :: 0 <= i < |f.series| ==> Reads(f.series[i], |spec.x|, spec.series[i]))
      && FitsCaps(spec.kind, |spec.x|, |spec.series|) && HasTexts(spec, f)
  {
    hide KindIn, PointsIn, Reads, FitsCaps, HasTexts;
  }

  lemma ChartIsOk(f: Fields, spec: ChartSpec)
    requires IsChartOf(f, spec)
    ensures SpecOf(f) == Ok(spec)
  {
    hide *;
    ChartIs(f, spec);
    AllReadIs(f.series, |spec.x|, spec.series);
    AllSeriesIff(f.series, |PointsIn(f)|);
    KindIff(spec.kind);
    OkFromSteps(f, spec);
  }

  lemma OkFromSteps(f: Fields, spec: ChartSpec)
    requires spec.kind == KindIn(f) && IsKind(spec.kind) && spec.x == PointsIn(f) && |spec.x| >= 2
    requires ParseAllSeries(f.series, |PointsIn(f)|) == Ok(spec.series)
    requires FitsCaps(spec.kind, |spec.x|, |spec.series|) && HasTexts(spec, f)
    ensures SpecOf(f) == Ok(spec)
  {
    hide Strip, Lower, SplitList, ReadSources, ParseAllSeries, IsKind, Lookup;
  }

  /** So whatever an accepted text says, it is a chart that can be drawn. */
  lemma AcceptedIsWellFormed(b: string)
    requires ParseText(b).Ok?
    ensures var spec := ParseText(b).value;
      && (spec.kind == "bar" || spec.kind == "line" || spec.kind == "pie")
      && |spec.x| >= 2 && 1 <= |spec.series| <= 5
      && (forall i :: 0 <= i < |spec.series| ==> |spec.series[i].values| == |spec.x|)
      && (spec.kind == "pie" ==> |spec.series| == 1 && |spec.x| <= 5)
  {
    var spec := ParseText(b).value;
    hide ParseText, KindIn, PointsIn, FieldsOf, Reads, HasTexts;
    AcceptedIff(b, spec);
    ChartIs(FieldsOf(b), spec);
    hide IsChartOf;
    forall i | 0 <= i < |spec.series| ensures |spec.series[i].values| == |spec.x| {
      ReadsLength(FieldsOf(b).series[i], |spec.x|, spec.series[i]);
    }
  }

  lemma ReadsLength(raw: string, points: nat, s: Series)
    requires Reads(raw, points, s)
    ensures |s.values| == points
  {
    hide Strip, SplitList, AreNumbers;
  }

  /** A refused text is refused for the first thing that is wrong with it. */
  lemma RefusedIff(b: string, error: SpecError)
    ensures ParseText(b) == Err(error) <==>
      var f := FieldsOf(b);
      var kind, points, lines := KindIn(f), |PointsIn(f)|, |f.series|;
      if kind !in ["bar", "line", "pie"] then error == UnknownKind
      else if points < 2 then error == TooFewPoints
      else if !forall i :: 0 <= i < lines ==> IsReadable(f.series[i], points) then
        exists i: nat :: FirstFault(f.series, points, error, i)
      else if lines == 0 then error == NoSeries
      else if lines > 5 then error == TooManySeries
      else kind == "pie" && if lines > 1 then error == PieNeedsOneSeries else points > 5 && error == TooManySlices
  {
    hide *;
    var f := FieldsOf(b);
    TextIs(b);
    KindIff(KindIn(f));
    RefusalSteps(f, error);
    AllSeriesIff(f.series, |PointsIn(f)|);
    ReadableIff(f.series, |PointsIn(f)|);
    forall series | AllRead(f.series, |PointsIn(f)|, series) ensures |series| == |f.series| {
      AllReadIs(f.series, |PointsIn(f)|, series);
    }
  }

  lemma RefusalSteps(f: Fields, error: SpecError)
    ensures var r := ParseAllSeries(f.series, |PointsIn(f)|);
      SpecOf(f) == Err(error) <==>
        var kind, points := KindIn(f), |PointsIn(f)|;
        if !IsKind(kind) then error == UnknownKind
        else if points < 2 then error == TooFewPoints
        else if r.Err? then r.error == error
        else if |r.value| == 0 then error == NoSeries
        else if |r.value| > 5 then error == TooManySeries
        else kind == "pie" && if |r.value| > 1 then error == PieNeedsOneSeries
                              else points > 5 && error == TooManySlices
  {
    hide Strip, Lower, SplitList, ReadSources, ParseAllSeries, IsKind, Lookup;
  }

  lemma ReadableIff(raws: seq<string>, points: nat)
    ensures ParseAllSeries(raws, points).Ok? <==> forall i :: 0 <= i < |raws| ==> IsReadable(raws[i], points)
  {
    AllSeriesIff(raws, points);
    hide ParseAllSeries, Reads, HasFault;
    var r := ParseAllSeries(raws, points);
    if r.Ok? {
      forall i | 0 <= i < |raws| ensures IsReadable(raws[i], points) { assert Reads(raws[i], points, r.value[i]); }
    } else {
      var i: nat :| FirstFault(raws, points, r.error, i);
      FaultyIsUnreadable(raws[i], points, r.error);
    }
  }

  lemma FaultyIsUnreadable(raw: string, points: nat, error: SpecError)
    requires HasFault(raw, points, error)
    ensures !IsReadable(raw, points)
  {
    SeriesIff(raw, points);
    hide HasFault, Reads, ParseSeries;
  }
}
