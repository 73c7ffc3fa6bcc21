/** What parse_chart_spec makes of a printed fence, and when that is the spec that was printed. */
module ChartRoundTrip {
  import opened Text
  import opened Numbers
  import opened Charts
  import opened ChartFields

  // ---------- Printed values ----------

  predicate IsPrintChar(c: char) {
    IsDigit(c) || c == '-' || c == '+' || c == '.' || c == 'e'
  }

  ghost predicate Printed(s: string) {
    forall i :: 0 <= i < |s| ==> IsPrintChar(s[i])
  }

  lemma PrintedConcat(s: string, t: string)
    requires Printed(s) && Printed(t)
    ensures Printed(s + t)
  {
  }

  lemma DigitsPrinted(s: string)
    requires AllDigits(s)
    ensures Printed(s) && Printed(Fraction(s))
  {
    if s != "" { PrintedConcat(".", s); }
  }

  lemma LayoutPrinted(r: Decimal)
    requires IsNormal(r)
    ensures Printed(LayoutOf(r).rest)
  {
    hide NatToString, Zeros;
    var x := r.point - 1;
    var n := NatToString(if x < 0 then -x else x);
    DigitsPrinted(n);
    DigitsPrinted("0" + n);
    PrintedConcat(if x < 0 then "e-" else "e+", if |n| < 2 then "0" + n else n);
  }

  /** `:g` prints digits, signs, a point and an exponent, with a digit in it. */
  lemma ValuePrinted(d: Decimal) returns (i: nat)
    requires IsNormal(d)
    ensures Printed(FormatG(d)) && i < |FormatG(d)| && IsDigit(FormatG(d)[i])
  {
    hide Rounded, LayoutOf, Fraction;
    var r := Rounded(d);
    var l := LayoutOf(r);
    LayoutPrinted(r);
    DigitsPrinted(l.ints);
    DigitsPrinted(l.frac);
    PrintedConcat(Fraction(l.frac), l.rest);
    PrintedConcat(l.ints, Fraction(l.frac) + l.rest);
    PrintedConcat("-", l.ints + (Fraction(l.frac) + l.rest));
    i := if r.neg then 1 else 0;
    assert FormatG(d)[i] == l.ints[0];
  }

  lemma PrintCharIsInside(c: char)
    ensures IsPrintChar(c) ==> !IsSpace(c) && c != '|' && c != '=' && c != '\n'
  {
  }

  lemma PrintedIsItem(s: string)
    requires Printed(s) && s != ""
    ensures Trimmed(s) && '|' !in s && '=' !in s && '\n' !in s
  {
    hide IsSpace, IsPrintChar;
    forall i | 0 <= i < |s|
        ensures !IsSpace(s[i]) && s[i] != '|' && s[i] != '=' && s[i] != '\n' { PrintCharIsInside(s[i]); }
  }

  /** So it is one trimmed list item. */
  lemma ValueIsItem(d: Decimal)
    requires IsNormal(d)
    ensures var s := FormatG(d);
      s != "" && Trimmed(s) && Strip(s) == s && '|' !in s && '=' !in s && '\n' !in s
  {
    hide *;
    var i := ValuePrinted(d);
    PrintedIsItem(FormatG(d));
    StripTrimmed(FormatG(d));
  }

  lemma ValuesAreItems(values: seq<Decimal>)
    requires forall i :: 0 <= i < |values| ==> IsNormal(values[i])
    ensures ListParts(PrintValues(values), '|') && StripAll(PrintValues(values)) == PrintValues(values)
    ensures forall i :: 0 <= i < |values| ==>
      PrintValues(values)[i] != "" && Trimmed(PrintValues(values)[i]) && '\n' !in PrintValues(values)[i]
  {
    hide FormatG, Strip, Trimmed;
    forall i | 0 <= i < |values|
      ensures var s := FormatG(values[i]); s != "" && Trimmed(s) && Strip(s) == s && '|' !in s && '\n' !in s
    {
      ValueIsItem(values[i]);
    }
  }

  // ---------- Tokens with a digit ----------

  lemma {:induction false} DigitIsFound(s: string, i: nat)
    requires i < |s| && IsDigit(s[i])
    ensures NumberStart(s).Some?
    decreases i
  {
    if i > 0 { DigitIsFound(s[1..], i - 1); }
  }

  lemma StripKeepsDigit(s: string, i: nat) returns (k: nat)
    requires i < |s| && IsDigit(s[i])
    ensures k < |Strip(s)| && IsDigit(Strip(s)[k])
  {
    hide *;
    var a, b := StripSplits(s);
    DigitsAreNoSpace(s[i]);
    k := i - a;
    assert Strip(s)[k] == s[i];
  }

  lemma DigitsAreNoSpace(c: char)
    ensures !(IsDigit(c) && IsSpace(c))
  {
  }

  // ---------- One series ----------

  lemma FirstIndexIs(s: string, c: char, i: nat, k: nat)
    requires i <= k < |s| && s[k] == c && forall j :: i <= j < k ==> s[j] != c
    ensures FirstIndex(s, c, i) == k
  {
  }

  lemma {:induction false} ReadAll(parts: seq<string>, values: seq<Decimal>)
    requires |parts| == |values| && forall i :: 0 <= i < |parts| ==> SignedNumber(parts[i]) == Some(values[i])
    ensures ReadNumbers(parts) == Some(values)
  {
    hide SignedNumber;
    if parts != [] {
      assert forall i :: 0 <= i < |parts| - 1 ==> parts[1..][i] == parts[i + 1];
      ReadAll(parts[1..], values[1..]);
      assert [values[0]] + values[1..] == values;
    }
  }

  function ReadBackAll(values: seq<Decimal>): (r: seq<Decimal>)
    requires forall i :: 0 <= i < |values| ==> IsNormal(values[i])
    ensures |r| == |values| && forall i :: 0 <= i < |r| ==> r[i] == ReadBack(values[i])
  {
    seq(|values|, i requires 0 <= i < |values| => ReadBack(values[i]))
  }

  lemma PrintedAreReadBack(values: seq<Decimal>)
    requires forall i :: 0 <= i < |values| ==> IsNormal(values[i])
    ensures ReadNumbers(PrintValues(values)) == Some(ReadBackAll(values))
  {
    hide SignedNumber, FormatG, ReadBack, ReadNumbers;
    forall i | 0 <= i < |values| ensures SignedNumber(FormatG(values[i])) == Some(ReadBack(values[i])) {
      PrintedIsReadBack(values[i]);
    }
    ReadAll(PrintValues(values), ReadBackAll(values));
  }

  /** No '=' after the first character. */
  ghost predicate PlainName(name: string) {
    forall j :: 1 <= j < |name| ==> name[j] != '='
  }

  lemma SplitSeriesAt(raw: string, e: nat)
    requires 1 <= e < |raw| - 1 && raw[e] == '=' && forall j :: 1 <= j < e ==> raw[j] != '='
    ensures SplitSeries(raw) == Some((Strip(raw[..e]), raw[e + 1..]))
  {
    hide Strip, FirstIndex;
    FirstIndexIs(raw, '=', 1, e);
  }

  lemma SplitPlain(name: string, values: string)
    requires name != "" && Trimmed(name) && PlainName(name) && values != ""
    ensures SplitSeries(name + " = " + values) == Some((name, " " + values))
  {
    hide Strip, SplitSeries, Trimmed, IsSpace;
    var raw, e := name + " = " + values, |name| + 1;
    assert forall j :: 1 <= j < |name| ==> raw[j] == name[j];
    SplitSeriesAt(raw, e);
    assert raw[..e] == name + [' '] && raw[e + 1..] == " " + values;
    SpaceIsSpace();
    StripPadded(' ', name, ' ');
    StripTrimmed(name);
  }

  lemma SplitAtEquals(name: string, e: nat, values: string)
    requires 1 <= e < |name| && name[e] == '=' && (forall j :: 1 <= j < e ==> name[j] != '=')
    ensures SplitSeries(name + " = " + values) == Some((Strip(name[..e]), name[e + 1..] + " = " + values))
  {
    hide Strip, SplitSeries;
    var raw := name + " = " + values;
    assert forall j :: 1 <= j <= e ==> raw[j] == name[j];
    SplitSeriesAt(raw, e);
    assert raw[..e] == name[..e] && raw[e + 1..] == name[e + 1..] + " = " + values;
  }

  lemma PlainSeriesIsReadBack(s: Series)
    requires NormalSeries(s) && s.values != [] && s.name != "" && Trimmed(s.name) && PlainName(s.name)
    ensures ParseSeries(SeriesValue(s), |s.values|) == Ok(Series(s.name, ReadBackAll(s.values)))
  {
    hide SplitSeries, SplitList, Join, ReadNumbers, Strip, PrintValues, ReadBackAll, Trimmed, StripAll;
    var prints := PrintValues(s.values);
    var j := Join(prints, " | ");
    ValuesAreItems(s.values);
    JoinTrimmed(prints, " | ");
    SplitPlain(s.name, j);
    PaddedList(j, '|');
    SplitJoined(prints, " ", '|');
    assert " " + ['|'] + " " == " | ";
    PrintedAreReadBack(s.values);
  }

  /** A series survives exactly when its name has no '=' after the first character and its values
      print exactly. */
  lemma SeriesSurvivesIff(s: Series)
    requires NormalSeries(s) && s.values != [] && s.name != "" && Trimmed(s.name)
    ensures ParseSeries(SeriesValue(s), |s.values|) == Ok(s)
      <==> PlainName(s.name) && forall i :: 0 <= i < |s.values| ==> PrintsExactly(s.values[i])
  {
    hide SplitSeries, SplitList, Join, ReadNumbers, Strip, PrintValues, ReadBackAll, Trimmed, SeriesValue;
    if PlainName(s.name) {
      PlainSeriesIsReadBack(s);
      BackIffExact(s.values);
    } else {
      var e := FirstIndex(s.name, '=', 1);
      SeriesValueIs(s);
      SplitAtEquals(s.name, e, Join(PrintValues(s.values), " | "));
    }
  }

  lemma SeriesValueIs(s: Series)
    requires NormalSeries(s)
    ensures SeriesValue(s) == s.name + " = " + Join(PrintValues(s.values), " | ")
  {
  }

  lemma BackIffExact(values: seq<Decimal>)
    requires forall i :: 0 <= i < |values| ==> IsNormal(values[i])
    ensures ReadBackAll(values) == values <==> forall i :: 0 <= i < |values| ==> PrintsExactly(values[i])
  {
    hide SignedNumber, FormatG, ReadBack, PrintsExactly;
    forall i | 0 <= i < |values| ensures ReadBack(values[i]) == values[i] <==> PrintsExactly(values[i]) {
      PrintedIsReadBack(values[i]);
      SurvivesIffPrintsExactly(values[i]);
    }
    assert ReadBackAll(values) == values ==> forall i :: 0 <= i < |values| ==> ReadBackAll(values)[i] == values[i];
  }

  /** A name that goes on after '=': what follows the sign is read as the head of the first value. */
  function FirstToken(s: Series, e: nat): string
    requires NormalSeries(s) && s.values != [] && e < |s.name|
  {
    s.name[e + 1..] + " = " + FormatG(s.values[0])
  }

  lemma FirstTokenIsNumber(s: Series, e: nat)
    requires NormalSeries(s) && s.values != [] && e < |s.name| && '|' !in s.name
    ensures Strip(FirstToken(s, e)) != "" && '|' !in FirstToken(s, e) && SignedNumber(Strip(FirstToken(s, e))).Some?
  {
    hide FormatG, Strip, NumberStart;
    var head, v := s.name[e + 1..] + " = ", FormatG(s.values[0]);
    var i := ValuePrinted(s.values[0]);
    ValueIsItem(s.values[0]);
    assert (head + v)[|head| + i] == v[i];
    var k := StripKeepsDigit(head + v, |head| + i);
    DigitIsFound(Strip(head + v), k);
  }

  lemma EqualsMovesIntoTheFirstValue(s: Series, e: nat)
    requires NormalSeries(s) && s.values != [] && '|' !in s.name
    requires 1 <= e < |s.name| && s.name[e] == '=' && forall j :: 1 <= j < e ==> s.name[j] != '='
    ensures SignedNumber(Strip(FirstToken(s, e))).Some?
    ensures ParseSeries(SeriesValue(s), |s.values|)
         == Ok(Series(Strip(s.name[..e]), [SignedNumber(Strip(FirstToken(s, e))).value] + ReadBackAll(s.values[1..])))
  {
    hide SplitSeries, SplitList, Join, Strip, SignedNumber, SeriesValue, FormatG, ReadNumbers;
    var prints, tail := PrintValues(s.values), PrintValues(s.values[1..]);
    var first := FirstToken(s, e);
    FirstTokenIsNumber(s, e);
    SeriesValueIs(s);
    SplitAtEquals(s.name, e, Join(prints, " | "));
    assert prints == [FormatG(s.values[0])] + tail;
    JoinCons(FormatG(s.values[0]), tail, " | ");
    JoinCons(first, tail, " | ");
    assert s.name[e + 1..] + " = " + Join(prints, " | ") == Join([first] + tail, " | ");
    ValuesAreItems(s.values[1..]);
    assert ListParts([first] + tail, '|');
    SplitJoined([first] + tail, " ", '|');
    assert " " + ['|'] + " " == " | ";
    PartsCons(first, tail);
    PrintedAreReadBack(s.values[1..]);
    ReadCons(Strip(first), tail);
  }

  lemma ReadCons(p: string, tail: seq<string>)
    ensures var head, rest := SignedNumber(p), ReadNumbers(tail);
      ReadNumbers([p] + tail) == if head.None? || rest.None? then None else Some([head.value] + rest.value)
  {
    hide SignedNumber;
    assert ([p] + tail)[1..] == tail;
  }

  // ---------- The whole spec ----------

  predicate Label(s: string) {
    s != "" && Trimmed(s) && '\n' !in s
  }

  /** Any spec of one-line trimmed strings that keeps the parser's own limits. */
  predicate Drawable(spec: ChartSpec) {
    && IsKind(spec.kind)
    && Trimmed(spec.title) && '\n' !in spec.title
    && Trimmed(spec.unit) && '\n' !in spec.unit
    && 2 <= |spec.x| && (forall i :: 0 <= i < |spec.x| ==> Label(spec.x[i]) && '|' !in spec.x[i])
    && 1 <= |spec.series| <= MAX_SERIES
    && (forall i :: 0 <= i < |spec.series| ==>
        NormalSeries(spec.series[i]) && Label(spec.series[i].name) && |spec.series[i].values| == |spec.x|)
    && (spec.kind == "pie" ==> |spec.series| == 1 && |spec.x| <= MAX_SERIES)
  }

  function Raws(series: seq<Series>): (r: seq<string>)
    requires forall i :: 0 <= i < |series| ==> NormalSeries(series[i])
    ensures |r| == |series| && forall i :: 0 <= i < |r| ==> r[i] == SeriesValue(series[i])
  {
    seq(|series|, i requires 0 <= i < |series| => SeriesValue(series[i]))
  }

  lemma SeriesValueIsLine(s: Series)
    requires NormalSeries(s) && s.values != [] && Label(s.name)
    ensures Trimmed(SeriesValue(s)) && SeriesValue(s) != "|" && '\n' !in SeriesValue(s)
  {
    hide Join, FormatG;
    var prints := PrintValues(s.values);
    ValuesAreItems(s.values);
    JoinEnds(prints, " | ");
    JoinAvoids(prints, " | ", '\n');
    var v := SeriesValue(s);
    assert v[0] == s.name[0];
  }

  lemma {:induction false} JoinAvoids(parts: seq<string>, sep: string, c: char)
    requires c !in sep && forall i :: 0 <= i < |parts| ==> c !in parts[i]
    ensures c !in Join(parts, sep)
  {
    if |parts| > 1 {
      assert forall i :: 0 <= i < |parts| - 1 ==> parts[1..][i] == parts[i + 1];
      JoinAvoids(parts[1..], sep, c);
    }
  }

  lemma {:induction false} ReadSeriesLines(series: seq<Series>, k: nat, rest: seq<string>, f: Fields)
    requires k <= |series|
    requires forall i :: 0 <= i < |series| ==>
        NormalSeries(series[i]) && series[i].values != [] && Label(series[i].name)
    ensures FieldsFrom(SeriesLines(series)[k..] + rest, f)
        == FieldsFrom(rest, f.(series := f.series + Raws(series)[k..]))
    decreases |series| - k
  {
    hide FieldsFrom, SeriesValue, Label, Trimmed;
    var lines, raws := SeriesLines(series), Raws(series);
    if k == |series| {
      assert lines[k..] + rest == rest && f.series + raws[k..] == f.series;
    } else {
      SeriesValueIsLine(series[k]);
      assert lines[k..] + rest == ["series: " + raws[k]] + (lines[k + 1..] + rest);
      var g := f.(series := f.series + [raws[k]]);
      ReadSeries(raws[k], lines[k + 1..] + rest, f);
      ReadSeriesLines(series, k + 1, rest, g);
      assert f.series + raws[k..] == f.series + [raws[k]] + raws[k + 1..];
    }
  }

  /** The table as the parser hands it back: every line trimmed, then the whole. */
  function RereadTable(table: string): string {
    Strip(Join(StripAll(SplitLines(table)), "\n"))
  }

  function WithUnit(m: map<string, string>, unit: string): map<string, string> {
    if unit == "" then m else m["unit" := Kept(unit)]
  }

  function WithSource(m: map<string, string>, source: seq<nat>): map<string, string> {
    if source == [] then m else m["source" := Join(Numerals(source), ", ")]
  }

  function WithTable(m: map<string, string>, table: string): map<string, string> {
    if table == "" then m else m["table" := RereadTable(table)]
  }

  function ReadSingles(spec: ChartSpec): map<string, string> {
    WithTable(WithSource(WithUnit(map["type" := spec.kind, "title" := Kept(spec.title)], spec.unit)
      ["x" := Join(spec.x, " | ")], spec.source), spec.table)
  }

  // The tail of the body, from its last line backwards.

  lemma ReadTableLines(table: string, f: Fields)
    ensures FieldsFrom(TableLines(table), f) == f.(single := WithTable(f.single, table))
  {
    hide FieldsFrom, Strip, Join, StripAll, SplitLines, Indented;
    if table == "" {
      NoMoreFields([], f);
    } else {
      ReadTable(SplitLines(table), f);
    }
  }

  lemma FirstLineIsNoBlock(key: string, value: string, rest: seq<string>)
    requires IsKey(key) && Trimmed(value)
    ensures !ContinuesBlock(([key + ": " + value] + rest)[0])
  {
    FieldLine(key, value);
  }

  lemma NumeralsAreItems(source: seq<nat>)
    ensures ListParts(Numerals(source), ',') && StripAll(Numerals(source)) == Numerals(source)
    ensures forall i :: 0 <= i < |source| ==> var n := Numerals(source)[i];
      n != "" && Trimmed(n) && '\n' !in n && AllDigits(n)
  {
    hide NatToString, Strip;
    forall i | 0 <= i < |source|
      ensures var n := NatToString(source[i]); Trimmed(n) && Strip(n) == n && ',' !in n && '\n' !in n
    {
      var n := NatToString(source[i]);
      DigitsAreNoSpace(n[0]);
      DigitsAreNoSpace(n[|n| - 1]);
      StripTrimmed(n);
    }
  }

  lemma NumeralsAreLine(source: seq<nat>)
    requires source != []
    ensures var j := Join(Numerals(source), ", "); Trimmed(j) && j != "|" && '\n' !in j
  {
    hide NatToString, Join, Strip, StripAll;
    var parts := Numerals(source);
    NumeralsAreItems(source);
    JoinEnds(parts, ", ");
    JoinAvoids(parts, ", ", '\n');
  }

  lemma ReadSourceLines(source: seq<nat>, table: string, f: Fields)
    ensures FieldsFrom(SourceLines(source) + TableLines(table), f)
         == f.(single := WithTable(WithSource(f.single, source), table))
  {
    hide FieldsFrom, Join, Numerals, ContinuesBlock, Trimmed, Indented, SplitLines, RereadTable;
    var rest := TableLines(table);
    if source == [] {
      assert SourceLines(source) + rest == rest;
      ReadTableLines(table, f);
    } else {
      var j := Join(Numerals(source), ", ");
      NumeralsAreLine(source);
      TableLineIsNoBlock(table);
      ReadSingle("source", j, rest, f);
      assert "source" + ": " + j == "source: " + j;
      ReadTableLines(table, f.(single := f.single["source" := j]));
    }
  }

  lemma TableKeyIsNoBlock()
    ensures !ContinuesBlock("table: |")
  {
    hide *;
    BarTrimmed();
    TableIsKey();
    FieldLine("table", "|");
    assert "table" + ": " + "|" == "table: |";
  }

  lemma TableIsKey()
    ensures IsKey("table")
  {
  }

  lemma TableLineIsNoBlock(table: string)
    ensures var rest := TableLines(table); rest == [] || !ContinuesBlock(rest[0])
  {
    hide ContinuesBlock, Indented, SplitLines;
    TableKeyIsNoBlock();
  }

  function AfterX(spec: ChartSpec): seq<string>
    requires forall i :: 0 <= i < |spec.series| ==> NormalSeries(spec.series[i])
  {
    SeriesLines(spec.series) + (SourceLines(spec.source) + TableLines(spec.table))
  }

  lemma BodyParts(spec: ChartSpec)
    requires forall i :: 0 <= i < |spec.series| ==> NormalSeries(spec.series[i])
    ensures var x := ["x" + ": " + Join(spec.x, " | ")] + AfterX(spec);
      Body(spec) == ["type" + ": " + spec.kind] + (["title" + ": " + spec.title]
                 + (if spec.unit == "" then x else ["unit" + ": " + spec.unit] + x))
  {
    hide Join, SeriesLines, SourceLines, TableLines;
    assert "type" + ": " == "type: " && "title" + ": " == "title: " && "unit" + ": " == "unit: " && "x" + ": " == "x: ";
  }

  lemma KeysAreKeys()
    ensures IsKey("type") && IsKey("title") && IsKey("unit") && IsKey("x")
  {
  }

  lemma LowerKind(kind: string)
    requires IsKind(kind)
    ensures Lower(kind) == kind
  {
    assert Lower("bar") == "bar" && Lower("line") == "line" && Lower("pie") == "pie";
  }

  lemma KindTrimmed(kind: string)
    requires IsKind(kind)
    ensures Trimmed(kind) && kind != "|" && '\n' !in kind
  {
  }

  lemma KindIsLine(kind: string)
    requires IsKind(kind)
    ensures Trimmed(kind) && kind != "|" && Lower(Strip(kind)) == kind && '\n' !in kind
  {
    hide *;
    KindTrimmed(kind);
    StripTrimmed(kind);
    LowerKind(kind);
  }

  lemma XIsLine(spec: ChartSpec)
    requires Drawable(spec)
    ensures var j := Join(spec.x, " | "); Trimmed(j) && j != "|" && '\n' !in j && SplitList(j, '|') == spec.x
  {
    hide Join, Strip, StripAll, SplitList;
    JoinTrimmed(spec.x, " | ");
    JoinAvoids(spec.x, " | ", '\n');
    assert forall i :: 0 <= i < |spec.x| ==> Label(spec.x[i]) && '|' !in spec.x[i];
    forall i | 0 <= i < |spec.x| ensures Strip(spec.x[i]) != "" { StripTrimmed(spec.x[i]); }
    SplitJoined(spec.x, " ", '|');
    assert " " + ['|'] + " " == " | ";
    StripAllTrimmed(spec.x);
  }

  lemma ReadAfterX(spec: ChartSpec, single: map<string, string>)
    requires Drawable(spec)
    ensures FieldsFrom(AfterX(spec), Fields(single, []))
         == Fields(WithTable(WithSource(single, spec.source), spec.table), Raws(spec.series))
    ensures AfterX(spec) != [] && !ContinuesBlock(AfterX(spec)[0])
  {
    hide FieldsFrom, SeriesLines, SourceLines, TableLines, WithTable, WithSource, Raws, ContinuesBlock, SeriesValue,
      Trimmed;
    var rest := SourceLines(spec.source) + TableLines(spec.table);
    ReadSeriesLines(spec.series, 0, rest, Fields(single, []));
    assert SeriesLines(spec.series)[0..] == SeriesLines(spec.series)
        && [] + Raws(spec.series)[0..] == Raws(spec.series);
    ReadSourceLines(spec.source, spec.table, Fields(single, Raws(spec.series)));
    SeriesValueIsLine(spec.series[0]);
    FieldLine("series", SeriesValue(spec.series[0]));
    assert "series" + ": " == "series: ";
  }

  lemma BodyIsRead(spec: ChartSpec)
    requires Drawable(spec)
    ensures FieldsFrom(Body(spec), Fields(map[], [])) == Fields(ReadSingles(spec), Raws(spec.series))
  {
    hide FieldsFrom, Body, AfterX, Join, Raws, ContinuesBlock, Trimmed, WithTable, WithSource, Kept, Label,
      NormalSeries, IsKind;
    var xs := Join(spec.x, " | ");
    var rest := AfterX(spec);
    var x := ["x" + ": " + xs] + rest;
    KeysAreKeys();
    KindIsLine(spec.kind);
    XIsLine(spec);
    KeptPlain(spec.kind);
    KeptPlain(xs);
    BodyParts(spec);
    var m := map["type" := spec.kind, "title" := Kept(spec.title)];
    var mu := WithUnit(m, spec.unit);
    ReadAfterX(spec, mu["x" := xs]);
    ReadSingle("x", xs, rest, Fields(mu, []));
    FirstLineIsNoBlock("x", xs, rest);
    var u := if spec.unit == "" then x else ["unit" + ": " + spec.unit] + x;
    if spec.unit != "" {
      ReadSingle("unit", spec.unit, x, Fields(m, []));
      FirstLineIsNoBlock("unit", spec.unit, x);
    }
    ReadSingle("title", spec.title, u, Fields(map["type" := spec.kind], []));
    FirstLineIsNoBlock("title", spec.title, u);
    ReadSingle("type", spec.kind, ["title" + ": " + spec.title] + u, Fields(map[], []));
  }

  lemma KeptPlain(value: string)
    ensures value != "|" ==> Kept(value) == value
  {
  }

  ghost predicate EachParsed(raws: seq<string>, points: nat, series: seq<Series>) {
    |series| == |raws| && forall i :: 0 <= i < |raws| ==> ParseSeries(raws[i], points) == Ok(series[i])
  }

  lemma EachParsedCons(raws: seq<string>, points: nat, series: seq<Series>)
    requires raws != [] && series != []
    ensures EachParsed(raws, points, series)
        <==> ParseSeries(raws[0], points) == Ok(series[0]) && EachParsed(raws[1..], points, series[1..])
  {
    hide ParseSeries;
    var rs, ss := raws[1..], series[1..];
    if ParseSeries(raws[0], points) == Ok(series[0]) && EachParsed(rs, points, ss) {
      forall i | 0 < i < |raws| ensures ParseSeries(raws[i], points) == Ok(series[i]) {
        assert rs[i - 1] == raws[i] && ss[i - 1] == series[i];
      }
    }
  }

  lemma ParseAllStep(raws: seq<string>, points: nat, series: seq<Series>)
    requires raws != [] && series != []
    ensures ParseAllSeries(raws, points) == Ok(series)
      <==> ParseSeries(raws[0], points) == Ok(series[0]) && ParseAllSeries(raws[1..], points) == Ok(series[1..])
  {
    hide ParseSeries;
    var head, tail := ParseSeries(raws[0], points), ParseAllSeries(raws[1..], points);
    assert series == [series[0]] + series[1..];
    if head.Ok? && tail.Ok? {
      assert ([head.value] + tail.value)[0] == head.value && ([head.value] + tail.value)[1..] == tail.value;
    }
  }

  /** Every raw series is read on its own. */
  lemma {:induction false} AllSeriesAre(raws: seq<string>, points: nat, series: seq<Series>)
    ensures ParseAllSeries(raws, points) == Ok(series) <==> EachParsed(raws, points, series)
  {
    hide ParseSeries, ParseAllSeries, EachParsed;
    if raws == [] || series == [] {
      NoneParsed(raws, points, series);
    } else {
      AllSeriesAre(raws[1..], points, series[1..]);
      EachParsedCons(raws, points, series);
      ParseAllStep(raws, points, series);
    }
  }

  lemma NoneParsed(raws: seq<string>, points: nat, series: seq<Series>)
    requires raws == [] || series == []
    ensures ParseAllSeries(raws, points) == Ok(series) <==> EachParsed(raws, points, series)
  {
    hide ParseSeries;
  }

  lemma SourceIsRead(source: seq<nat>)
    ensures ReadSources(SplitList(Lookup(WithSource(map[], source), "source"), ',')) == source
  {
    hide SplitList, Join, Numerals, ReadSources, StripAll, Strip;
    if source == [] {
      NothingSplit();
    } else {
      NumeralsAreItems(source);
      SplitJoined(Numerals(source), "", ',');
      assert "" + [','] + " " == ", ";
      SourcesRoundTrip(source);
    }
  }

  lemma NothingSplit()
    ensures SplitList("", ',') == [] && ReadSources([]) == []
  {
    assert [""][1..] == [];
  }

  lemma {:induction false} SourcesRoundTrip(source: seq<nat>)
    ensures ReadSources(Numerals(source)) == source
  {
    if source != [] {
      NumeralRoundTrip(source[0]);
      assert Numerals(source)[1..] == Numerals(source[1..]);
      SourcesRoundTrip(source[1..]);
    }
  }

  lemma SinglesLookup(spec: ChartSpec)
    ensures var m := ReadSingles(spec);
      && Lookup(m, "type") == spec.kind && Lookup(m, "title") == Kept(spec.title)
          && Lookup(m, "unit") == Kept(spec.unit)
      && Lookup(m, "x") == Join(spec.x, " | ")
          && Lookup(m, "source") == Lookup(WithSource(map[], spec.source), "source")
      && Lookup(m, "table") == if spec.table == "" then "" else RereadTable(spec.table)
  {
    hide Join, Numerals, RereadTable;
  }

  /** Every single field is looked up as it was printed. */
  lemma SinglesAreRead(spec: ChartSpec)
    requires Drawable(spec)
    ensures var m := ReadSingles(spec);
      && Lower(Strip(Lookup(m, "type"))) == spec.kind && Strip(Lookup(m, "title")) == Kept(spec.title)
      && Strip(Lookup(m, "unit")) == Kept(spec.unit) && SplitList(Lookup(m, "x"), '|') == spec.x
      && ReadSources(SplitList(Lookup(m, "source"), ',')) == spec.source
      && Lookup(m, "table") == if spec.table == "" then "" else RereadTable(spec.table)
  {
    hide ReadSingles, Lookup, Lower, Join, SplitList, ReadSources, RereadTable, WithSource, Strip, Trimmed, Kept,
      Label, NormalSeries, IsKind;
    SinglesLookup(spec);
    KindIsLine(spec.kind);
    XIsLine(spec);
    SourceIsRead(spec.source);
    StripTrimmed(Kept(spec.title));
    StripTrimmed(Kept(spec.unit));
  }

  /** A printed body is read as the spec itself, except for the series, which are read one by one, a
      title or unit that is a bare bar, and the white space of the table. */
  lemma BodyIsParsed(spec: ChartSpec)
    requires Drawable(spec)
    ensures var series := ParseAllSeries(Raws(spec.series), |spec.x|);
      ParseSpec(Body(spec)) ==
        if series.Err? then Err(series.error)
        else Ok(ChartSpec(spec.kind, Kept(spec.title), spec.x, series.value, Kept(spec.unit), spec.source,
                          if spec.table == "" then "" else RereadTable(spec.table)))
  {
    hide FieldsFrom, Body, ParseAllSeries, Raws, ReadSingles, Lookup, Lower, Join, SplitList, ReadSources, RereadTable,
      WithSource, Strip, Trimmed, Kept, Label, NormalSeries, IsKind;
    BodyIsRead(spec);
    SinglesAreRead(spec);
    var raws := Raws(spec.series);
    var series := ParseAllSeries(raws, |spec.x|);
    if series.Ok? { AllSeriesAre(raws, |spec.x|, series.value); }
  }

  // ---------- The table ----------

  lemma {:induction false} StripShortens(lines: seq<string>, sep: string)
    ensures |Join(StripAll(lines), sep)| <= |Join(lines, sep)|
    ensures |Join(StripAll(lines), sep)| == |Join(lines, sep)| ==> StripAll(lines) == lines
  {
    hide Join, Strip, StripAll;
    if lines == [] {
      NoParts();
    } else {
      var p, tail := lines[0], lines[1..];
      assert lines == [p] + tail;
      PartsCons(p, tail);
      JoinCons(p, tail, sep);
      JoinCons(Strip(p), StripAll(tail), sep);
      StripShortens(tail, sep);
      StripIsPart(p);
      if tail == [] { NoParts(); }
    }
  }

  lemma StripIsPart(s: string)
    ensures |Strip(s)| <= |s| && (|Strip(s)| == |s| ==> Strip(s) == s)
  {
    hide *;
    var i, j := StripSplits(s);
  }

  lemma LinesJoin(table: string)
    ensures |Join(SplitLines(table), "\n")| <= |table|
    ensures table != "" && Trimmed(table) ==> Join(SplitLines(table), "\n") == table
  {
    hide Join, Split;
    var parts := Split(table, '\n');
    JoinSplit(table, '\n');
    LastPart(table, '\n');
    assert ['\n'] == "\n";
    if parts[|parts| - 1] == "" {
      if |parts| > 1 {
        assert parts == parts[..|parts| - 1] + [""];
        JoinSnoc(parts[..|parts| - 1], "", "\n");
      } else {
        assert parts[..|parts| - 1] == [];
        JoinNothing();
      }
    }
  }

  lemma JoinNothing()
    ensures Join([], "\n") == ""
  {
  }

  predicate TableSurvives(table: string) {
    Trimmed(table) && forall i :: 0 <= i < |SplitLines(table)| ==> Trimmed(SplitLines(table)[i])
  }

  lemma TableSurvivesIff(table: string)
    requires table != ""
    ensures RereadTable(table) == table <==> TableSurvives(table)
  {
    hide Join, Strip, StripAll, SplitLines, Trimmed;
    var lines := SplitLines(table);
    LinesJoin(table);
    if TableSurvives(table) {
      StripAllTrimmed(lines);
      StripTrimmed(table);
    } else {
      StripShortens(lines, "\n");
      StripIsPart(Join(StripAll(lines), "\n"));
      StripIsTrimmed(Join(StripAll(lines), "\n"));
      forall i | 0 <= i < |lines| ensures Trimmed(StripAll(lines)[i]) { StripIsTrimmed(lines[i]); }
    }
  }

  lemma StripIsTrimmed(s: string)
    ensures Trimmed(Strip(s))
  {
    hide Strip;
  }

  // ---------- The text of the fence ----------

  ghost predicate OneLineEach(lines: seq<string>) {
    forall i :: 0 <= i < |lines| ==> '\n' !in lines[i]
  }

  lemma TextIsLines(lines: seq<string>)
    requires lines != [] && OneLineEach(lines)
    ensures SplitLines(Join(lines, "\n") + "\n") == lines
  {
    hide Join, Split;
    JoinSnoc(lines, "", "\n");
    assert ['\n'] == "\n" && Join(lines, "\n") + "\n" + "" == Join(lines, "\n") + "\n";
    SplitJoin(lines + [""], '\n');
  }

  lemma KeyLine(key: string, value: string, rest: seq<string>)
    requires IsKey(key) && '\n' !in value && OneLineEach(rest)
    ensures OneLineEach([key + ": " + value] + rest)
  {
    assert forall i :: 0 <= i < |key| ==> IsKeyChar(key[i]);
  }

  lemma TailLines(spec: ChartSpec)
    requires Drawable(spec)
    ensures OneLineEach(AfterX(spec))
  {
    hide Join, SplitLines, SeriesValue, Numerals, Trimmed, SplitList, Label, NormalSeries, IsKind;
    forall i | 0 <= i < |spec.series| ensures '\n' !in "series: " + SeriesValue(spec.series[i]) {
      SeriesValueIsLine(spec.series[i]);
    }
    if spec.source != [] { NumeralsAreLine(spec.source); }
    assert OneLineEach(SourceLines(spec.source));
    assert OneLineEach(TableLines(spec.table));
  }

  lemma PrintedLinesAreLines(spec: ChartSpec)
    requires Drawable(spec)
    ensures OneLineEach(Body(spec))
  {
    hide Join, SplitList, Trimmed, Body, AfterX, OneLineEach, IsKey, Label, NormalSeries, IsKind;
    KindIsLine(spec.kind);
    XIsLine(spec);
    TailLines(spec);
    BodyParts(spec);
    KeysAreKeys();
    KeyLine("x", Join(spec.x, " | "), AfterX(spec));
    var x := ["x" + ": " + Join(spec.x, " | ")] + AfterX(spec);
    KeyLine("unit", spec.unit, x);
    var u := if spec.unit == "" then x else ["unit" + ": " + spec.unit] + x;
    KeyLine("title", spec.title, u);
    KeyLine("type", spec.kind, ["title" + ": " + spec.title] + u);
  }

  /** Specs that survive printing and parsing unchanged. */
  predicate Faithful(spec: ChartSpec) {
    && spec.title != "|" && spec.unit != "|"
    && (forall i :: 0 <= i < |spec.series| ==> FaithfulSeries(spec.series[i]))
    && TableSurvives(spec.table)
  }

  predicate FaithfulSeries(s: Series) {
    (forall j :: 1 <= j < |s.name| ==> s.name[j] != '=') && forall i :: 0 <= i < |s.values| ==>
        PrintsExactly(s.values[i])
  }

  /** The parser returns the printed spec exactly when the spec is faithful. */
  lemma FenceRoundTrip(spec: ChartSpec)
    requires Drawable(spec)
    ensures ParseText(BodyText(spec)) == Ok(spec) <==> Faithful(spec)
  {
    hide Body, ParseAllSeries, Raws, Join, RereadTable, Strip, SplitLines, Trimmed, Label, NormalSeries, ParseSpec,
      FaithfulSeries, TableSurvives, SeriesValue, ParseSeries;
    PrintedLinesAreLines(spec);
    BodyIsNonempty(spec);
    TextIsLines(Body(spec));
    BodyIsParsed(spec);
    AllSeriesAre(Raws(spec.series), |spec.x|, spec.series);
    forall i | 0 <= i < |spec.series|
      ensures ParseSeries(SeriesValue(spec.series[i]), |spec.x|) == Ok(spec.series[i])
          <==> FaithfulSeries(spec.series[i])
    {
      LabelIs(spec.series[i].name);
      SeriesSurvivesIff(spec.series[i]);
      FaithfulSeriesIs(spec.series[i]);
    }
    if spec.table == "" { EmptyTableSurvives(); } else { TableSurvivesIff(spec.table); }
  }

  lemma BodyIsNonempty(spec: ChartSpec)
    requires forall i :: 0 <= i < |spec.series| ==> NormalSeries(spec.series[i])
    ensures Body(spec) != []
  {
  }

  lemma LabelIs(s: string)
    requires Label(s)
    ensures s != "" && Trimmed(s)
  {
  }

  lemma FaithfulSeriesIs(s: Series)
    ensures FaithfulSeries(s) <==> PlainName(s.name) && forall i :: 0 <= i < |s.values| ==> PrintsExactly(s.values[i])
  {
  }

  lemma EmptyTableSurvives()
    ensures TableSurvives("")
  {
    assert Split("", '\n') == [""];
  }

  function ReadBackSeries(s: Series): Series
    requires NormalSeries(s)
  {
    Series(s.name, ReadBackAll(s.values))
  }

  function RereadSeries(series: seq<Series>): (r: seq<Series>)
    requires forall i :: 0 <= i < |series| ==> NormalSeries(series[i])
    ensures |r| == |series| && forall i :: 0 <= i < |r| ==> r[i] == ReadBackSeries(series[i])
  {
    seq(|series|, i requires 0 <= i < |series| => ReadBackSeries(series[i]))
  }

  /** What is read in place of a printed spec. */
  function Reread(spec: ChartSpec): ChartSpec
    requires forall i :: 0 <= i < |spec.series| ==> NormalSeries(spec.series[i])
  {
    spec.(title := Kept(spec.title), unit := Kept(spec.unit), series := RereadSeries(spec.series),
          table := if spec.table == "" then "" else RereadTable(spec.table))
  }

  /** A drawable spec without '=' inside a series name is always parsed again, and what comes back
      differs from it only by what `:g` lost, a bare bar, and white space of the table. */
  lemma PlainFenceIsParsed(spec: ChartSpec)
    requires Drawable(spec) && forall i :: 0 <= i < |spec.series| ==> PlainName(spec.series[i].name)
    ensures ParseText(BodyText(spec)) == Ok(Reread(spec))
  {
    hide Body, ParseAllSeries, Raws, Join, RereadTable, Strip, SplitLines, Trimmed, Label, NormalSeries, ParseSpec,
      SeriesValue, ParseSeries, ReadBackAll, PlainName;
    PrintedLinesAreLines(spec);
    BodyIsNonempty(spec);
    TextIsLines(Body(spec));
    BodyIsParsed(spec);
    var read := RereadSeries(spec.series);
    forall i | 0 <= i < |spec.series| ensures ParseSeries(SeriesValue(spec.series[i]), |spec.x|) == Ok(read[i]) {
      LabelIs(spec.series[i].name);
      PlainSeriesIsReadBack(spec.series[i]);
    }
    AllSeriesAre(Raws(spec.series), |spec.x|, read);
  }

  /** Names that come out of a table row have no '|'.  Then even a name with '=' leaves a series that
      is read, with as many values. */
  lemma SeriesIsParsed(s: Series)
    requires NormalSeries(s) && s.values != [] && s.name != "" && Trimmed(s.name) && '|' !in s.name
    ensures var r := ParseSeries(SeriesValue(s), |s.values|); r.Ok? && |r.value.values| == |s.values|
  {
    hide ParseSeries, SeriesValue, Strip, SignedNumber, Trimmed, FirstToken;
    if PlainName(s.name) {
      PlainSeriesIsReadBack(s);
    } else {
      var e := FirstIndex(s.name, '=', 1);
      EqualsMovesIntoTheFirstValue(s, e);
    }
  }

  predicate NoBars(spec: ChartSpec) {
    forall i :: 0 <= i < |spec.series| ==> '|' !in spec.series[i].name
  }

  /** Every drawable spec is parsed again, on the same labels and with series of the same length. */
  lemma DrawableIsParsed(spec: ChartSpec)
    requires Drawable(spec) && NoBars(spec)
    ensures var r := ParseText(BodyText(spec));
      && r.Ok? && r.value.kind == spec.kind && r.value.x == spec.x && |r.value.series| == |spec.series|
      && forall i :: 0 <= i < |spec.series| ==> |r.value.series[i].values| == |spec.x|
  {
    hide Body, ParseAllSeries, Raws, Join, RereadTable, Strip, SplitLines, Trimmed, Label, NormalSeries, ParseSpec,
      SeriesValue, ParseSeries;
    PrintedLinesAreLines(spec);
    BodyIsNonempty(spec);
    TextIsLines(Body(spec));
    BodyIsParsed(spec);
    var raws, n := Raws(spec.series), |spec.x|;
    forall i | 0 <= i < |raws| ensures ParseSeries(raws[i], n).Ok? && |ParseSeries(raws[i], n).value.values| == n {
      LabelIs(spec.series[i].name);
      SeriesIsParsed(spec.series[i]);
    }
    var read := seq(|raws|, i requires 0 <= i < |raws| => ParseSeries(raws[i], n).value);
    AllSeriesAre(raws, n, read);
  }

  /** A header that ends in "=n" puts n in place of the first value, whatever that value is. */
  lemma HeaderNumberReplacesValue(h: string, n: string, values: seq<Decimal>)
    requires h != "" && Trimmed(h) && PlainName(h) && '|' !in h
    requires n != "" && AllDigits(n)
    requires values != [] && forall i :: 0 <= i < |values| ==> IsNormal(values[i])
    ensures ParseSeries(SeriesValue(Series(h + "=" + n, values)), |values|)
         == Ok(Series(h, [Normal(false, n, |n|)] + ReadBackAll(values[1..])))
  {
    hide Strip, FormatG, SignedNumber, SeriesValue, ParseSeries, Normal, ReadBackAll, Trimmed, IsNormal, FirstIndex;
    var s := Series(h + "=" + n, values);
    var e := |h|;
    assert s.name[..e] == h && s.name[e + 1..] == n;
    DigitsHaveNoBar(n);
    EqualsMovesIntoTheFirstValue(s, e);
    StripTrimmed(h);
    NumberFirst(n, FormatG(values[0]));
    ValueIsItem(values[0]);
  }

  lemma DigitsHaveNoBar(n: string)
    requires AllDigits(n)
    ensures '|' !in n
  {
  }

  lemma NumberFirst(n: string, v: string)
    requires n != "" && AllDigits(n)
    ensures v != "" && Trimmed(v) ==> SignedNumber(Strip(n + " = " + v)) == Some(Normal(false, n, |n|))
  {
    hide SignedNumber, Normal, Strip;
    var rest := " = " + v;
    SignedPrinted(n, "", rest, false);
    assert n + "" == n && "" + (n + (Fraction("") + rest)) == n + " = " + v;
    DigitsAreNoSpace(n[0]);
    if v != "" && Trimmed(v) { StripTrimmed(n + " = " + v); }
  }
}
