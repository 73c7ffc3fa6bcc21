/** Whatever auto_choice accepts can be drawn, shows all its numeric columns, and shows the values of
    its own cells. */
module TableDrawing {
  import opened Text
  import opened Numbers
  import opened Charts
  import opened ChartRoundTrip
  import opened Tables

  // ---------- Clean cells ----------

  /** One trimmed line without bars. */
  predicate Clean(s: string) {
    Trimmed(s) && '|' !in s && '\n' !in s
  }

  lemma WithinAvoids(r: string, s: string, c: char)
    requires Within(r, s) && c !in s
    ensures c !in r
  {
  }

  lemma StripAvoids(s: string, c: char)
    requires c !in s
    ensures c !in Strip(s) && Trimmed(Strip(s))
  {
    hide Strip;
  }

  lemma CellIsClean(s: string)
    requires '|' !in s && '\n' !in s
    ensures Clean(Strip(NoBold(s)))
  {
    hide Strip, NoBold, Trimmed;
    WithinAvoids(NoBold(s), s, '|');
    WithinAvoids(NoBold(s), s, '\n');
    StripAvoids(NoBold(s), '|');
    StripAvoids(NoBold(s), '\n');
  }

  lemma InnerAvoids(line: string, c: char)
    requires c !in line
    ensures c !in InnerCells(line)
  {
    StripAvoids(line, c);
    hide Strip;
  }

  lemma {:induction false} PartsAvoid(s: string, sep: char, c: char)
    requires c !in s
    ensures forall i :: 0 <= i < |Split(s, sep)| ==> c !in Split(s, sep)[i]
  {
    if s != "" {
      hide Split;
      SplitCons(s, sep);
      PartsAvoid(s[1..], sep, c);
    } else {
      assert Split(s, sep) == [""];
    }
  }

  lemma CellsAreClean(line: string)
    requires '\n' !in line
    ensures Cells(line) != [] && forall j :: 0 <= j < |Cells(line)| ==> Clean(Cells(line)[j])
  {
    hide Split, InnerCells, NoBold, Strip, Clean;
    var inner := InnerCells(line);
    var parts := Split(inner, '|');
    InnerAvoids(line, '\n');
    PartsAvoid(inner, '|', '\n');
    forall j | 0 <= j < |parts| ensures Clean(Strip(NoBold(parts[j]))) {
      assert parts[j] in parts;
      CellIsClean(parts[j]);
    }
  }

  predicate CleanRow(row: seq<string>) {
    row != [] && forall j :: 0 <= j < |row| ==> Clean(row[j])
  }

  lemma {:induction false} RowsAreClean(lines: seq<string>)
    requires forall i :: 0 <= i < |lines| ==> '\n' !in lines[i]
    ensures forall i :: 0 <= i < |RowsOf(lines)| ==> CleanRow(RowsOf(lines)[i])
  {
    hide Cells, IsRowLine, IsSeparator, CleanRow;
    if lines != [] {
      var tail := lines[1..];
      assert forall i :: 0 <= i < |tail| ==> tail[i] == lines[i + 1];
      RowsAreClean(tail);
      FirstIsClean(lines[0]);
    }
  }

  lemma FirstIsClean(line: string)
    requires '\n' !in line
    ensures CleanRow(Cells(line))
  {
    hide Cells, Clean;
    CellsAreClean(line);
  }

  // ---------- The table ----------

  ghost predicate CleanTable(t: Table) {
    && WellShaped(t) && t.headers != []
    && (forall j :: 0 <= j < |t.headers| ==> Clean(t.headers[j]))
    && (forall i, j :: 0 <= i < |t.rows| && 0 <= j < |t.headers| ==> Clean(t.rows[i][j]))
    && '\n' !in t.caption && '\n' !in t.captionUnit
  }

  lemma CaptionIsOneLine(p: Patterns, lines: seq<string>)
    requires ArePatterns(p) && forall i :: 0 <= i < |lines| ==> '\n' !in lines[i]
    ensures '\n' !in CaptionOf(p, lines)
  {
    hide Strip, Join;
    JoinAvoids(lines, " ", '\n');
    var before := Strip(Join(lines, " "));
    StripAvoids(Join(lines, " "), '\n');
    WithinAvoids(p.withoutSources(before), before, '\n');
    StripAvoids(p.withoutSources(before), '\n');
    var found := p.caption(Strip(p.withoutSources(before)));
    if found.Some? {
      WithinAvoids(found.value, Strip(p.withoutSources(before)), '\n');
      StripAvoids(found.value, '\n');
    }
  }

  lemma CaptionPartsAreOneLine(p: Patterns, caption: string)
    requires ArePatterns(p) && '\n' !in caption
    ensures '\n' !in SplitCaption(p, caption).0 && '\n' !in SplitCaption(p, caption).1
  {
    hide Strip;
    var tail := p.captionUnit(caption);
    if tail.Some? {
      StripAvoids(caption[..tail.value.0], '\n');
      WithinAvoids(tail.value.1, caption, '\n');
    }
  }

  lemma EmptyIsClean()
    ensures Clean("")
  {
  }

  lemma PaddedIsClean(row: seq<string>, width: nat)
    requires CleanRow(row)
    ensures forall j :: 0 <= j < width ==> Clean(Padded(row, width)[j])
  {
    hide Clean;
    EmptyIsClean();
  }

  lemma TablesAreClean(p: Patterns, block: string)
    requires ArePatterns(p) && TableIn(p, block).Some?
    ensures CleanTable(TableIn(p, block).value)
  {
    hide Split, RowsOf, FirstRow, CaptionOf, SplitCaption, HasFence, Clean, ArePatterns;
    var lines := Split(block, '\n');
    assert forall i :: 0 <= i < |lines| ==> lines[i] in lines;
    var k := FirstRow(lines);
    var rows := RowsOf(lines[k..]);
    RowsAreClean(lines[k..]);
    CaptionIsOneLine(p, lines[..k]);
    CaptionPartsAreOneLine(p, CaptionOf(p, lines[..k]));
    forall i | 1 <= i < |rows| ensures forall j :: 0 <= j < |rows[0]| ==> Clean(Padded(rows[i], |rows[0]|)[j]) {
      PaddedIsClean(rows[i], |rows[0]|);
    }
  }

  // ---------- The plotted columns ----------

  ghost predicate Increasing(cols: seq<nat>) {
    forall i, j :: 0 <= i < j < |cols| ==> cols[i] < cols[j]
  }

  lemma {:induction false} FilterHas(cols: seq<nat>, keep: nat -> bool, c: nat)
    ensures c in Filter(cols, keep) <==> c in cols && keep(c)
  {
    if cols != [] {
      assert cols == [cols[0]] + cols[1..];
      FilterHas(cols[1..], keep, c);
    }
  }

  lemma {:induction false} FilterLength(cols: seq<nat>, keep: nat -> bool)
    ensures |Filter(cols, keep)| <= |cols|
    ensures |Filter(cols, keep)| == |cols| ==> Filter(cols, keep) == cols
  {
    if cols != [] {
      assert cols == [cols[0]] + cols[1..];
      FilterLength(cols[1..], keep);
    }
  }

  /** Increasing, with all columns above low. */
  ghost predicate IncreasingFrom(cols: seq<nat>, low: int) {
    Increasing(cols) && (cols != [] ==> low < cols[0])
  }

  lemma IncreasingTail(cols: seq<nat>, low: int)
    requires cols != [] && IncreasingFrom(cols, low)
    ensures IncreasingFrom(cols[1..], cols[0]) && low < cols[0]
  {
  }

  lemma IncreasingCons(head: nat, tail: seq<nat>, low: int)
    requires IncreasingFrom(tail, head) && low < head
    ensures IncreasingFrom([head] + tail, low) && IncreasingFrom(tail, low)
  {
    var r := [head] + tail;
    assert forall i :: 0 < i < |r| ==> r[i] == tail[i - 1];
    forall j | 0 < j < |r| ensures head < r[j] { assert j == 1 || tail[0] < tail[j - 1]; }
  }

  lemma FilterStep(cols: seq<nat>, keep: nat -> bool)
    requires cols != []
    ensures Filter(cols, keep) == if keep(cols[0]) then [cols[0]] + Filter(cols[1..], keep) else Filter(cols[1..], keep)
  {
  }

  lemma {:induction false} FilterIncreasing(cols: seq<nat>, keep: nat -> bool, low: int)
    requires IncreasingFrom(cols, low)
    ensures IncreasingFrom(Filter(cols, keep), low)
  {
    if cols != [] {
      hide *;
      IncreasingTail(cols, low);
      FilterIncreasing(cols[1..], keep, cols[0]);
      FilterStep(cols, keep);
      IncreasingCons(cols[0], Filter(cols[1..], keep), low);
    }
  }

  /** Column c is numeric and is not the x column. */
  ghost predicate IsPlottable(p: Patterns, t: Table, c: nat)
    requires WellShaped(t)
  {
    c < |t.headers| && c != XColumn(p, t) && IsNumericColumn(p, t, c)
  }

  lemma CandidatesArePlottable(p: Patterns, t: Table)
    requires WellShaped(t)
    ensures Increasing(Candidates(p, t)) && forall c :: c in Candidates(p, t) <==> IsPlottable(p, t, c)
  {
    hide Filter, IsNumericColumn, XColumn;
    var all, numeric := Range(|t.headers|), NumericColumns(p, t);
    FilterIncreasing(all, NumericTest(p, t), -1);
    FilterIncreasing(numeric, NotTest(XColumn(p, t)), -1);
    forall c: nat ensures c in Candidates(p, t) <==> IsPlottable(p, t, c) {
      FilterHas(all, NumericTest(p, t), c);
      FilterHas(numeric, NotTest(XColumn(p, t)), c);
      assert c < |t.headers| ==> all[c] == c;
    }
  }

  /** When nothing is wrong with the columns, they are all the candidates, and of one unit. */
  lemma AcceptedColumns(p: Patterns, t: Table)
    requires WellShaped(t) && ColumnProblem(p, t, DefaultChoice(p, t)).None?
    ensures var cols := DefaultChoice(p, t).seriesCols;
      && 1 <= |cols| <= MAX_SERIES && cols == Candidates(p, t)
      && forall i :: 0 <= i < |cols| ==> UnitOf(p, t, cols[i]) == UnitOf(p, t, cols[0])
  {
    hide Filter, Candidates, UnitOf, HasAmbiguousCell, XColumn;
    var cols := Candidates(p, t);
    var unit := if cols == [] then "" else UnitOf(p, t, cols[0]);
    FilterLength(cols, UnitTest(p, t, unit));
    var same := SameUnit(p, t, cols, unit);
    forall i | 0 <= i < |same| ensures UnitTest(p, t, unit)(same[i]) {
      FilterHas(cols, UnitTest(p, t, unit), same[i]);
    }
  }

  /** The cut to the cap leaves columns out, so the units check speaks first: the reason "more columns
      than the cap" is never given. */
  lemma SeriesCapIsNeverTheReason(p: Patterns, t: Table)
    requires WellShaped(t) && t.headers != []
    ensures AutoChoice(p, t) != Skip(SeriesCapExceeded)
  {
    hide Filter, Candidates, UnitOf, HasAmbiguousCell, XColumn, IsIndexColumn, AllEqual, IsPie, IsTimeAxis,
      IsNumericAxis, Distinct, RowUnitsMixed, Strip;
  }

  // ---------- Values ----------

  lemma NumeralHasDigit(s: string) returns (i: nat)
    requires IsNumeral(s)
    ensures i < |s| && IsDigit(s[i])
  {
    hide NumberEnd;
    var u := if s != "" && IsSign(s[0]) then s[1..] else s;
    var t := LStrip(u);
    i := |s| - |t|;
    assert t[0] == u[|u| - |t|] == s[i];
  }

  lemma NumericCellHasValue(p: Patterns, cell: string)
    requires IsNumericCell(p, cell)
    ensures CellValue(p, cell).Some?
  {
    hide IsNumeral, StripMarkers, NumberStart, ReadUnsigned, EndsNegative;
    var i := NumeralHasDigit(StripMarkers(p, cell));
    DigitIsFound(StripMarkers(p, cell), i);
  }

  // ---------- The spec ----------

  lemma NameIsClean(p: Patterns, header: string, col: nat)
    requires ArePatterns(p) && Clean(header)
    ensures var (name, unit) := SplitUnit(p, header); Clean(name) && Clean(unit)
  {
    hide Strip, Trimmed;
    EmptyIsClean();
    StripAvoids(header, '|');
    StripAvoids(header, '\n');
    var m := p.trailingParen(header);
    if m.Some? {
      var name := header[..m.value.0];
      StripAvoids(name, '|');
      StripAvoids(name, '\n');
      WithinAvoids(m.value.1, header, '|');
      WithinAvoids(m.value.1, header, '\n');
      StripAvoids(m.value.1, '|');
      StripAvoids(m.value.1, '\n');
    }
  }

  lemma DefaultNameIsClean(n: nat)
    ensures Clean("계열 " + NatToString(n)) && "계열 " + NatToString(n) != ""
  {
    hide NatToString;
    var s := NatToString(n);
    DigitsAreNoSpace(s[|s| - 1]);
  }

  lemma SeriesNameIsClean(p: Patterns, t: Table, col: nat)
    requires ArePatterns(p) && CleanTable(t) && col < |t.headers|
    ensures Clean(SeriesName(p, t, col)) && SeriesName(p, t, col) != "" && Clean(UnitOf(p, t, col))
  {
    hide Clean, SplitUnit, ArePatterns;
    NameIsClean(p, t.headers[col], col);
    DefaultNameIsClean(col + 1);
  }

  lemma LabelsAreClean(t: Table, x: nat)
    requires CleanTable(t) && x < |t.headers| && LabelProblemFree(ColumnLabels(t, x))
    ensures forall i :: 0 <= i < |t.rows| ==> Label(ColumnLabels(t, x)[i]) && '|' !in ColumnLabels(t, x)[i]
  {
    hide Strip, Trimmed;
    forall i | 0 <= i < |t.rows| ensures Label(Strip(t.rows[i][x])) && '|' !in Strip(t.rows[i][x]) {
      assert Clean(t.rows[i][x]);
      StripAvoids(t.rows[i][x], '|');
      StripAvoids(t.rows[i][x], '\n');
      assert ColumnLabels(t, x)[i] != "";
    }
  }

  ghost predicate LabelProblemFree(labels: seq<string>) {
    && (forall i :: 0 <= i < |labels| ==> labels[i] != "" && |labels[i]| <= AUTO_MAX_LABEL_LEN)
    && Distinct(labels) && AUTO_MIN_POINTS <= |labels| <= AUTO_MAX_POINTS
  }

  lemma AcceptedLabels(p: Patterns, labels: seq<string>)
    requires LabelProblem(p, labels).None?
    ensures LabelProblemFree(labels)
  {
    hide Distinct, RowUnitsMixed;
  }

  /** What an accepted table has passed, and how its choice differs from the default. */
  lemma AcceptedChoice(p: Patterns, t: Table)
    requires WellShaped(t) && t.headers != [] && AutoChoice(p, t).Convert?
    ensures var c, d := AutoChoice(p, t).choice, DefaultChoice(p, t);
      && c.xCol == d.xCol && c.seriesCols == d.seriesCols && c.title == d.title
      && ColumnProblem(p, t, d).None? && LabelProblem(p, ColumnLabels(t, d.xCol)).None?
      && IsKind(c.kind) && (c.kind == "pie" ==> |c.seriesCols| == 1 && |t.rows| <= MAX_SERIES)
      && (c.unit == d.unit || (c.seriesCols != [] && c.unit == PieUnit(p, t, c.seriesCols[0])))
  {
    hide DefaultChoice, ColumnProblem, LabelProblem, ValueProblem, IsTimeAxis, IsNumericAxis, Strip, SplitUnit, Sum,
      IsKind, XColumn;
    KindsAreKinds();
    assert DefaultChoice(p, t).kind == "bar" by { DefaultIsBar(p, t); }
  }

  lemma KindsAreKinds()
    ensures IsKind("bar") && IsKind("line") && IsKind("pie")
  {
  }

  lemma DefaultIsBar(p: Patterns, t: Table)
    requires WellShaped(t)
    ensures var d := DefaultChoice(p, t); d.kind == "bar" && d.title == t.caption
    ensures var d := DefaultChoice(p, t);
      d.unit == t.captionUnit || exists col :: 0 <= col < |t.headers| && d.unit == UnitOf(p, t, col)
  {
    hide Filter, UnitOf, XColumn, Candidates;
    var cols := Candidates(p, t);
    if cols != [] { assert cols[0] < |t.headers|; }
  }

  lemma SpecIs(p: Patterns, t: Table, c: Choice, block: string)
    requires WellShaped(t) && c.xCol < |t.headers| && InRange(c.seriesCols, |t.headers|)
    requires forall i :: 0 <= i < |t.rows| ==> Strip(t.rows[i][c.xCol]) != ""
    ensures BuildSpec(p, t, c, block)
         == ChartSpec(c.kind, Strip(c.title), ColumnLabels(t, c.xCol), SeriesOf(p, t, c.seriesCols), Strip(c.unit),
             t.source,
                      Strip(block))
  {
    hide Strip, SeriesOf, Labelled;
    LabelledRows(t.rows, c.xCol);
    assert t.(rows := t.rows) == t;
  }

  lemma SpecUnit(p: Patterns, t: Table, unit: string)
    requires ArePatterns(p) && CleanTable(t)
    requires unit == t.captionUnit || exists col :: 0 <= col < |t.headers| && unit == UnitOf(p, t, col)
    ensures '\n' !in Strip(unit) && Trimmed(Strip(unit))
  {
    hide Strip, SplitUnit, UnitOf, ArePatterns, Trimmed;
    if unit != t.captionUnit {
      var col :| 0 <= col < |t.headers| && unit == UnitOf(p, t, col);
      SeriesNameIsClean(p, t, col);
    }
    StripAvoids(unit, '\n');
  }

  lemma SeriesAreDrawable(p: Patterns, t: Table, cols: seq<nat>)
    requires ArePatterns(p) && CleanTable(t) && InRange(cols, |t.headers|)
    ensures var series := SeriesOf(p, t, cols);
      forall i :: 0 <= i < |series| ==>
        NormalSeries(series[i]) && Label(series[i].name) && '|' !in series[i].name && |series[i].values| == |t.rows|
  {
    hide ArePatterns, CleanTable, SeriesName, ValueOrZero, IsNormal, Trimmed;
    forall i | 0 <= i < |cols| ensures Label(SeriesName(p, t, cols[i])) && '|' !in SeriesName(p, t, cols[i]) {
      SeriesNameIsClean(p, t, cols[i]);
    }
  }

  /** What auto_choice accepts is drawable: 3 to 12 distinct labels and series of the same length,
      within the caps of the parser. */
  lemma AcceptedIsDrawable(p: Patterns, block: string, t: Table, c: Choice)
    requires ArePatterns(p) && TableIn(p, block) == Some(t) && AutoChoice(p, t) == Convert(c)
    ensures var spec := BuildSpec(p, t, c, block);
      Drawable(spec) && NoBars(spec) && AUTO_MIN_POINTS <= |spec.x| <= AUTO_MAX_POINTS && Distinct(spec.x)
  {
    hide ArePatterns, AutoChoice, TableIn, BuildSpec, DefaultChoice, UnitOf, SplitUnit, Distinct, Strip, Trimmed,
      Label, Clean, SeriesOf, NormalSeries, ColumnProblem, LabelProblem, XColumn, ColumnLabels, IsKind;
    TablesAreClean(p, block);
    AcceptedChoice(p, t);
    AcceptedColumns(p, t);
    AcceptedLabels(p, ColumnLabels(t, c.xCol));
    LabelsAreClean(t, c.xCol);
    SpecIs(p, t, c, block);
    DefaultIsBar(p, t);
    SpecUnit(p, t, c.unit);
    StripAvoids(t.caption, '\n');
    SeriesAreDrawable(p, t, c.seriesCols);
  }

  /** So its fence is always parsed again, as a chart of the chosen kind over the same labels. */
  lemma AcceptedIsParsed(p: Patterns, block: string, t: Table, c: Choice)
    requires ArePatterns(p) && TableIn(p, block) == Some(t) && AutoChoice(p, t) == Convert(c)
    ensures var spec := BuildSpec(p, t, c, block);
      && Drawable(spec)
      && var r := ParseText(BodyText(spec));
         && r.Ok? && r.value.kind == c.kind && r.value.x == spec.x && |r.value.series| == |spec.series|
         && forall k :: 0 <= k < |spec.series| ==> |r.value.series[k].values| == |spec.x|
  {
    hide ArePatterns, AutoChoice, TableIn, Drawable, NoBars, ParseText, BodyText;
    AcceptedIsDrawable(p, block, t, c);
    DrawableIsParsed(BuildSpec(p, t, c, block));
  }

  /** The chart shows all numeric columns except the labels', in order and of one unit. */
  lemma AcceptedShowsAllNumericColumns(p: Patterns, t: Table, c: Choice)
    requires WellShaped(t) && t.headers != [] && AutoChoice(p, t) == Convert(c)
    ensures Increasing(c.seriesCols) && (forall col :: col in c.seriesCols <==> IsPlottable(p, t, col))
    ensures forall k :: 0 <= k < |c.seriesCols| ==> UnitOf(p, t, c.seriesCols[k]) == UnitOf(p, t, c.seriesCols[0])
  {
    hide *;
    AcceptedChoice(p, t);
    AcceptedColumns(p, t);
    CandidatesArePlottable(p, t);
  }

  lemma PlottableCellHasValue(p: Patterns, t: Table, col: nat, i: nat)
    requires WellShaped(t) && IsPlottable(p, t, col) && i < |t.rows|
    ensures CellValue(p, t.rows[i][col]) == Some(ColumnValues(p, t, col)[i])
  {
    hide CellValue, IsNumericCell, XColumn;
    NumericCellHasValue(p, t.rows[i][col]);
  }

  /** Each label and each value of the chart is read from its own cell. */
  lemma AcceptedShowsItsCells(p: Patterns, block: string, t: Table, c: Choice, k: nat, i: nat)
    requires WellShaped(t) && t.headers != [] && AutoChoice(p, t) == Convert(c)
    requires k < |c.seriesCols| && i < |t.rows|
    ensures var spec := BuildSpec(p, t, c, block);
      && |spec.series| == |c.seriesCols| && |spec.x| == |spec.series[k].values| == |t.rows|
      && spec.x[i] == Strip(t.rows[i][c.xCol])
      && CellValue(p, t.rows[i][c.seriesCols[k]]) == Some(spec.series[k].values[i])
  {
    hide AutoChoice, BuildSpec, DefaultChoice, Strip, CellValue, ColumnProblem, LabelProblem, IsKind, IsPlottable,
      ValueOrZero, PieUnit;
    AcceptedChoice(p, t);
    AcceptedLabels(p, ColumnLabels(t, c.xCol));
    assert forall r :: 0 <= r < |t.rows| ==> ColumnLabels(t, c.xCol)[r] != "";
    SpecIs(p, t, c, block);
    AcceptedShowsAllNumericColumns(p, t, c);
    assert c.seriesCols[k] in c.seriesCols;
    PlottableCellHasValue(p, t, c.seriesCols[k], i);
  }
}
