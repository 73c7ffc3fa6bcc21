/** Deciding which Markdown tables become charts (src/core/table_to_chart.py).  Cells, rows, columns
    and numbers are concrete; the wording patterns (captions, citation marks, units, dates) are given
    by what their regular expressions return. */
module Tables {
  import opened Text
  import opened Numbers
  import opened DecimalValue
  import opened Charts

  /** What the wording patterns return on a text. */
  datatype Patterns = Patterns(
    caption: string -> Option<string>,               // _CAPTION_RE, group 1
    captionUnit: string -> Option<(nat, string)>,    // _CAPTION_UNIT_RE, start and group 1
    trailingParen: string -> Option<(nat, string)>,  // _TRAILING_PAREN_RE, start and group 1
    withoutSources: string -> string,                // _SOURCE_MARK_RE removed
    sources: string -> seq<nat>,                     // the distinct numbers of _SOURCE_MARK_RE
    withoutMarks: string -> string,                  // MARK_RE replaced by a space
    isTime: string -> bool,                          // _TIME_POINT_RE
    isShare: string -> bool,                         // _SHARE_HEADER_RE
    isTotal: string -> bool,                         // _TOTAL_ROW_RE
    markerOnly: string -> bool)                      // _MARKER_ONLY_BLOCK_RE

  /** r is made of characters of s. */
  ghost predicate Within(r: string, s: string) {
    forall i :: 0 <= i < |r| ==> r[i] in s
  }

  /** Groups and remainders of a match are made of the text that was searched; captions begin with a
      bracket or with the word for table, citation marks with a parenthesis, and nothing that is only
      markers holds a back quote. */
  ghost predicate ArePatterns(p: Patterns) {
    && (forall s: string :: p.caption(s).Some? ==> Within(p.caption(s).value, s))
    && (forall s: string :: p.captionUnit(s).Some? ==>
        p.captionUnit(s).value.0 <= |s| && Within(p.captionUnit(s).value.1, s))
    && (forall s: string :: p.trailingParen(s).Some? ==>
        p.trailingParen(s).value.0 <= |s| && Within(p.trailingParen(s).value.1, s))
    && (forall s: string :: Within(p.withoutSources(s), s))
    && (forall s: string :: p.caption(s).Some? ==> s != "" && (s[0] == '[' || s[0] == '표'))
    && (forall s: string :: s != "" && s[0] != '(' ==> p.withoutSources(s) != "" && p.withoutSources(s)[0] == s[0])
    && (forall s: string :: p.markerOnly(s) ==> '`' !in s)
  }

  datatype Table = Table(caption: string, captionUnit: string, headers: seq<string>, rows: seq<seq<string>>,
      source: seq<nat>)

  datatype Choice = Choice(kind: string, xCol: nat, seriesCols: seq<nat>, title: string, unit: string)

  datatype Reason =
    | NoTitle | NoValueColumn | MixedUnits | SeriesCapExceeded | SeveralNumbersInCell
    | BlankLabel | RepeatedLabel | TooFewItems
    | TooManyItems | NarrativeLabel | MixedRowUnits | IndexColumn | NoVariation | NumericAxis

  datatype Verdict = Convert(choice: Choice) | Skip(reason: Reason)

  // ---------- Reading a table ----------

  predicate IsRowLine(line: string) {
    var s := LStrip(line);
    s != "" && s[0] == '|'
  }

  /** A line of bars, colons, hyphens and white space. */
  predicate IsSeparator(line: string) {
    var s := Strip(line);
    s != "" && forall i :: 0 <= i < |s| ==> IsSpace(s[i]) || s[i] in ":|-"
  }

  /** c.replace("**", "") */
  function NoBold(s: string): (r: string)
    ensures Within(r, s)
  {
    if |s| >= 2 && s[0] == '*' && s[1] == '*' then
      WithinTail(NoBold(s[2..]), s, 2);
      NoBold(s[2..])
    else if s == "" then ""
    else
      WithinTail(NoBold(s[1..]), s, 1);
      [s[0]] + NoBold(s[1..])
  }

  lemma WithinTail(r: string, s: string, k: nat)
    requires k <= |s| && Within(r, s[k..])
    ensures Within(r, s)
  {
  }

  function InnerCells(line: string): string {
    var s := Strip(line);
    var t := if s != "" && s[0] == '|' then s[1..] else s;
    if t != "" && t[|t| - 1] == '|' then t[..|t| - 1] else t
  }

  function CleanCells(parts: seq<string>): (r: seq<string>)
    ensures |r| == |parts| && forall i :: 0 <= i < |r| ==> r[i] == Strip(NoBold(parts[i]))
  {
    seq(|parts|, i requires 0 <= i < |parts| => Strip(NoBold(parts[i])))
  }

  /** _cells */
  function Cells(line: string): (r: seq<string>)
    ensures r != []
  {
    CleanCells(Split(InnerCells(line), '|'))
  }

  /** The rows of the run of table lines that lines starts with. */
  function RowsOf(lines: seq<string>): (rows: seq<seq<string>>)
    ensures forall i :: 0 <= i < |rows| ==> rows[i] != []
  {
    if lines == [] || !IsRowLine(lines[0]) then []
    else (if IsSeparator(lines[0]) then [] else [Cells(lines[0])]) + RowsOf(lines[1..])
  }

  function FirstRow(lines: seq<string>): (k: nat)
    ensures k <= |lines|
  {
    if lines == [] || IsRowLine(lines[0]) then 0 else 1 + FirstRow(lines[1..])
  }

  /** A row, filled with blanks or cut to the width of the heading. */
  function Padded(row: seq<string>, width: nat): (r: seq<string>)
    ensures |r| == width && forall j :: 0 <= j < width ==> r[j] == if j < |row| then row[j] else ""
  {
    seq(width, j requires 0 <= j < width => if j < |row| then row[j] else "")
  }

  function PaddedRows(rows: seq<seq<string>>, width: nat): (r: seq<seq<string>>)
    ensures |r| == |rows| && forall i :: 0 <= i < |r| ==> r[i] == Padded(rows[i], width)
  {
    seq(|rows|, i requires 0 <= i < |rows| => Padded(rows[i], width))
  }

  predicate HasFence(block: string) {
    exists i :: 0 <= i < |block| - 2 && block[i] == '`' && block[i + 1] == '`' && block[i + 2] == '`'
  }

  function CaptionOf(p: Patterns, lines: seq<string>): string {
    var found := p.caption(Strip(p.withoutSources(Strip(Join(lines, " ")))));
    if found.Some? then Strip(found.value) else ""
  }

  /** The caption without the unit at its end, and that unit. */
  function SplitCaption(p: Patterns, caption: string): (string, string) {
    var tail := p.captionUnit(caption);
    if tail.Some? && tail.value.0 <= |caption| then (Strip(caption[..tail.value.0]), tail.value.1) else (caption, "")
  }

  function TableOf(caption: (string, string), rows: seq<seq<string>>, sources: seq<nat>): (t: Table)
    requires rows != [] && rows[0] != []
    ensures WellShaped(t) && t.headers == rows[0]
  {
    Table(caption.0, caption.1, rows[0], PaddedRows(rows[1..], |rows[0]|), sources)
  }

  /** find_table */
  function TableIn(p: Patterns, block: string): (r: Option<Table>)
    ensures r.Some? ==> WellShaped(r.value) && r.value.headers != []
  {
    var lines := Split(block, '\n');
    var k := FirstRow(lines);
    var rows := RowsOf(lines[k..]);
    if HasFence(block) || |rows| < 3 then None
    else Some(TableOf(SplitCaption(p, CaptionOf(p, lines[..k])), rows, p.sources(block)))
  }

  lemma {:induction false} FirstRowIs(lines: seq<string>, k: nat)
    requires k <= |lines| && (forall i :: 0 <= i < k ==> !IsRowLine(lines[i])) && (k < |lines| ==> IsRowLine(lines[k]))
    ensures FirstRow(lines) == k
  {
    hide IsRowLine;
    if k > 0 {
      assert forall i :: 0 <= i < |lines| - 1 ==> lines[1..][i] == lines[i + 1];
      FirstRowIs(lines[1..], k - 1);
    }
  }

  lemma RowsStep(lines: seq<string>, i: nat)
    requires i <= |lines|
    ensures RowsOf(lines[i..]) ==
      if i == |lines| || !IsRowLine(lines[i]) then []
      else (if IsSeparator(lines[i]) then [] else [Cells(lines[i])]) + RowsOf(lines[i + 1..])
  {
    hide IsRowLine, IsSeparator, Cells;
    if i < |lines| { assert lines[i..][1..] == lines[i + 1..]; }
  }

  /** find_table, with the loops that look for the first row and collect the run of rows. */
  method FindTable(p: Patterns, block: string) returns (r: Option<Table>)
    ensures r == TableIn(p, block)
  {
    hide Split, IsRowLine, IsSeparator, Cells, RowsOf, FirstRow, CaptionOf, SplitCaption, HasFence;
    if HasFence(block) {
      return None;
    }
    var lines := Split(block, '\n');
    var start := 0;
    while start < |lines| && !IsRowLine(lines[start])
      invariant start <= |lines| && forall i :: 0 <= i < start ==> !IsRowLine(lines[i])
    {
      start := start + 1;
    }
    FirstRowIs(lines, start);
    var rows: seq<seq<string>>, i := [], start;
    while i < |lines| && IsRowLine(lines[i])
      invariant start <= i <= |lines| && rows + RowsOf(lines[i..]) == RowsOf(lines[start..])
    {
      RowsStep(lines, i);
      if !IsSeparator(lines[i]) {
        rows := rows + [Cells(lines[i])];
      }
      i := i + 1;
    }
    RowsStep(lines, i);
    assert rows + [] == rows;
    if |rows| < 3 {
      return None;
    }
    r := Some(TableOf(SplitCaption(p, CaptionOf(p, lines[..start])), rows, p.sources(block)));
  }

  // ---------- Cells and columns ----------

  function StripMarkers(p: Patterns, cell: string): string {
    Strip(p.withoutMarks(cell))
  }

  function CellValue(p: Patterns, cell: string): Option<Decimal> {
    SignedNumber(StripMarkers(p, cell))
  }

  predicate IsSign(c: char) {
    c in "+-−–△▽"
  }

  /** Where the number that s begins with ends. */
  function NumberEnd(s: string): (n: nat)
    ensures n <= |s| && (s != "" && IsDigit(s[0]) ==> n > 0)
  {
    var n := NumberRun(s);
    var f := FractionPart(s[n..]);
    if f == "" then n else n + 1 + |f|
  }

  function AfterSign(s: string): string {
    if s != "" && IsSign(s[0]) then s[1..] else s
  }

  /** _NUMERIC_CELL_RE: a sign, digits with commas and a fraction, and at most four characters that
      are neither digits nor white space. */
  predicate IsNumeral(s: string) {
    var t := LStrip(AfterSign(s));
    t != "" && IsDigit(t[0])
    && var tail := t[NumberEnd(t)..];
       |tail| <= 4 && forall i :: 0 <= i < |tail| ==> !IsDigit(tail[i]) && !IsSpace(tail[i])
  }

  /** is_numeric_cell */
  predicate IsNumericCell(p: Patterns, cell: string) {
    var s := StripMarkers(p, cell);
    '▲' !in s && '▼' !in s && IsNumeral(s)
  }

  predicate WellShaped(t: Table) {
    forall i :: 0 <= i < |t.rows| ==> |t.rows[i]| == |t.headers|
  }

  predicate IsNumericColumn(p: Patterns, t: Table, col: nat)
    requires WellShaped(t) && col < |t.headers|
  {
    t.rows != [] && forall i :: 0 <= i < |t.rows| ==> IsNumericCell(p, t.rows[i][col])
  }

  predicate InRange(cols: seq<nat>, n: nat) {
    forall i :: 0 <= i < |cols| ==> cols[i] < n
  }

  function Range(n: nat): (r: seq<nat>)
    ensures |r| == n && forall i :: 0 <= i < n ==> r[i] == i
  {
    seq(n, i => i)
  }

  /** [c for c in cols if keep(c)] */
  function Filter(cols: seq<nat>, keep: nat -> bool): seq<nat> {
    if cols == [] then []
    else (if keep(cols[0]) then [cols[0]] else []) + Filter(cols[1..], keep)
  }

  /** numeric_columns */
  function NumericColumns(p: Patterns, t: Table): seq<nat>
    requires WellShaped(t)
  {
    Filter(Range(|t.headers|), NumericTest(p, t))
  }

  function NumericTest(p: Patterns, t: Table): nat -> bool
    requires WellShaped(t)
  {
    (c: nat) => c < |t.headers| && IsNumericColumn(p, t, c)
  }

  function NotTest(x: nat): nat -> bool {
    (c: nat) => c != x
  }

  function UnitTest(p: Patterns, t: Table, unit: string): nat -> bool {
    (c: nat) => c < |t.headers| && UnitOf(p, t, c) == unit
  }

  function SplitUnit(p: Patterns, header: string): (string, string) {
    var m := p.trailingParen(header);
    if m.None? || m.value.0 > |header| then (Strip(header), "")
    else
      var name := Strip(header[..m.value.0]);
      (if name == "" then Strip(header) else name, Strip(m.value.1))
  }

  function UnitOf(p: Patterns, t: Table, col: nat): string
    requires col < |t.headers|
  {
    SplitUnit(p, t.headers[col]).1
  }

  function FirstNonNumeric(p: Patterns, t: Table, k: nat): (c: nat)
    requires WellShaped(t) && k <= |t.headers|
    ensures k <= c <= |t.headers| && (c < |t.headers| ==> !IsNumericColumn(p, t, c))
    decreases |t.headers| - k
  {
    if k == |t.headers| || !IsNumericColumn(p, t, k) then k else FirstNonNumeric(p, t, k + 1)
  }

  /** The first column that is not numeric, or the first column. */
  function XColumn(p: Patterns, t: Table): (c: nat)
    requires WellShaped(t)
    ensures t.headers != [] ==> c < |t.headers|
  {
    var c := FirstNonNumeric(p, t, 0);
    if c == |t.headers| then 0 else c
  }

  /** The numeric columns other than the x column. */
  function Candidates(p: Patterns, t: Table): (cols: seq<nat>)
    requires WellShaped(t)
    ensures InRange(cols, |t.headers|)
  {
    var numeric := NumericColumns(p, t);
    FilterKeepsRange(Range(|t.headers|), |t.headers|, NumericTest(p, t));
    FilterKeepsRange(numeric, |t.headers|, NotTest(XColumn(p, t)));
    Filter(numeric, NotTest(XColumn(p, t)))
  }

  lemma {:induction false} FilterKeepsRange(cols: seq<nat>, n: nat, keep: nat -> bool)
    requires InRange(cols, n)
    ensures InRange(Filter(cols, keep), n)
  {
    if cols != [] { FilterKeepsRange(cols[1..], n, keep); }
  }

  function SameUnit(p: Patterns, t: Table, cols: seq<nat>, unit: string): (r: seq<nat>)
    requires InRange(cols, |t.headers|)
    ensures InRange(r, |t.headers|)
  {
    FilterKeepsRange(cols, |t.headers|, UnitTest(p, t, unit));
    Filter(cols, UnitTest(p, t, unit))
  }

  /** default_choice */
  function DefaultChoice(p: Patterns, t: Table): (c: Choice)
    requires WellShaped(t)
    ensures InRange(c.seriesCols, |t.headers|) && (t.headers != [] ==> c.xCol < |t.headers|)
  {
    var cols := Candidates(p, t);
    var unit := if cols == [] then "" else UnitOf(p, t, cols[0]);
    var same := SameUnit(p, t, cols, unit);
    Choice("bar", XColumn(p, t), if |same| > MAX_SERIES then same[..MAX_SERIES] else same, t.caption,
           if unit == "" then t.captionUnit else unit)
  }

  /** len(NUMBER_RE.findall(s)) */
  function CountNumbers(s: string): nat
    decreases |s|
  {
    var k := NumberStart(s);
    if k.None? then 0
    else
      var body := if s[k.value] == '-' then s[k.value + 1..] else s[k.value..];
      1 + CountNumbers(body[NumberEnd(body)..])
  }

  predicate HasAmbiguousCell(p: Patterns, t: Table, cols: seq<nat>)
    requires WellShaped(t) && InRange(cols, |t.headers|)
  {
    exists i, j :: 0 <= i < |t.rows| && 0 <= j < |cols| && CountNumbers(StripMarkers(p, t.rows[i][cols[j]])) > 1
  }

  // ---------- The verdict ----------

  const AUTO_MIN_POINTS := 3
  const AUTO_MAX_POINTS := 12
  const AUTO_MAX_LABEL_LEN := 20

  function ColumnLabels(t: Table, x: nat): (r: seq<string>)
    requires WellShaped(t) && x < |t.headers|
    ensures |r| == |t.rows| && forall i :: 0 <= i < |r| ==> r[i] == Strip(t.rows[i][x])
  {
    seq(|t.rows|, i requires 0 <= i < |t.rows| => Strip(t.rows[i][x]))
  }

  /** _unit_tail */
  function UnitTail(p: Patterns, s: string): string {
    var tail := SplitUnit(p, s).1;
    if 0 < |tail| <= 6 && forall i :: 0 <= i < |tail| ==> !IsSpace(tail[i]) then tail else ""
  }

  predicate RowUnitsMixed(p: Patterns, labels: seq<string>) {
    exists i, j :: 0 <= i < |labels| && 0 <= j < |labels| && UnitTail(p, labels[i]) != UnitTail(p, labels[j])
  }

  function OfNat(n: nat): Decimal {
    Normal(false, NatToString(n), |NatToString(n)|)
  }

  predicate IsIndexColumn(p: Patterns, t: Table, col: nat)
    requires WellShaped(t) && col < |t.headers|
  {
    forall i :: 0 <= i < |t.rows| ==> CellValue(p, t.rows[i][col]) == Some(OfNat(i + 1))
  }

  const ZERO := Decimal(false, "", 0)

  /** try_number(...) or 0.0 */
  function ValueOrZero(p: Patterns, cell: string): (d: Decimal)
    ensures IsNormal(d)
  {
    var v := CellValue(p, cell);
    if v.None? then ZERO else v.value
  }

  function ColumnValues(p: Patterns, t: Table, col: nat): (r: seq<Decimal>)
    requires WellShaped(t) && col < |t.headers|
    ensures |r| == |t.rows| && forall i :: 0 <= i < |r| ==> r[i] == ValueOrZero(p, t.rows[i][col]) && IsNormal(r[i])
  {
    seq(|t.rows|, i requires 0 <= i < |t.rows| => ValueOrZero(p, t.rows[i][col]))
  }

  predicate AllEqual(p: Patterns, t: Table, cols: seq<nat>)
    requires WellShaped(t) && InRange(cols, |t.headers|)
  {
    forall i, j, k, l :: 0 <= i < |t.rows| && 0 <= j < |cols| && 0 <= k < |t.rows| && 0 <= l < |cols| ==>
      ValueOrZero(p, t.rows[i][cols[j]]) == ValueOrZero(p, t.rows[k][cols[l]])
  }

  function Sum(values: seq<Decimal>): real
    requires forall i :: 0 <= i < |values| ==> IsNormal(values[i])
  {
    if values == [] then 0.0 else RealOf(values[0]) + Sum(values[1..])
  }

  /** A single column of shares that add up to about 100 %, without a total row. */
  predicate IsPie(p: Patterns, t: Table, c: Choice)
    requires WellShaped(t) && c.xCol < |t.headers| && InRange(c.seriesCols, |t.headers|)
  {
    |c.seriesCols| == 1
    && var col := c.seriesCols[0];
       var values := ColumnValues(p, t, col);
       var unit := PieUnit(p, t, col);
       && p.isShare(SplitUnit(p, t.headers[col]).0)
       && (Strip(unit) == "%" || Strip(unit) == "％")
       && (forall i :: 0 <= i < |t.rows| ==> !p.isTotal(Strip(t.rows[i][c.xCol])))
       && (forall i :: 0 <= i < |values| ==> !values[i].neg)
       && 90.0 <= Sum(values) <= 110.0
       && |t.rows| <= MAX_SERIES
  }

  function PieUnit(p: Patterns, t: Table, col: nat): string
    requires col < |t.headers|
  {
    if UnitOf(p, t, col) == "" then t.captionUnit else UnitOf(p, t, col)
  }

  predicate IsTimeAxis(p: Patterns, labels: seq<string>) {
    forall i :: 0 <= i < |labels| ==> p.isTime(labels[i])
  }

  predicate IsNumericAxis(labels: seq<string>) {
    forall i :: 0 <= i < |labels| ==> SignedNumber(labels[i]).Some?
  }

  /** What must hold of the columns before the labels are looked at. */
  function ColumnProblem(p: Patterns, t: Table, c: Choice): Option<Reason>
    requires WellShaped(t) && InRange(c.seriesCols, |t.headers|)
  {
    var numeric := Candidates(p, t);
    if c.seriesCols == [] then Some(NoValueColumn)
    else if |numeric| > |c.seriesCols| then Some(MixedUnits)
    else if |numeric| > MAX_SERIES then Some(SeriesCapExceeded)
    else if HasAmbiguousCell(p, t, c.seriesCols) then Some(SeveralNumbersInCell)
    else None
  }

  function LabelProblem(p: Patterns, labels: seq<string>): Option<Reason> {
    if exists i :: 0 <= i < |labels| && labels[i] == "" then Some(BlankLabel)
    else if !Distinct(labels) then Some(RepeatedLabel)
    else if |labels| < AUTO_MIN_POINTS then Some(TooFewItems)
    else if |labels| > AUTO_MAX_POINTS then Some(TooManyItems)
    else if exists i :: 0 <= i < |labels| && |labels[i]| > AUTO_MAX_LABEL_LEN then Some(NarrativeLabel)
    else if RowUnitsMixed(p, labels) then Some(MixedRowUnits)
    else None
  }

  function ValueProblem(p: Patterns, t: Table, c: Choice): Option<Reason>
    requires WellShaped(t) && InRange(c.seriesCols, |t.headers|)
  {
    if exists i :: 0 <= i < |c.seriesCols| && IsIndexColumn(p, t, c.seriesCols[i]) then Some(IndexColumn)
    else if AllEqual(p, t, c.seriesCols) then Some(NoVariation)
    else None
  }

  function KindOf(p: Patterns, t: Table, c: Choice): (v: Verdict)
    requires WellShaped(t) && c.xCol < |t.headers| && InRange(c.seriesCols, |t.headers|)
    ensures v.Convert? ==> v.choice.xCol == c.xCol && v.choice.seriesCols == c.seriesCols
  {
    var labels := ColumnLabels(t, c.xCol);
    if IsPie(p, t, c) then Convert(c.(kind := "pie", unit := PieUnit(p, t, c.seriesCols[0])))
    else if IsTimeAxis(p, labels) then Convert(c.(kind := "line"))
    else if IsNumericAxis(labels) then Skip(NumericAxis)
    else Convert(c)
  }

  /** auto_choice */
  function AutoChoice(p: Patterns, t: Table): (v: Verdict)
    requires WellShaped(t) && t.headers != []
    ensures v.Convert? ==> v.choice.xCol < |t.headers| && InRange(v.choice.seriesCols, |t.headers|)
  {
    if Strip(t.caption) == "" then Skip(NoTitle)
    else
      var c := DefaultChoice(p, t);
      var columnProblem := ColumnProblem(p, t, c);
      if columnProblem.Some? then Skip(columnProblem.value)
      else
        var labelProblem := LabelProblem(p, ColumnLabels(t, c.xCol));
        if labelProblem.Some? then Skip(labelProblem.value)
        else
          var valueProblem := ValueProblem(p, t, c);
          if valueProblem.Some? then Skip(valueProblem.value) else KindOf(p, t, c)
  }

  // ---------- build_spec ----------

  /** The rows whose label is not blank. */
  function Labelled(rows: seq<seq<string>>, x: nat): (r: seq<seq<string>>)
    requires forall i :: 0 <= i < |rows| ==> x < |rows[i]|
  {
    if rows == [] then []
    else (if Strip(rows[0][x]) == "" then [] else [rows[0]]) + Labelled(rows[1..], x)
  }

  function SeriesName(p: Patterns, t: Table, col: nat): string
    requires col < |t.headers|
  {
    var name := SplitUnit(p, t.headers[col]).0;
    if name == "" then "계열 " + NatToString(col + 1) else name
  }

  function SeriesOf(p: Patterns, t: Table, cols: seq<nat>): (r: seq<Series>)
    requires WellShaped(t) && InRange(cols, |t.headers|)
    ensures |r| == |cols| && forall i :: 0 <= i < |r| ==>
        r[i] == Series(SeriesName(p, t, cols[i]), ColumnValues(p, t, cols[i]))
  {
    seq(|cols|, i requires 0 <= i < |cols| => Series(SeriesName(p, t, cols[i]), ColumnValues(p, t, cols[i])))
  }

  /** build_spec */
  function BuildSpec(p: Patterns, t: Table, c: Choice, block: string): (spec: ChartSpec)
    requires WellShaped(t) && c.xCol < |t.headers| && InRange(c.seriesCols, |t.headers|)
    ensures forall i :: 0 <= i < |spec.series| ==> NormalSeries(spec.series[i])
  {
    var rows := Labelled(t.rows, c.xCol);
    LabelledRows(t.rows, c.xCol);
    var u := t.(rows := rows);
    ChartSpec(c.kind, Strip(c.title), ColumnLabels(u, c.xCol), SeriesOf(p, u, c.seriesCols), Strip(c.unit), t.source,
        Strip(block))
  }

  lemma {:induction false} LabelledRows(rows: seq<seq<string>>, x: nat)
    requires forall i :: 0 <= i < |rows| ==> x < |rows[i]|
    ensures forall i :: 0 <= i < |Labelled(rows, x)| ==> Labelled(rows, x)[i] in rows
    ensures (forall i :: 0 <= i < |rows| ==> Strip(rows[i][x]) != "") ==> Labelled(rows, x) == rows
  {
    if rows != [] {
      assert forall i :: 0 <= i < |rows| - 1 ==> rows[1..][i] == rows[i + 1];
      LabelledRows(rows[1..], x);
      assert [rows[0]] + rows[1..] == rows;
    }
  }
}
