/** Which blocks of a text become charts, which charts, and where blocks begin and end
    (src/core/table_to_chart.py). */
module ConvertedBlocks {
  import opened Text
  import opened Numbers
  import opened Charts
  import opened Tables
  import opened TableDrawing
  import opened AutoVerdict
  import opened Blocks
  import opened Conversion

  // ---------- Lines and blocks ----------

  ghost predicate IsWhite(pad: string) {
    forall i :: 0 <= i < |pad| ==> IsSpace(pad[i])
  }

  /** A fence line: three back quotes, and nothing but white space before them. */
  lemma FenceLineIff(line: string)
    ensures IsFenceLine(line) <==> exists pad: string, rest: string :: IsWhite(pad) && line == pad + ("```" + rest)
  {
    BackQuoteIsVisible();
    hide IsSpace, LStrip;
    var s := LStrip(line);
    var n := |line| - |s|;
    if IsFenceLine(line) {
      assert s == "```" + s[3..] && line == line[..n] + s;
      assert IsWhite(line[..n]);
    }
    if pad: string, rest: string :| IsWhite(pad) && line == pad + ("```" + rest) {
      var k := |pad|;
      assert line[k] == '`' && line[k + 1] == '`' && line[k + 2] == '`';
      assert forall i :: 0 <= i < k ==> line[i] == pad[i];
      if s != "" { assert s[0] == line[n]; }
      assert n == k;
    }
  }

  lemma BlankLineIff(line: string)
    ensures IsBlankLine(line) <==> forall i :: 0 <= i < |line| ==> IsSpace(line[i])
  {
    hide Strip, IsSpace;
    var i, j := StripSplits(line);
  }

  /** A block joins the text before it when that is the caption of a table, on one line, and the block begins
      with a row, or when the block holds nothing but citation marks. */
  lemma JoinsIff(p: Patterns, text: seq<string>, block: seq<string>)
    ensures Joins(p, text, block) <==>
      || (block != [] && IsRowLine(block[0])
          && var caption := Strip(p.withoutSources(Join(text, "\n")));
             (forall i :: 0 <= i < |caption| ==> caption[i] != '\n') && p.caption(caption).Some?)
      || p.markerOnly(Join(block, "\n"))
  {
    hide Strip, IsRowLine, Join;
  }

  // ---------- The chart of a block ----------

  /** A block becomes a chart exactly when it holds a table against which no reason speaks. */
  lemma ChartIff(p: Patterns, block: seq<string>, t: Table, x: nat)
    requires TableIn(p, Join(block, "\n")) == Some(t) && IsLabelColumn(p, t, x)
    ensures ChartFor(p, block).Some? <==> forall r: Reason :: !Applies(p, t, x, r)
  {
    hide TableIn, AutoChoice, BuildSpec, Applies, IsLabelColumn, Join;
    VerdictIsFirstReason(p, t, x);
  }

  lemma NoTableNoChart(p: Patterns, block: seq<string>)
    requires TableIn(p, Join(block, "\n")).None?
    ensures ChartFor(p, block).None?
  {
    hide TableIn, Join;
  }

  /** The chart is of the kind the cells call for; it is titled with the caption and measured in the unit of its
      headings, or else of the caption; it has one series for every value column, in order, under the name of
      its heading; and it keeps the sources and, trimmed, the text of the block. */
  lemma ChartIs(p: Patterns, block: seq<string>, t: Table, x: nat)
    requires TableIn(p, Join(block, "\n")) == Some(t) && IsLabelColumn(p, t, x) && ChartFor(p, block).Some?
    ensures var spec := ChartFor(p, block).value;
      && spec.kind == (if IsShareTable(p, t, x) then "pie" else if HasTimeAxis(p, t, x) then "line" else "bar")
      && spec.title == Strip(t.caption) && spec.source == t.source && spec.table == Strip(Join(block, "\n"))
      && |spec.x| == |t.rows| && (forall i :: 0 <= i < |t.rows| ==> spec.x[i] == LabelAt(t, x, i))
      && exists cols: seq<nat> ::
           && Increasing(cols) && (forall c :: c in cols <==> c in ValueColumns(p, t, x)) && |spec.series| == |cols|
           && forall k :: 0 <= k < |cols| ==> IsSeriesOf(p, t, cols[k], spec.series[k], spec.unit)
  {
    hide TableIn, AutoChoice, IsLabelColumn, Join, IsShareTable, HasTimeAxis, ValueColumns, Increasing, SeriesName,
      UnitFor, CellReal, Strip, ValueOrZero, BuildSpec;
    var text := Join(block, "\n");
    var c := AutoChoice(p, t).choice;
    assert AutoChoice(p, t) == Convert(c) && ChartFor(p, block) == Some(BuildSpec(p, t, c, text));
    KindOfAccepted(p, t, x, c);
    AcceptedLabelsAre(p, t, c);
    SpecIs(p, t, c, text);
    ColumnsInside(p, t, x);
    forall k | 0 <= k < |c.seriesCols|
      ensures IsSeriesOf(p, t, c.seriesCols[k], ChartFor(p, block).value.series[k], ChartFor(p, block).value.unit)
    {
      assert c.seriesCols[k] in c.seriesCols;
      SeriesIs(p, t, c.seriesCols[k], c.unit);
    }
  }

  /** The series shows the column under the name of its heading, in the unit of the chart. */
  ghost predicate IsSeriesOf(p: Patterns, t: Table, c: nat, s: Series, unit: string) {
    && WellShaped(t) && c < |t.headers| && unit == Strip(UnitFor(p, t, c))
    && s.name == (var name := SplitUnit(p, t.headers[c]).0; if name == "" then "계열 " + NatToString(c + 1) else name)
    && |s.values| == |t.rows|
    && forall i :: 0 <= i < |t.rows| ==>
         IsNormal(s.values[i]) && DecimalValue.RealOf(s.values[i]) == CellReal(p, t.rows[i][c])
  }

  lemma SeriesIs(p: Patterns, t: Table, c: nat, unit: string)
    requires WellShaped(t) && c < |t.headers| && unit == UnitFor(p, t, c)
    ensures IsSeriesOf(p, t, c, Series(SeriesName(p, t, c), ColumnValues(p, t, c)), Strip(unit))
  {
    hide SplitUnit, UnitFor, CellReal, Strip, ValueOrZero;
    forall i | 0 <= i < |t.rows|
      ensures DecimalValue.RealOf(ColumnValues(p, t, c)[i]) == CellReal(p, t.rows[i][c])
    {
      CellIsWorth(p, t.rows[i][c]);
    }
  }

  lemma AcceptedLabelsAre(p: Patterns, t: Table, c: Choice)
    requires WellShaped(t) && t.headers != [] && AutoChoice(p, t) == Convert(c)
    ensures c.xCol < |t.headers| && forall i :: 0 <= i < |t.rows| ==> Strip(t.rows[i][c.xCol]) != ""
  {
    hide AutoChoice, DefaultChoice, ColumnProblem, LabelProblem, Strip;
    AcceptedChoice(p, t);
    AcceptedLabels(p, ColumnLabels(t, c.xCol));
    assert forall i :: 0 <= i < |t.rows| ==> ColumnLabels(t, c.xCol)[i] != "";
  }

  lemma ColumnsInside(p: Patterns, t: Table, x: nat)
    requires WellShaped(t)
    ensures forall c :: c in ValueColumns(p, t, x) ==> c < |t.headers|
  {
    hide HasText;
  }

  // ---------- A printed fence ----------

  const ONE := Decimal(false, "1", 1)
  const TWO_AND_HALF := Decimal(false, "25", 1)

  lemma ExampleValues()
    ensures IsNormal(ONE) && FormatG(ONE) == "1"
    ensures IsNormal(TWO_AND_HALF) && FormatG(TWO_AND_HALF) == "2.5"
  {
    assert Zeros(0) == "";
    assert ONE.digits + "" == "1" && Fraction("") == "";
    assert TWO_AND_HALF.digits[..1] == "2" && TWO_AND_HALF.digits[1..] == "5";
  }

  function Example(): ChartSpec {
    ChartSpec("bar", "t", ["a", "b"], [Series("s", [ONE, TWO_AND_HALF])], "u", [3, 4], "|x|\n|y|")
  }

  /** The fence of a small chart, line by line. */
  lemma ExampleIsPrinted()
    ensures (forall i :: 0 <= i < |Example().series| ==> NormalSeries(Example().series[i]))
    ensures ToFence(Example()) ==
      ["```chart", "type: bar", "title: t", "unit: u", "x: a | b", "series: s = 1 | 2.5", "source: 3, 4",
       "table: |", "  |x|", "  |y|", "```"]
  {
    ExampleValues();
    ExampleParts();
    hide FormatG, Join, SplitLines, NatToString;
    var spec := Example();
    var s := spec.series[0];
    assert PrintValues(s.values) == ["1", "2.5"];
    assert SeriesValue(s) == "s" + " = " + "1 | 2.5" == "s = 1 | 2.5";
    assert "series: " + "s = 1 | 2.5" == "series: s = 1 | 2.5";
    assert SeriesLines(spec.series) == ["series: s = 1 | 2.5"];
    assert Numerals(spec.source) == ["3", "4"];
    assert "source: " + "3, 4" == "source: 3, 4";
    assert SourceLines(spec.source) == ["source: 3, 4"];
    assert "  " + "|x|" == "  |x|" && "  " + "|y|" == "  |y|";
    var stored := ["|x|", "|y|"];
    assert Indented(stored)[0] == "  " + stored[0] && Indented(stored)[1] == "  " + stored[1];
    assert Indented(stored) == ["  |x|", "  |y|"];
    assert TableLines(spec.table) == ["table: |", "  |x|", "  |y|"];
    hide SeriesLines, SourceLines, TableLines, Indented, Numerals, PrintValues, SeriesValue;
    assert "type: " + "bar" == "type: bar" && "title: " + "t" == "title: t" && "unit: " + "u" == "unit: u";
    assert "x: " + "a | b" == "x: a | b";
  }

  lemma JoinTwo(a: string, b: string, sep: string)
    ensures Join([a, b], sep) == a + sep + b
  {
    assert [a, b][1..] == [b] && [b][1..] == [];
  }

  lemma ExampleParts()
    ensures Join(["1", "2.5"], " | ") == "1 | 2.5" && Join(["a", "b"], " | ") == "a | b"
        && Join(["3", "4"], ", ") == "3, 4"
    ensures NatToString(3) == "3" && NatToString(4) == "4" && SplitLines("|x|\n|y|") == ["|x|", "|y|"]
  {
    JoinTwo("1", "2.5", " | ");
    JoinTwo("a", "b", " | ");
    JoinTwo("3", "4", ", ");
    SplitPrefix("|x|", '\n', "|y|");
    SplitOne("|y|", '\n');
    assert "|x|" + ['\n'] + "|y|" == "|x|\n|y|";
    hide Split, Join;
  }
}
