/** When a table becomes a chart without anybody asking, and which one, said of its cells
    (src/core/table_to_chart.py: auto_choice). */
module AutoVerdict {
  import opened Text
  import opened Numbers
  import opened DecimalValue
  import opened Tables
  import opened TableDrawing

  // ---------- The table ----------

  /** Some cell of the column is no number. */
  ghost predicate HasText(p: Patterns, t: Table, c: nat)
    requires WellShaped(t) && c < |t.headers|
  {
    t.rows == [] || exists i :: 0 <= i < |t.rows| && !IsNumericCell(p, t.rows[i][c])
  }

  /** The labels stand in the first column with text, or in the first column when all cells are numbers. */
  ghost predicate IsLabelColumn(p: Patterns, t: Table, x: nat)
    requires WellShaped(t)
  {
    x < |t.headers|
    && if exists c :: 0 <= c < |t.headers| && HasText(p, t, c)
       then HasText(p, t, x) && forall c :: 0 <= c < x ==> !HasText(p, t, c)
       else x == 0
  }

  /** All other columns of numbers hold values. */
  ghost predicate IsValueColumn(p: Patterns, t: Table, x: nat, c: nat)
    requires WellShaped(t)
  {
    c < |t.headers| && c != x && !HasText(p, t, c)
  }

  ghost function ValueColumns(p: Patterns, t: Table, x: nat): set<nat>
    requires WellShaped(t)
  {
    set c: nat | c < |t.headers| && IsValueColumn(p, t, x, c)
  }

  function LabelAt(t: Table, x: nat, i: nat): string
    requires WellShaped(t) && x < |t.headers| && i < |t.rows|
  {
    Strip(t.rows[i][x])
  }

  /** The number a cell is drawn as. */
  function CellReal(p: Patterns, cell: string): real {
    var v := SignedNumber(Strip(p.withoutMarks(cell)));
    if v.None? then 0.0 else RealOf(v.value)
  }

  function ColumnSum(p: Patterns, rows: seq<seq<string>>, c: nat): real
    requires forall i :: 0 <= i < |rows| ==> c < |rows[i]|
  {
    if rows == [] then 0.0 else CellReal(p, rows[0][c]) + ColumnSum(p, rows[1..], c)
  }

  /** The unit in the heading of the column, or else in the caption. */
  function UnitFor(p: Patterns, t: Table, c: nat): string
    requires c < |t.headers|
  {
    if UnitOf(p, t, c) == "" then t.captionUnit else UnitOf(p, t, c)
  }

  /** A column of shares of at most five items, in percent, without a total row, that add up to about a
      hundred. */
  ghost predicate HoldsShares(p: Patterns, t: Table, x: nat, c: nat)
    requires WellShaped(t) && x < |t.headers| && c < |t.headers|
  {
    && p.isShare(SplitUnit(p, t.headers[c]).0)
    && Strip(UnitFor(p, t, c)) in ["%", "％"]
    && (forall i :: 0 <= i < |t.rows| ==> !p.isTotal(LabelAt(t, x, i)))
    && (forall i :: 0 <= i < |t.rows| ==> CellReal(p, t.rows[i][c]) >= 0.0)
    && 90.0 <= ColumnSum(p, t.rows, c) <= 110.0
    && |t.rows| <= 5
  }

  /** Shares are all the table has. */
  ghost predicate IsShareTable(p: Patterns, t: Table, x: nat)
    requires WellShaped(t) && x < |t.headers|
  {
    exists c: nat :: c < |t.headers| && ValueColumns(p, t, x) == {c} && HoldsShares(p, t, x, c)
  }

  ghost predicate HasTimeAxis(p: Patterns, t: Table, x: nat)
    requires WellShaped(t) && x < |t.headers|
  {
    forall i :: 0 <= i < |t.rows| ==> p.isTime(LabelAt(t, x, i))
  }

  // ---------- Reasons against a chart ----------

  /** The order in which reasons are looked for. */
  function Rank(r: Reason): nat {
    match r
    case NoTitle => 0
    case NoValueColumn => 1
    case MixedUnits => 2
    case SeriesCapExceeded => 3
    case SeveralNumbersInCell => 4
    case BlankLabel => 5
    case RepeatedLabel => 6
    case TooFewItems => 7
    case TooManyItems => 8
    case NarrativeLabel => 9
    case MixedRowUnits => 10
    case IndexColumn => 11
    case NoVariation => 12
    case NumericAxis => 13
  }

  /** What each reason says of the cells, when the labels stand in column x. */
  ghost predicate Applies(p: Patterns, t: Table, x: nat, r: Reason)
    requires WellShaped(t) && x < |t.headers|
  {
    var columns := ValueColumns(p, t, x);
    match r
    case NoTitle => Strip(t.caption) == ""
    case NoValueColumn => columns == {}
    case MixedUnits =>
      |columns| > 5 || exists c, d :: c in columns && d in columns && UnitOf(p, t, c) != UnitOf(p, t, d)
    case SeriesCapExceeded => false
    case SeveralNumbersInCell =>
      exists i, c :: 0 <= i < |t.rows| && c in columns && CountNumbers(StripMarkers(p, t.rows[i][c])) > 1
    case BlankLabel => exists i :: 0 <= i < |t.rows| && LabelAt(t, x, i) == ""
    case RepeatedLabel => exists i, j :: 0 <= i < j < |t.rows| && LabelAt(t, x, i) == LabelAt(t, x, j)
    case TooFewItems => |t.rows| < 3
    case TooManyItems => |t.rows| > 12
    case NarrativeLabel => exists i :: 0 <= i < |t.rows| && |LabelAt(t, x, i)| > 20
    case MixedRowUnits =>
      exists i, j :: 0 <= i < j < |t.rows| && UnitTail(p, LabelAt(t, x, i)) != UnitTail(p, LabelAt(t, x, j))
    case IndexColumn => exists c :: c in columns && IsCount(p, t, c)
    case NoVariation =>
      forall i, j, c, d :: 0 <= i < |t.rows| && 0 <= j < |t.rows| && c in columns && d in columns ==>
        CellReal(p, t.rows[i][c]) == CellReal(p, t.rows[j][d])
    case NumericAxis =>
      !IsShareTable(p, t, x) && !HasTimeAxis(p, t, x)
      && forall i :: 0 <= i < |t.rows| ==> SignedNumber(LabelAt(t, x, i)).Some?
  }

  /** The column counts its rows. */
  ghost predicate IsCount(p: Patterns, t: Table, c: nat)
    requires WellShaped(t) && c < |t.headers|
  {
    forall i :: 0 <= i < |t.rows| ==> CellReal(p, t.rows[i][c]) == (i + 1) as real
  }

  /** Reason r applies and no reason that is looked for before it. */
  ghost predicate IsFirstReason(p: Patterns, t: Table, x: nat, r: Reason)
    requires WellShaped(t) && x < |t.headers|
  {
    Applies(p, t, x, r) && forall q: Reason :: Rank(q) < Rank(r) ==> !Applies(p, t, x, q)
  }

  // ---------- The columns ----------

  lemma TextIff(p: Patterns, t: Table, c: nat)
    requires WellShaped(t) && c < |t.headers|
    ensures HasText(p, t, c) <==> !IsNumericColumn(p, t, c)
  {
    hide IsNumericCell;
  }

  /** default_choice takes the labels from that column. */
  lemma LabelColumnIff(p: Patterns, t: Table, x: nat)
    requires WellShaped(t) && t.headers != []
    ensures IsLabelColumn(p, t, x) <==> x == XColumn(p, t)
  {
    hide IsNumericColumn, HasText, FirstNonNumeric;
    var y := FirstNonNumeric(p, t, 0);
    FirstWithText(p, t, 0);
    forall c: nat | c < |t.headers| ensures HasText(p, t, c) <==> !IsNumericColumn(p, t, c) { TextIff(p, t, c); }
    if y < |t.headers| { assert HasText(p, t, y); }
  }

  lemma {:induction false} FirstWithText(p: Patterns, t: Table, k: nat)
    requires WellShaped(t) && k <= |t.headers|
    ensures forall c :: k <= c < FirstNonNumeric(p, t, k) ==> IsNumericColumn(p, t, c)
    decreases |t.headers| - k
  {
    hide IsNumericColumn;
    if k < |t.headers| && IsNumericColumn(p, t, k) { FirstWithText(p, t, k + 1); }
  }

  /** And its candidates are the value columns. */
  lemma CandidatesAreValues(p: Patterns, t: Table, x: nat)
    requires WellShaped(t) && t.headers != [] && x == XColumn(p, t)
    ensures forall c :: c in ValueColumns(p, t, x) <==> c in Candidates(p, t)
    ensures |ValueColumns(p, t, x)| == |Candidates(p, t)|
  {
    hide HasText, IsNumericColumn, XColumn, Candidates;
    CandidatesArePlottable(p, t);
    forall c: nat | c < |t.headers| ensures HasText(p, t, c) <==> !IsNumericColumn(p, t, c) { TextIff(p, t, c); }
    forall c: nat ensures c in ValueColumns(p, t, x) <==> c in Candidates(p, t) {
      assert IsPlottable(p, t, c) <==> IsValueColumn(p, t, x, c);
    }
    CountOfIncreasing(Candidates(p, t), ValueColumns(p, t, x));
  }

  lemma {:induction false} CountOfIncreasing(cols: seq<nat>, s: set<nat>)
    requires Increasing(cols) && forall c: nat :: c in s <==> c in cols
    ensures |s| == |cols|
    decreases |cols|
  {
    if cols == [] {
      assert s == {};
    } else {
      var n := |cols| - 1;
      var init, rest := cols[..n], s - {cols[n]};
      assert cols == init + [cols[n]] && cols[n] in s;
      forall c: nat ensures c in rest <==> c in init {
        if c in init {
          var k :| 0 <= k < n && init[k] == c;
          assert cols[k] < cols[n];
        }
      }
      CountOfIncreasing(init, rest);
    }
  }

  // ---------- Stages ----------

  /** The problem, if any, is the first reason that applies among those of rank lo to hi - 1. */
  ghost predicate Stage(p: Patterns, t: Table, x: nat, lo: nat, hi: nat, problem: Option<Reason>)
    requires WellShaped(t) && x < |t.headers|
  {
    match problem
    case None => forall q: Reason :: lo <= Rank(q) < hi ==> !Applies(p, t, x, q)
    case Some(r) => lo <= Rank(r) < hi && Applies(p, t, x, r)
                    && forall q: Reason :: lo <= Rank(q) < Rank(r) ==> !Applies(p, t, x, q)
  }

  lemma StagesJoin(p: Patterns, t: Table, x: nat, lo: nat, mid: nat, hi: nat, first: Option<Reason>,
      next: Option<Reason>)
    requires WellShaped(t) && x < |t.headers| && lo <= mid <= hi && Stage(p, t, x, lo, mid, first)
    requires first.None? ==> Stage(p, t, x, mid, hi, next)
    ensures Stage(p, t, x, lo, hi, if first.Some? then first else next)
  {
    hide Applies, Rank;
  }

  lemma TitleStage(p: Patterns, t: Table, x: nat)
    requires WellShaped(t) && x < |t.headers|
    ensures Stage(p, t, x, 0, 1, if Strip(t.caption) == "" then Some(NoTitle) else None)
  {
    hide Strip;
    assert Applies(p, t, x, NoTitle) <==> Strip(t.caption) == "";
    hide Applies;
  }

  /** The unit of the first candidate picks all of them exactly when they have one unit. */
  lemma OneUnitIff(p: Patterns, t: Table, cols: seq<nat>)
    requires cols != [] && InRange(cols, |t.headers|)
    ensures var same := SameUnit(p, t, cols, UnitOf(p, t, cols[0]));
      && same != [] && |same| <= |cols|
      && (|same| == |cols| ==> same == cols)
      && (|same| == |cols| <==> forall c, d :: c in cols && d in cols ==> UnitOf(p, t, c) == UnitOf(p, t, d))
  {
    hide UnitOf;
    var unit := UnitOf(p, t, cols[0]);
    var keep := UnitTest(p, t, unit);
    var same := SameUnit(p, t, cols, unit);
    FilterLength(cols, keep);
    forall c: nat ensures c in same <==> c in cols && keep(c) { FilterHas(cols, keep, c); }
    assert cols[0] in cols && cols[0] in same;
    if forall c: nat :: c in cols ==> keep(c) { FilterAll(cols, keep); }
  }

  lemma {:induction false} FilterAll(cols: seq<nat>, keep: nat -> bool)
    requires forall c: nat :: c in cols ==> keep(c)
    ensures Filter(cols, keep) == cols
  {
    if cols != [] {
      assert cols == [cols[0]] + cols[1..];
      FilterAll(cols[1..], keep);
    }
  }

  lemma ColumnStage(p: Patterns, t: Table, x: nat)
    requires WellShaped(t) && t.headers != [] && x == XColumn(p, t)
    ensures var c := DefaultChoice(p, t);
      && Stage(p, t, x, 1, 5, ColumnProblem(p, t, c))
      && (ColumnProblem(p, t, c).None? ==> c.seriesCols == Candidates(p, t))
  {
    hide Applies, XColumn, Candidates, UnitOf, SameUnit, ValueColumns, HasAmbiguousCell;
    var cols := Candidates(p, t);
    CandidatesAreValues(p, t, x);
    NoValueIff(p, t, x);
    CapIff(p, t, x);
    if cols == [] {
      NoColumns(p, t);
    } else {
      OneUnitIff(p, t, cols);
      MixedIff(p, t, x, cols);
      SeveralIff(p, t, x, cols);
    }
  }

  lemma NoColumns(p: Patterns, t: Table)
    ensures SameUnit(p, t, [], "") == []
  {
  }

  lemma NoValueIff(p: Patterns, t: Table, x: nat)
    requires WellShaped(t) && x < |t.headers|
    ensures Applies(p, t, x, NoValueColumn) <==> |ValueColumns(p, t, x)| == 0
  {
    hide IsValueColumn;
  }

  lemma CapIff(p: Patterns, t: Table, x: nat)
    requires WellShaped(t) && x < |t.headers|
    ensures !Applies(p, t, x, SeriesCapExceeded)
  {
  }

  lemma MixedIff(p: Patterns, t: Table, x: nat, cols: seq<nat>)
    requires WellShaped(t) && x < |t.headers| && InRange(cols, |t.headers|)
    requires |ValueColumns(p, t, x)| == |cols| && forall c :: c in ValueColumns(p, t, x) <==> c in cols
    ensures Applies(p, t, x, MixedUnits) <==>
      |cols| > 5 || !forall c, d :: c in cols && d in cols ==> UnitOf(p, t, c) == UnitOf(p, t, d)
  {
    hide UnitOf, IsValueColumn;
  }

  lemma SeveralIff(p: Patterns, t: Table, x: nat, cols: seq<nat>)
    requires WellShaped(t) && x < |t.headers| && InRange(cols, |t.headers|)
    requires forall c :: c in ValueColumns(p, t, x) <==> c in cols
    ensures Applies(p, t, x, SeveralNumbersInCell) <==> HasAmbiguousCell(p, t, cols)
  {
    hide CountNumbers, StripMarkers, IsValueColumn;
    if Applies(p, t, x, SeveralNumbersInCell) {
      var i, c :| 0 <= i < |t.rows| && c in ValueColumns(p, t, x) && CountNumbers(StripMarkers(p, t.rows[i][c])) > 1;
      var j :| 0 <= j < |cols| && cols[j] == c;
      assert CountNumbers(StripMarkers(p, t.rows[i][cols[j]])) > 1;
    }
    if HasAmbiguousCell(p, t, cols) {
      var i, j :| 0 <= i < |t.rows| && 0 <= j < |cols| && CountNumbers(StripMarkers(p, t.rows[i][cols[j]])) > 1;
      assert cols[j] in ValueColumns(p, t, x);
    }
  }

  lemma BlankIff(p: Patterns, t: Table, x: nat)
    requires WellShaped(t) && x < |t.headers|
    ensures var labels := ColumnLabels(t, x);
      Applies(p, t, x, BlankLabel) <==> exists i :: 0 <= i < |labels| && labels[i] == ""
  {
    hide Strip;
    var labels := ColumnLabels(t, x);
    assert forall i :: 0 <= i < |t.rows| ==> labels[i] == LabelAt(t, x, i);
  }

  lemma RepeatedIff(p: Patterns, t: Table, x: nat)
    requires WellShaped(t) && x < |t.headers|
    ensures Applies(p, t, x, RepeatedLabel) <==> !Distinct(ColumnLabels(t, x))
  {
    hide Strip;
    var labels := ColumnLabels(t, x);
    assert forall i :: 0 <= i < |t.rows| ==> labels[i] == LabelAt(t, x, i);
  }

  lemma CountOfItemsIff(p: Patterns, t: Table, x: nat)
    requires WellShaped(t) && x < |t.headers|
    ensures Applies(p, t, x, TooFewItems) <==> |ColumnLabels(t, x)| < AUTO_MIN_POINTS
    ensures Applies(p, t, x, TooManyItems) <==> |ColumnLabels(t, x)| > AUTO_MAX_POINTS
  {
    hide Strip, ValueColumns;
  }

  lemma NarrativeIff(p: Patterns, t: Table, x: nat)
    requires WellShaped(t) && x < |t.headers|
    ensures var labels := ColumnLabels(t, x);
      Applies(p, t, x, NarrativeLabel) <==> exists i :: 0 <= i < |labels| && |labels[i]| > AUTO_MAX_LABEL_LEN
  {
    hide Strip;
    var labels := ColumnLabels(t, x);
    assert forall i :: 0 <= i < |t.rows| ==> labels[i] == LabelAt(t, x, i);
  }

  lemma RowUnitsIff(p: Patterns, t: Table, x: nat)
    requires WellShaped(t) && x < |t.headers|
    ensures Applies(p, t, x, MixedRowUnits) <==> RowUnitsMixed(p, ColumnLabels(t, x))
  {
    hide Strip, UnitTail;
    var labels := ColumnLabels(t, x);
    assert forall i :: 0 <= i < |t.rows| ==> labels[i] == LabelAt(t, x, i);
    if i, j :| 0 <= i < |labels| && 0 <= j < |labels| && UnitTail(p, labels[i]) != UnitTail(p, labels[j]) {
      var k, l := if i < j then i else j, if i < j then j else i;
      assert UnitTail(p, LabelAt(t, x, k)) != UnitTail(p, LabelAt(t, x, l));
    }
  }

  /** The stage of a single reason. */
  lemma OneStage(p: Patterns, t: Table, x: nat, r: Reason)
    requires WellShaped(t) && x < |t.headers|
    ensures Stage(p, t, x, Rank(r), Rank(r) + 1, if Applies(p, t, x, r) then Some(r) else None)
  {
    hide Applies;
    forall q: Reason | Rank(q) == Rank(r) ensures q == r {}
    hide Rank;
  }

  lemma LabelStage(p: Patterns, t: Table, x: nat)
    requires WellShaped(t) && x < |t.headers|
    ensures Stage(p, t, x, 5, 11, LabelProblem(p, ColumnLabels(t, x)))
  {
    hide Applies, Distinct, RowUnitsMixed, ColumnLabels, Stage;
    var labels := ColumnLabels(t, x);
    BlankIff(p, t, x);
    OneStage(p, t, x, BlankLabel);
    RepeatedIff(p, t, x);
    OneStage(p, t, x, RepeatedLabel);
    CountOfItemsIff(p, t, x);
    OneStage(p, t, x, TooFewItems);
    OneStage(p, t, x, TooManyItems);
    NarrativeIff(p, t, x);
    OneStage(p, t, x, NarrativeLabel);
    RowUnitsIff(p, t, x);
    OneStage(p, t, x, MixedRowUnits);
    var units: Option<Reason> := if RowUnitsMixed(p, labels) then Some(MixedRowUnits) else None;
    var long := if Applies(p, t, x, NarrativeLabel) then Some(NarrativeLabel) else units;
    var many := if Applies(p, t, x, TooManyItems) then Some(TooManyItems) else long;
    var few := if Applies(p, t, x, TooFewItems) then Some(TooFewItems) else many;
    var twice := if Applies(p, t, x, RepeatedLabel) then Some(RepeatedLabel) else few;
    StagesJoin(p, t, x, 9, 10, 11, if Applies(p, t, x, NarrativeLabel) then Some(NarrativeLabel) else None, units);
    StagesJoin(p, t, x, 8, 9, 11, if Applies(p, t, x, TooManyItems) then Some(TooManyItems) else None, long);
    StagesJoin(p, t, x, 7, 8, 11, if Applies(p, t, x, TooFewItems) then Some(TooFewItems) else None, many);
    StagesJoin(p, t, x, 6, 7, 11, if Applies(p, t, x, RepeatedLabel) then Some(RepeatedLabel) else None, few);
    StagesJoin(p, t, x, 5, 6, 11, if Applies(p, t, x, BlankLabel) then Some(BlankLabel) else None, twice);
  }

  // ---------- Values ----------

  lemma CellIsWorth(p: Patterns, cell: string)
    ensures CellReal(p, cell) == RealOf(ValueOrZero(p, cell))
    ensures CellValue(p, cell).None? ==> CellReal(p, cell) == 0.0
    ensures CellValue(p, cell).Some? ==> CellReal(p, cell) == RealOf(CellValue(p, cell).value)
  {
    hide SignedNumber;
    WorthOfNothing(0);
  }

  lemma CountIsWorth(n: nat)
    ensures RealOf(OfNat(n)) == n as real
  {
    var s := NatToString(n);
    NormalIsWorth(false, s, |s|);
    NumeralRoundTrip(n);
    ScaledShift(n, 0);
    hide RealOf, Normal, Scaled, NatToString, StringToNat;
  }

  lemma CountIff(p: Patterns, t: Table, c: nat)
    requires WellShaped(t) && c < |t.headers|
    ensures IsCount(p, t, c) <==> IsIndexColumn(p, t, c)
  {
    hide CellReal, SignedNumber, StripMarkers, RealOf, Normal, ValueOrZero;
    forall i | 0 <= i < |t.rows|
      ensures CellReal(p, t.rows[i][c]) == (i + 1) as real <==> CellValue(p, t.rows[i][c]) == Some(OfNat(i + 1))
    {
      CellIsWorth(p, t.rows[i][c]);
      CountIsWorth(i + 1);
      var v := CellValue(p, t.rows[i][c]);
      if v.Some? { EqualIffSameWorth(v.value, OfNat(i + 1)); }
    }
  }

  lemma SameCells(p: Patterns, a: string, b: string)
    ensures CellReal(p, a) == CellReal(p, b) <==> ValueOrZero(p, a) == ValueOrZero(p, b)
  {
    hide CellReal, ValueOrZero, RealOf;
    CellIsWorth(p, a);
    CellIsWorth(p, b);
    EqualIffSameWorth(ValueOrZero(p, a), ValueOrZero(p, b));
  }

  lemma NoVariationIff(p: Patterns, t: Table, x: nat, cols: seq<nat>)
    requires WellShaped(t) && x < |t.headers| && InRange(cols, |t.headers|)
    requires forall c :: c in ValueColumns(p, t, x) <==> c in cols
    ensures Applies(p, t, x, NoVariation) <==> AllEqual(p, t, cols)
  {
    hide CellReal, ValueOrZero, ValueColumns;
    forall i, j, k, l | 0 <= i < |t.rows| && 0 <= j < |cols| && 0 <= k < |t.rows| && 0 <= l < |cols|
      ensures CellReal(p, t.rows[i][cols[j]]) == CellReal(p, t.rows[k][cols[l]]) <==>
              ValueOrZero(p, t.rows[i][cols[j]]) == ValueOrZero(p, t.rows[k][cols[l]])
    {
      SameCells(p, t.rows[i][cols[j]], t.rows[k][cols[l]]);
    }
    if AllEqual(p, t, cols) {
      forall i, k, c, d | 0 <= i < |t.rows| && 0 <= k < |t.rows| && c in ValueColumns(p, t, x)
          && d in ValueColumns(p, t, x)
        ensures CellReal(p, t.rows[i][c]) == CellReal(p, t.rows[k][d])
      {
        var j :| 0 <= j < |cols| && cols[j] == c;
        var l :| 0 <= l < |cols| && cols[l] == d;
        assert CellReal(p, t.rows[i][cols[j]]) == CellReal(p, t.rows[k][cols[l]]);
      }
    }
    if Applies(p, t, x, NoVariation) {
      forall j | 0 <= j < |cols| ensures cols[j] in ValueColumns(p, t, x) {}
    }
  }

  lemma ValueStage(p: Patterns, t: Table, x: nat, c: Choice)
    requires WellShaped(t) && x < |t.headers| && InRange(c.seriesCols, |t.headers|)
    requires forall k :: k in ValueColumns(p, t, x) <==> k in c.seriesCols
    ensures Stage(p, t, x, 11, 13, ValueProblem(p, t, c))
  {
    hide Applies, AllEqual, IsIndexColumn, ValueColumns;
    NoVariationIff(p, t, x, c.seriesCols);
    IndexIff(p, t, x, c.seriesCols);
  }

  lemma IndexIff(p: Patterns, t: Table, x: nat, cols: seq<nat>)
    requires WellShaped(t) && x < |t.headers| && InRange(cols, |t.headers|)
    requires forall c :: c in ValueColumns(p, t, x) <==> c in cols
    ensures Applies(p, t, x, IndexColumn) <==> exists i :: 0 <= i < |cols| && IsIndexColumn(p, t, cols[i])
  {
    hide IsIndexColumn, IsCount, ValueColumns;
    if Applies(p, t, x, IndexColumn) {
      var c :| c in ValueColumns(p, t, x) && IsCount(p, t, c);
      CountIff(p, t, c);
      var i :| 0 <= i < |cols| && cols[i] == c;
      assert IsIndexColumn(p, t, cols[i]);
    }
    if i :| 0 <= i < |cols| && IsIndexColumn(p, t, cols[i]) {
      CountIff(p, t, cols[i]);
      assert cols[i] in ValueColumns(p, t, x);
    }
  }

  // ---------- The kind ----------

  lemma {:induction false} SumIs(p: Patterns, rows: seq<seq<string>>, c: nat, values: seq<Decimal>)
    requires |values| == |rows| && forall i :: 0 <= i < |rows| ==>
        c < |rows[i]| && values[i] == ValueOrZero(p, rows[i][c])
    requires forall i :: 0 <= i < |values| ==> IsNormal(values[i])
    ensures Sum(values) == ColumnSum(p, rows, c)
  {
    hide CellReal, ValueOrZero, RealOf;
    if rows != [] {
      CellIsWorth(p, rows[0][c]);
      SumIs(p, rows[1..], c, values[1..]);
    }
  }

  lemma ShareIff(p: Patterns, t: Table, x: nat, c: Choice)
    requires WellShaped(t) && x < |t.headers| && c.xCol == x && InRange(c.seriesCols, |t.headers|)
    requires |ValueColumns(p, t, x)| == |c.seriesCols|
    requires forall k :: k in ValueColumns(p, t, x) <==> k in c.seriesCols
    ensures IsShareTable(p, t, x) <==> IsPie(p, t, c)
  {
    hide HoldsShares, ValueColumns, IsPie;
    if |c.seriesCols| == 1 {
      var col := c.seriesCols[0];
      assert c.seriesCols == [col];
      assert ValueColumns(p, t, x) == {col};
      SharesIff(p, t, c, col);
      forall k: nat | ValueColumns(p, t, x) == {k} ensures k == col { assert k in {k}; }
    } else {
      forall k: nat ensures ValueColumns(p, t, x) != {k} { assert |{k}| == 1; }
      NotOneColumn(p, t, c);
    }
  }

  lemma NotOneColumn(p: Patterns, t: Table, c: Choice)
    requires WellShaped(t) && c.xCol < |t.headers| && InRange(c.seriesCols, |t.headers|) && |c.seriesCols| != 1
    ensures !IsPie(p, t, c)
  {
  }

  lemma SharesIff(p: Patterns, t: Table, c: Choice, col: nat)
    requires WellShaped(t) && c.xCol < |t.headers| && InRange(c.seriesCols, |t.headers|)
    requires col < |t.headers| && c.seriesCols == [col]
    ensures HoldsShares(p, t, c.xCol, col) <==> IsPie(p, t, c)
  {
    hide CellReal, ValueOrZero, RealOf, SplitUnit, Strip, Sum, ColumnSum;
    var values := ColumnValues(p, t, col);
    SumIs(p, t.rows, col, values);
    forall i | 0 <= i < |t.rows| ensures CellReal(p, t.rows[i][col]) >= 0.0 <==> !values[i].neg {
      CellIsWorth(p, t.rows[i][col]);
      NegativeIff(values[i]);
    }
    assert forall i :: 0 <= i < |t.rows| ==> LabelAt(t, c.xCol, i) == Strip(t.rows[i][c.xCol]);
    assert UnitFor(p, t, col) == PieUnit(p, t, col);
  }

  lemma KindStage(p: Patterns, t: Table, x: nat, c: Choice)
    requires WellShaped(t) && x < |t.headers| && c.xCol == x && InRange(c.seriesCols, |t.headers|) && c.kind == "bar"
    requires |ValueColumns(p, t, x)| == |c.seriesCols|
    requires forall k :: k in ValueColumns(p, t, x) <==> k in c.seriesCols
    ensures var v := KindOf(p, t, c);
      && Stage(p, t, x, 13, 14, if v.Skip? then Some(v.reason) else None)
      && (v.Convert? ==>
            v.choice.kind == if IsShareTable(p, t, x) then "pie" else if HasTimeAxis(p, t, x) then "line" else "bar")
  {
    hide Applies, IsPie, IsShareTable, IsTimeAxis, IsNumericAxis, HasTimeAxis, ColumnLabels, ValueColumns;
    ShareIff(p, t, x, c);
    TimeIff(p, t, x);
    NumericIff(p, t, x);
  }

  lemma TimeIff(p: Patterns, t: Table, x: nat)
    requires WellShaped(t) && x < |t.headers|
    ensures HasTimeAxis(p, t, x) <==> IsTimeAxis(p, ColumnLabels(t, x))
  {
    hide Strip;
    var labels := ColumnLabels(t, x);
    assert forall i :: 0 <= i < |t.rows| ==> labels[i] == LabelAt(t, x, i);
  }

  lemma NumericIff(p: Patterns, t: Table, x: nat)
    requires WellShaped(t) && x < |t.headers|
    ensures Applies(p, t, x, NumericAxis) <==>
      !IsShareTable(p, t, x) && !HasTimeAxis(p, t, x) && IsNumericAxis(ColumnLabels(t, x))
  {
    hide Strip, IsShareTable, HasTimeAxis, SignedNumber, ValueColumns;
    var labels := ColumnLabels(t, x);
    assert forall i :: 0 <= i < |t.rows| ==> labels[i] == LabelAt(t, x, i);
  }

  // ---------- The verdict ----------

  function ProblemOf(v: Verdict): Option<Reason> {
    if v.Skip? then Some(v.reason) else None
  }

  lemma VerdictStage(p: Patterns, t: Table, x: nat)
    requires WellShaped(t) && t.headers != [] && x == XColumn(p, t)
    ensures Stage(p, t, x, 0, 14, ProblemOf(AutoChoice(p, t)))
    ensures AutoChoice(p, t).Convert? ==>
      AutoChoice(p, t).choice.kind
      == if IsShareTable(p, t, x) then "pie" else if HasTimeAxis(p, t, x) then "line" else "bar"
  {
    var c := DefaultChoice(p, t);
    TitleStage(p, t, x);
    ColumnStage(p, t, x);
    DefaultIsBar(p, t);
    LabelStage(p, t, x);
    assert c.xCol == x;
    CandidatesAreValues(p, t, x);
    hide Stage, Strip, DefaultChoice, ColumnProblem, LabelProblem, ValueProblem, KindOf, XColumn, Candidates,
      ValueColumns, IsShareTable, HasTimeAxis, ColumnLabels;
    var title: Option<Reason> := if Strip(t.caption) == "" then Some(NoTitle) else None;
    var column, labels := ColumnProblem(p, t, c), LabelProblem(p, ColumnLabels(t, x));
    var value, kind := ValueProblem(p, t, c), ProblemOf(KindOf(p, t, c));
    if column.None? {
      ValueStage(p, t, x, c);
      KindStage(p, t, x, c);
      StagesJoin(p, t, x, 11, 13, 14, value, kind);
      StagesJoin(p, t, x, 5, 11, 14, labels, if value.Some? then value else kind);
    }
    var later := if labels.Some? then labels else if value.Some? then value else kind;
    StagesJoin(p, t, x, 1, 5, 14, column, later);
    StagesJoin(p, t, x, 0, 1, 14, title, if column.Some? then column else later);
  }

  /** The verdict is the first reason that applies, and the table is converted exactly when none does. */
  lemma VerdictIsFirstReason(p: Patterns, t: Table, x: nat)
    requires WellShaped(t) && IsLabelColumn(p, t, x)
    ensures AutoChoice(p, t).Convert? <==> forall r: Reason :: !Applies(p, t, x, r)
    ensures forall r: Reason :: AutoChoice(p, t) == Skip(r) <==> IsFirstReason(p, t, x, r)
  {
    hide *;
    HasHeaders(p, t, x);
    LabelColumnIff(p, t, x);
    VerdictStage(p, t, x);
    FirstReasonIs(p, t, x, ProblemOf(AutoChoice(p, t)));
    ProblemIs(AutoChoice(p, t));
  }

  lemma HasHeaders(p: Patterns, t: Table, x: nat)
    requires WellShaped(t) && IsLabelColumn(p, t, x)
    ensures x < |t.headers| && t.headers != []
  {
  }

  lemma ProblemIs(v: Verdict)
    ensures ProblemOf(v).None? <==> v.Convert?
    ensures forall r: Reason :: ProblemOf(v) == Some(r) <==> v == Skip(r)
  {
  }

  lemma FirstReasonIs(p: Patterns, t: Table, x: nat, problem: Option<Reason>)
    requires WellShaped(t) && x < |t.headers| && Stage(p, t, x, 0, 14, problem)
    ensures problem.None? <==> forall r: Reason :: !Applies(p, t, x, r)
    ensures forall r: Reason :: problem == Some(r) <==> IsFirstReason(p, t, x, r)
  {
    hide Applies;
    forall q: Reason, r: Reason | Rank(q) == Rank(r) ensures q == r {}
    forall r: Reason ensures 0 <= Rank(r) < 14 {}
    hide Rank;
    if problem.Some? {
      forall r: Reason | IsFirstReason(p, t, x, r) ensures r == problem.value {
        assert !(Rank(r) < Rank(problem.value)) && !(Rank(problem.value) < Rank(r));
      }
    }
  }

  lemma AcceptedUnit(p: Patterns, t: Table, c: Choice)
    requires WellShaped(t) && t.headers != [] && AutoChoice(p, t) == Convert(c)
    ensures forall k :: k in c.seriesCols ==> k < |t.headers| && c.unit == UnitFor(p, t, k)
  {
    AcceptedChoice(p, t);
    AcceptedColumns(p, t);
    AcceptedShowsAllNumericColumns(p, t, c);
    hide AutoChoice, ColumnProblem, LabelProblem, UnitOf, SameUnit, Candidates, XColumn;
    forall k | k in c.seriesCols ensures k < |t.headers| && c.unit == UnitFor(p, t, k) {
      var i :| 0 <= i < |c.seriesCols| && c.seriesCols[i] == k;
      assert UnitOf(p, t, c.seriesCols[i]) == UnitOf(p, t, c.seriesCols[0]);
    }
  }

  lemma AcceptedColumnsAre(p: Patterns, t: Table, x: nat, c: Choice)
    requires WellShaped(t) && t.headers != [] && x == XColumn(p, t) && AutoChoice(p, t) == Convert(c)
    ensures c.xCol == x && c.title == t.caption
    ensures Increasing(c.seriesCols) && forall k :: k in c.seriesCols <==> k in ValueColumns(p, t, x)
  {
    AcceptedChoice(p, t);
    AcceptedColumns(p, t);
    DefaultIsBar(p, t);
    CandidatesAreValues(p, t, x);
    CandidatesArePlottable(p, t);
    hide AutoChoice, Candidates, ValueColumns, XColumn, ColumnProblem, LabelProblem, Increasing, SameUnit, UnitOf;
  }

  /** What an accepted table is drawn as: a pie exactly when it is a table of shares, a line exactly when it
      is none and all its labels are points in time, else bars; over all its value columns, in order. */
  lemma KindOfAccepted(p: Patterns, t: Table, x: nat, c: Choice)
    requires WellShaped(t) && IsLabelColumn(p, t, x) && AutoChoice(p, t) == Convert(c)
    ensures c.kind == "pie" <==> IsShareTable(p, t, x)
    ensures c.kind == "line" <==> !IsShareTable(p, t, x) && HasTimeAxis(p, t, x)
    ensures c.kind == "bar" <==> !IsShareTable(p, t, x) && !HasTimeAxis(p, t, x)
    ensures c.xCol == x && c.title == t.caption
    ensures Increasing(c.seriesCols) && forall k :: k in c.seriesCols <==> k in ValueColumns(p, t, x)
    ensures forall k :: k in c.seriesCols ==> c.unit == UnitFor(p, t, k)
  {
    hide *;
    HasHeaders(p, t, x);
    LabelColumnIff(p, t, x);
    VerdictStage(p, t, x);
    AcceptedColumnsAre(p, t, x, c);
    AcceptedUnit(p, t, c);
  }
}
