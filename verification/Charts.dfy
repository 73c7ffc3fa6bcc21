/** The chart fence of src/core/charts.py: its printer to_fence and its parser parse_chart_spec.
    A fence body is a sequence of lines. */
module Charts {
  import opened Text
  import opened Numbers

  const MAX_SERIES := 5

  datatype Series = Series(name: string, values: seq<Decimal>)

  datatype ChartSpec = ChartSpec(kind: string, title: string, x: seq<string>, series: seq<Series>,
                                 unit: string, source: seq<nat>, table: string)

  datatype SpecError =
    | UnknownKind | TooFewPoints | BadSeries | BadNumber | WrongCount | NoSeries
    | TooManySeries | PieNeedsOneSeries | TooManySlices

  datatype Result<+T> = Ok(value: T) | Err(error: SpecError)

  predicate IsKind(kind: string) {
    kind == "bar" || kind == "line" || kind == "pie"
  }

  // ---------- Fields ----------

  predicate IsKeyChar(c: char) {
    'a' <= c <= 'z' || c == '_'
  }

  predicate IsBlank(c: char) {
    c == ' ' || c == '\t'
  }

  function KeyRun(s: string): (n: nat)
    ensures n <= |s| && (n < |s| ==> !IsKeyChar(s[n])) && forall i :: 0 <= i < n ==> IsKeyChar(s[i])
  {
    if s != "" && IsKeyChar(s[0]) then
      assert forall i :: 1 <= i < |s| ==> s[i] == s[1..][i - 1];
      1 + KeyRun(s[1..])
    else 0
  }

  function SkipBlanks(s: string): string {
    if s != "" && IsBlank(s[0]) then SkipBlanks(s[1..]) else s
  }

  datatype Field = Field(key: string, value: string)

  /** "key: value", read from a line without its outer white space */
  function ParseField(line: string): Option<Field> {
    var s := Strip(line);
    var n := KeyRun(s);
    var rest := SkipBlanks(s[n..]);
    if n == 0 || rest == "" || rest[0] != ':' then None
    else Some(Field(s[..n], Strip(rest[1..])))
  }

  predicate ContinuesBlock(line: string) {
    Strip(line) == "" || IsBlank(line[0])
  }

  function BlockLength(lines: seq<string>): (n: nat)
    ensures n <= |lines| && (n < |lines| ==> !ContinuesBlock(lines[n]))
    ensures forall i :: 0 <= i < n ==> ContinuesBlock(lines[i])
  {
    Run(lines, ContinuesBlock)
  }

  function StripAll(lines: seq<string>): (r: seq<string>)
    ensures |r| == |lines| && forall i :: 0 <= i < |r| ==> r[i] == Strip(lines[i])
  {
    seq(|lines|, i requires 0 <= i < |lines| => Strip(lines[i]))
  }

  datatype Fields = Fields(single: map<string, string>, series: seq<string>)

  /** _parse_fields, from the fields collected and the lines still to come */
  function FieldsFrom(lines: seq<string>, f: Fields): Fields
    decreases |lines|
  {
    if lines == [] then f
    else
      var field := ParseField(lines[0]);
      if field.None? then FieldsFrom(lines[1..], f)
      else if field.value.value == "|" then
        var n := BlockLength(lines[1..]);
        FieldsFrom(lines[1 + n..],
            f.(single := f.single[field.value.key := Strip(Join(StripAll(lines[1..1 + n]), "\n"))]))
      else if field.value.key == "series" then FieldsFrom(lines[1..], f.(series := f.series + [field.value.value]))
      else FieldsFrom(lines[1..], f.(single := f.single[field.value.key := field.value.value]))
  }

  /** The indented lines after "key: |". */
  method CollectBlock(lines: seq<string>, start: nat) returns (block: seq<string>, end: nat)
    requires start <= |lines|
    ensures end == start + BlockLength(lines[start..]) && block == StripAll(lines[start..end])
  {
    hide ContinuesBlock, Strip, BlockLength;
    block, end := [], start;
    while end < |lines| && ContinuesBlock(lines[end])
      invariant start <= end <= |lines| && block == StripAll(lines[start..end])
      invariant forall k :: start <= k < end ==> ContinuesBlock(lines[k])
    {
      block := block + [Strip(lines[end])];
      end := end + 1;
    }
    BlockLengthIs(lines[start..], end - start);
  }

  /** _parse_fields */
  method ParseFields(lines: seq<string>) returns (f: Fields)
    ensures f == FieldsFrom(lines, Fields(map[], []))
  {
    hide FieldsFrom, ParseField, BlockLength, Strip, Join;
    f := Fields(map[], []);
    var i := 0;
    while i < |lines|
      invariant 0 <= i <= |lines|
      invariant FieldsFrom(lines[i..], f) == FieldsFrom(lines, Fields(map[], []))
    {
      FieldsStep(lines, i, f);
      var field := ParseField(lines[i]);
      if field.None? {
        i := i + 1;
      } else if field.value.value == "|" {
        var block, end := CollectBlock(lines, i + 1);
        f := f.(single := f.single[field.value.key := Strip(Join(block, "\n"))]);
        i := end;
      } else {
        if field.value.key == "series" {
          f := f.(series := f.series + [field.value.value]);
        } else {
          f := f.(single := f.single[field.value.key := field.value.value]);
        }
        i := i + 1;
      }
    }
    NoMoreFields(lines[i..], f);
  }

  lemma NoMoreFields(lines: seq<string>, f: Fields)
    requires lines == []
    ensures FieldsFrom(lines, f) == f
  {
  }

  lemma FieldsStep(lines: seq<string>, i: nat, f: Fields)
    requires i < |lines|
    ensures FieldsFrom(lines[i..], f) ==
      var field := ParseField(lines[i]);
      if field.None? then FieldsFrom(lines[i + 1..], f)
      else if field.value.value == "|" then
        var end := i + 1 + BlockLength(lines[i + 1..]);
        FieldsFrom(lines[end..],
            f.(single := f.single[field.value.key := Strip(Join(StripAll(lines[i + 1..end]), "\n"))]))
      else if field.value.key == "series" then FieldsFrom(lines[i + 1..], f.(series := f.series + [field.value.value]))
      else FieldsFrom(lines[i + 1..], f.(single := f.single[field.value.key := field.value.value]))
  {
    hide ParseField, BlockLength, Strip, Join;
    var rest := lines[i..];
    assert rest[0] == lines[i] && rest[1..] == lines[i + 1..];
    var n := BlockLength(lines[i + 1..]);
    assert rest[1 + n..] == lines[i + 1 + n..] && rest[1..1 + n] == lines[i + 1..i + 1 + n];
  }

  lemma BlockLengthIs(lines: seq<string>, n: nat)
    requires n <= |lines| && (forall i :: 0 <= i < n ==> ContinuesBlock(lines[i]))
        && (n < |lines| ==> !ContinuesBlock(lines[n]))
    ensures BlockLength(lines) == n
  {
    hide ContinuesBlock;
  }

  // ---------- parse_chart_spec ----------

  function NonEmptyParts(parts: seq<string>): seq<string> {
    if parts == [] then []
    else if Strip(parts[0]) == "" then NonEmptyParts(parts[1..])
    else [Strip(parts[0])] + NonEmptyParts(parts[1..])
  }

  /** _split_list for '|', _split_numbers for ',' */
  function SplitList(value: string, sep: char): seq<string> {
    NonEmptyParts(Split(value, sep))
  }

  function FirstIndex(s: string, c: char, i: nat): (k: nat)
    requires i <= |s|
    ensures i <= k <= |s| && (k < |s| ==> s[k] == c) && forall j :: i <= j < k ==> s[j] != c
    decreases |s| - i
  {
    if i == |s| || s[i] == c then i else FirstIndex(s, c, i + 1)
  }

  /** "name = values": the name is at least one character and ends before the first '=' after it. */
  function SplitSeries(raw: string): Option<(string, string)> {
    if raw == "" then None
    else
      var e := FirstIndex(raw, '=', 1);
      if e + 1 >= |raw| then None else Some((Strip(raw[..e]), raw[e + 1..]))
  }

  function ReadNumbers(parts: seq<string>): Option<seq<Decimal>> {
    if parts == [] then Some([])
    else
      var head, tail := SignedNumber(parts[0]), ReadNumbers(parts[1..]);
      if head.None? || tail.None? then None else Some([head.value] + tail.value)
  }

  function ParseSeries(raw: string, points: nat): Result<Series> {
    var split := SplitSeries(raw);
    if split.None? then Err(BadSeries)
    else
      var values := ReadNumbers(SplitList(split.value.1, '|'));
      if values.None? then Err(BadNumber)
      else if |values.value| != points then Err(WrongCount)
      else Ok(Series(split.value.0, values.value))
  }

  function ParseAllSeries(raws: seq<string>, points: nat): Result<seq<Series>> {
    if raws == [] then Ok([])
    else
      var head := ParseSeries(raws[0], points);
      if head.Err? then Err(head.error)
      else
        var tail := ParseAllSeries(raws[1..], points);
        if tail.Err? then tail else Ok([head.value] + tail.value)
  }

  function ReadSources(parts: seq<string>): seq<nat> {
    if parts == [] then []
    else if parts[0] != "" && AllDigits(parts[0]) then [StringToNat(parts[0])] + ReadSources(parts[1..])
    else ReadSources(parts[1..])
  }

  function Lookup(m: map<string, string>, key: string): string {
    if key in m then m[key] else ""
  }

  function Lower(s: string): string {
    if s == "" then "" else [LowerChar(s[0])] + Lower(s[1..])
  }

  function SpecOf(f: Fields): Result<ChartSpec> {
    var kind := Lower(Strip(Lookup(f.single, "type")));
    var x := SplitList(Lookup(f.single, "x"), '|');
    if !IsKind(kind) then Err(UnknownKind)
    else if |x| < 2 then Err(TooFewPoints)
    else
      var series := ParseAllSeries(f.series, |x|);
      if series.Err? then Err(series.error)
      else if series.value == [] then Err(NoSeries)
      else if |series.value| > MAX_SERIES then Err(TooManySeries)
      else if kind == "pie" && |series.value| != 1 then Err(PieNeedsOneSeries)
      else if kind == "pie" && |x| > MAX_SERIES then Err(TooManySlices)
      else Ok(ChartSpec(kind, Strip(Lookup(f.single, "title")), x, series.value, Strip(Lookup(f.single, "unit")),
                        ReadSources(SplitList(Lookup(f.single, "source"), ',')), Lookup(f.single, "table")))
  }

  /** parse_chart_spec, on the lines of the body */
  function ParseSpec(body: seq<string>): Result<ChartSpec> {
    SpecOf(FieldsFrom(body, Fields(map[], [])))
  }

  /** parse_chart_spec */
  function ParseText(body: string): Result<ChartSpec> {
    ParseSpec(SplitLines(body))
  }

  // ---------- to_fence ----------

  function PrintValues(values: seq<Decimal>): (r: seq<string>)
    requires forall i :: 0 <= i < |values| ==> IsNormal(values[i])
    ensures |r| == |values| && forall i :: 0 <= i < |r| ==> r[i] == FormatG(values[i])
  {
    seq(|values|, i requires 0 <= i < |values| => FormatG(values[i]))
  }

  predicate NormalSeries(s: Series) {
    forall i :: 0 <= i < |s.values| ==> IsNormal(s.values[i])
  }

  function SeriesValue(s: Series): string
    requires NormalSeries(s)
  {
    s.name + " = " + Join(PrintValues(s.values), " | ")
  }

  function SeriesLines(series: seq<Series>): (r: seq<string>)
    requires forall i :: 0 <= i < |series| ==> NormalSeries(series[i])
    ensures |r| == |series| && forall i :: 0 <= i < |r| ==> r[i] == "series: " + SeriesValue(series[i])
  {
    seq(|series|, i requires 0 <= i < |series| => "series: " + SeriesValue(series[i]))
  }

  function Numerals(ns: seq<nat>): (r: seq<string>)
    ensures |r| == |ns| && forall i :: 0 <= i < |r| ==> r[i] == NatToString(ns[i])
  {
    seq(|ns|, i requires 0 <= i < |ns| => NatToString(ns[i]))
  }

  function Indented(lines: seq<string>): (r: seq<string>)
    ensures |r| == |lines| && forall i :: 0 <= i < |r| ==> r[i] == "  " + lines[i]
  {
    seq(|lines|, i requires 0 <= i < |lines| => "  " + lines[i])
  }

  function SourceLines(source: seq<nat>): seq<string> {
    if source == [] then [] else ["source: " + Join(Numerals(source), ", ")]
  }

  function TableLines(table: string): seq<string> {
    if table == "" then [] else ["table: |"] + Indented(SplitLines(table))
  }

  /** The lines of the fence between its two fence lines. */
  function Body(spec: ChartSpec): seq<string>
    requires forall i :: 0 <= i < |spec.series| ==> NormalSeries(spec.series[i])
  {
    ["type: " + spec.kind, "title: " + spec.title]
    + (if spec.unit == "" then [] else ["unit: " + spec.unit])
    + ["x: " + Join(spec.x, " | ")]
    + SeriesLines(spec.series)
    + SourceLines(spec.source)
    + TableLines(spec.table)
  }

  const OPEN_FENCE := "```chart"
  const CLOSE_FENCE := "```"

  /** to_fence, as lines */
  function ToFence(spec: ChartSpec): seq<string>
    requires forall i :: 0 <= i < |spec.series| ==> NormalSeries(spec.series[i])
  {
    [OPEN_FENCE] + Body(spec) + [CLOSE_FENCE]
  }

  /** What stands between the fence lines of the printed text. */
  function BodyText(spec: ChartSpec): string
    requires forall i :: 0 <= i < |spec.series| ==> NormalSeries(spec.series[i])
  {
    Join(Body(spec), "\n") + "\n"
  }
}
