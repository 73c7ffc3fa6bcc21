/** Turning charts back into tables undoes the conversion, and exactly when. */
module Undo {
  import opened Text
  import opened Charts
  import opened ChartRoundTrip
  import opened Tables
  import opened TableDrawing
  import opened Blocks
  import opened BlockRanges
  import opened Conversion
  import opened Idempotence
  import opened Restoring

  // ---------- The table of a printed fence ----------

  ghost predicate NoTableKeys(lines: seq<string>) {
    forall i :: 0 <= i < |lines| ==> !IsTableKey(lines[i])
  }

  lemma {:induction false} SkipNoKeys(u: seq<string>, w: seq<string>)
    requires NoTableKeys(u)
    ensures CapturedTable(u + w) == CapturedTable(w)
  {
    hide IsTableKey, StartsBlank;
    if u == [] {
      assert u + w == w;
    } else {
      assert (u + w)[1..] == u[1..] + w;
      SkipNoKeys(u[1..], w);
    }
  }

  /** Lines that are printed before the table. */
  lemma OtherKeys(value: string)
    ensures !IsTableKey("type: " + value) && !IsTableKey("title: " + value) && !IsTableKey("unit: " + value)
    ensures !IsTableKey("x: " + value) && !IsTableKey("series: " + value) && !IsTableKey("source: " + value)
  {
    hide SkipBlanks;
    var a, b, c := "type: " + value, "title: " + value, "unit: " + value;
    var d, e, f := "x: " + value, "series: " + value, "source: " + value;
    assert a[1] == 'y' && b[1] == 'i' && c[0] == 'u' && d[0] == 'x' && e[0] == 's' && f[0] == 's';
    assert TABLE_KEY[0] == 't' && TABLE_KEY[1] == 'a';
  }

  function BeforeTable(spec: ChartSpec): seq<string>
    requires forall i :: 0 <= i < |spec.series| ==> NormalSeries(spec.series[i])
  {
    ["type: " + spec.kind, "title: " + spec.title]
    + (if spec.unit == "" then [] else ["unit: " + spec.unit])
    + ["x: " + Join(spec.x, " | ")]
    + SeriesLines(spec.series)
    + SourceLines(spec.source)
  }

  lemma BeforeTableHasNoKeys(spec: ChartSpec)
    requires forall i :: 0 <= i < |spec.series| ==> NormalSeries(spec.series[i])
    ensures NoTableKeys(BeforeTable(spec)) && Body(spec) == BeforeTable(spec) + TableLines(spec.table)
  {
    hide IsTableKey, Join, SeriesValue, TableLines;
    OtherKeys(spec.kind);
    OtherKeys(spec.title);
    OtherKeys(spec.unit);
    OtherKeys(Join(spec.x, " | "));
    forall i | 0 <= i < |spec.series|
        ensures !IsTableKey(SeriesLines(spec.series)[i]) { OtherKeys(SeriesValue(spec.series[i])); }
    OtherKeys(Join(Numerals(spec.source), ", "));
  }

  lemma TableKeyIsKey()
    ensures IsTableKey("table: |")
  {
    var line := "table: |";
    assert line[|TABLE_KEY|..] == " |" && " |"[1..] == "|" && "|"[1..] == "";
  }

  lemma CapturedIndented(lines: seq<string>)
    requires lines != []
    ensures CapturedTable(["table: |"] + Indented(lines)) == Some(Indented(lines))
  {
    hide IsTableKey;
    TableKeyIsKey();
    var body := ["table: |"] + Indented(lines);
    assert body[1..] == Indented(lines);
    assert forall i :: 0 <= i < |lines| ==> StartsBlank(Indented(lines)[i]);
    assert Run(body[1..], StartsBlank) == |lines|;
    assert Indented(lines)[..|lines|] == Indented(lines);
  }

  /** Empty lines for those of spaces and tabs only. */
  function Blanked(lines: seq<string>): (r: seq<string>)
    ensures |r| == |lines| && forall i :: 0 <= i < |r| ==> r[i] == if Blanks(lines[i]) then "" else lines[i]
  {
    seq(|lines|, i requires 0 <= i < |lines| => if Blanks(lines[i]) then "" else lines[i])
  }

  lemma IndentOf(line: string)
    ensures "  " <= Indent("  " + line)
    ensures line != "" && !IsBlank(line[0]) ==> Indent("  " + line) == "  "
    ensures Blanks("  " + line) == Blanks(line)
  {
    var s := "  " + line;
    assert forall i :: 0 <= i < |line| ==> line[i] == s[i + 2];
    var n := BlankEnd(s, 0);
    assert s[0] == ' ' && s[1] == ' ' && (line != "" ==> s[2] == line[0]);
    assert n >= 2;
    assert s[..n][..2] == "  ";
  }

  lemma PrefixOfBoth(p: string, a: string, b: string)
    requires p <= a && p <= b
    ensures p <= CommonPrefix(a, b)
    decreases |p|
  {
    if p != "" { PrefixOfBoth(p[1..], a[1..], b[1..]); }
  }

  lemma {:induction false} MarginIsDeep(lines: seq<string>)
    ensures var m := Margin(Indented(lines)); m.Some? ==> "  " <= m.value
  {
    hide Indent, Blanks;
    if lines != [] {
      assert Indented(lines)[1..] == Indented(lines[1..]);
      MarginIsDeep(lines[1..]);
      IndentOf(lines[0]);
      var rest := Margin(Indented(lines[1..]));
      if rest.Some? { PrefixOfBoth("  ", Indent("  " + lines[0]), rest.value); }
    }
  }

  /** Only the two spaces of the printer are taken off when the first line begins at the margin. */
  lemma MarginIsTwo(lines: seq<string>)
    requires lines != [] && lines[0] != "" && !IsBlank(lines[0][0])
    ensures Margin(Indented(lines)) == Some("  ")
  {
    hide Indent, Blanks;
    MarginIsDeep(lines[1..]);
    IndentOf(lines[0]);
    NotBlanks(lines[0]);
    assert Indented(lines)[0] == "  " + lines[0] && Indented(lines)[1..] == Indented(lines[1..]);
    var rest := Margin(Indented(lines[1..]));
    if rest.Some? {
      PrefixOfBoth("  ", "  ", rest.value);
      var r := CommonPrefix("  ", rest.value);
      assert r == "  ";
    }
  }

  lemma NotBlanks(line: string)
    requires line != "" && !IsBlank(line[0])
    ensures !Blanks(line) && !Blanks("  " + line)
  {
    assert ("  " + line)[2] == line[0];
  }

  lemma DedentIndented(lines: seq<string>)
    requires lines != [] && lines[0] != "" && !IsBlank(lines[0][0])
    ensures Dedent(Indented(lines)) == Blanked(lines)
  {
    hide Margin, Indent, Blanks;
    MarginIsTwo(lines);
    forall i | 0 <= i < |lines| ensures Outdented("  " + lines[i], "  ") == if Blanks(lines[i]) then "" else lines[i] {
      IndentOf(lines[i]);
      assert ("  " + lines[i])[2..] == lines[i];
    }
  }

  // ---------- The stored table ----------

  /** The lines of trimmed text begin and end visibly. */
  lemma EndsOfLines(t: string)
    requires t != "" && Trimmed(t)
    ensures var lines := Split(t, '\n'); var last := lines[|lines| - 1];
      && SplitLines(t) == lines
      && lines[0] != "" && lines[0][0] == t[0] && last != "" && last[|last| - 1] == t[|t| - 1]
  {
    hide Split, Join;
    var lines := Split(t, '\n');
    NewlineIsSpace();
    LastPart(t, '\n');
    JoinSplit(t, '\n');
    assert ['\n'] == "\n";
    FirstPart(t, '\n');
    JoinLastChar(lines, "\n");
  }

  lemma NewlineIsSpace()
    ensures IsSpace('\n') && forall c :: IsBlank(c) ==> IsSpace(c)
  {
  }

  lemma FirstPart(s: string, c: char)
    requires s != "" && s[0] != c
    ensures Split(s, c)[0] != "" && Split(s, c)[0][0] == s[0]
  {
    hide Split;
    SplitCons(s, c);
  }

  lemma {:induction false} JoinLastChar(parts: seq<string>, sep: string)
    requires parts != [] && parts[|parts| - 1] != ""
    ensures var j, last := Join(parts, sep), parts[|parts| - 1]; j != "" && j[|j| - 1] == last[|last| - 1]
    decreases |parts|
  {
    hide Join;
    var p, tail := parts[0], parts[1..];
    assert parts == [p] + tail;
    JoinCons(p, tail, sep);
    if tail != [] { JoinLastChar(tail, sep); }
  }

  lemma JoinFirstChar(parts: seq<string>, sep: string)
    requires parts != [] && parts[0] != ""
    ensures var j := Join(parts, sep); j != "" && j[0] == parts[0][0]
  {
    hide Join;
    assert parts == [parts[0]] + parts[1..];
    JoinCons(parts[0], parts[1..], sep);
  }

  lemma BlankedEnds(t: string)
    requires t != "" && Trimmed(t)
    ensures var d := Blanked(SplitLines(t)); d != [] && OneLineEach(d) && Trimmed(Join(d, "\n"))
    ensures SplitLines(t)[0] != "" && !IsBlank(SplitLines(t)[0][0]) && SplitLines(t) != []
  {
    hide Split, Join, IsSpace, IsBlank;
    var lines := SplitLines(t);
    var d := Blanked(lines);
    EndsOfLines(t);
    NewlineIsSpace();
    var last := lines[|lines| - 1];
    assert !IsBlank(lines[0][0]) && !IsBlank(last[|last| - 1]);
    assert d[0] == lines[0] && d[|d| - 1] == last;
    assert forall i :: 0 <= i < |lines| ==> lines[i] in lines;
    JoinFirstChar(d, "\n");
    JoinLastChar(d, "\n");
  }

  /** A printed table is restored line by line, except that lines of spaces and tabs come back empty. */
  lemma PrintedTableIsRestored(spec: ChartSpec)
    requires forall i :: 0 <= i < |spec.series| ==> NormalSeries(spec.series[i])
    requires spec.table != "" && Trimmed(spec.table)
    ensures TableText(Body(spec)) == Blanked(SplitLines(spec.table))
    ensures CapturedTable(Body(spec)) == Some(Indented(SplitLines(spec.table)))
  {
    hide Body, Join, SplitLines, Dedent, CapturedTable, Strip, Split, BeforeTable, Trimmed;
    var lines := SplitLines(spec.table);
    BeforeTableHasNoKeys(spec);
    SkipNoKeys(BeforeTable(spec), TableLines(spec.table));
    BlankedEnds(spec.table);
    CapturedIndented(lines);
    DedentIndented(lines);
    var d := Blanked(lines);
    StripTrimmed(Join(d, "\n"));
    SplitJoin(d, '\n');
    assert ['\n'] == "\n";
  }

  // ---------- Texts in pieces ----------

  /** A line that stays, or a block that became a chart. */
  datatype Piece = Plain(line: string) | Drawn(block: seq<string>, spec: ChartSpec)

  ghost predicate PieceOk(pc: Piece) {
    match pc
    case Plain(line) => '\n' !in line
    case Drawn(block, spec) =>
      && block != [] && OneLineEach(block) && Strip(Join(block, "\n")) != "" && spec.table == Strip(Join(block, "\n"))
      && (forall i :: 0 <= i < |spec.series| ==> NormalSeries(spec.series[i]))
      && NoFenceLines(Body(spec)) && OneLineEach(Body(spec))
  }

  ghost predicate PiecesOk(ps: seq<Piece>) {
    forall i :: 0 <= i < |ps| ==> PieceOk(ps[i])
  }

  function Before(ps: seq<Piece>): seq<string> {
    if ps == [] then []
    else (match ps[0] case Plain(line) => [line] case Drawn(block, _) => block) + Before(ps[1..])
  }

  ghost function After(ps: seq<Piece>): seq<string>
    requires PiecesOk(ps)
  {
    if ps == [] then []
    else
      assert PieceOk(ps[0]);
      (match ps[0] case Plain(line) => [line] case Drawn(_, spec) => ToFence(spec)) + After(ps[1..])
  }

  /** A line that ends a fence opened before it: a closing line, or the end of a chart. */
  predicate Stops(pc: Piece) {
    match pc
    case Plain(line) => IsCloser(line)
    case Drawn(_, _) => true
  }

  predicate Goes(pc: Piece) {
    !Stops(pc)
  }

  predicate Opens(pc: Piece) {
    pc.Plain? && IsOpener(pc.line)
  }

  /** An opening line of the original text with a closing line or a chart after it. */
  ghost predicate Stray(ps: seq<Piece>) {
    exists i, j :: 0 <= i < j < |ps| && Opens(ps[i]) && Stops(ps[j])
  }

  /** What the block's text is after trimming it and emptying its blank lines. */
  function Stored(block: seq<string>): seq<string> {
    Blanked(SplitLines(Strip(Join(block, "\n"))))
  }

  ghost predicate AllKept(ps: seq<Piece>) {
    forall i :: 0 <= i < |ps| && ps[i].Drawn? ==> Stored(ps[i].block) == ps[i].block
  }

  lemma StrayCons(ps: seq<Piece>)
    requires ps != []
    ensures Stray(ps) <==> (Opens(ps[0]) && Run(ps[1..], Goes) < |ps| - 1) || Stray(ps[1..])
  {
    hide Opens, Stops;
    var rest := ps[1..];
    var m := Run(rest, Goes);
    if m < |rest| { assert Stops(ps[m + 1]); }
    if Stray(rest) {
      var i, j :| 0 <= i < j < |rest| && Opens(rest[i]) && Stops(rest[j]);
      assert Opens(ps[i + 1]) && Stops(ps[j + 1]);
    }
    if Stray(ps) {
      var i, j :| 0 <= i < j < |ps| && Opens(ps[i]) && Stops(ps[j]);
      assert Stops(rest[j - 1]);
      if i > 0 { assert Opens(rest[i - 1]); }
    }
  }

  lemma StoredCount(block: seq<string>)
    requires block != [] && OneLineEach(block) && Strip(Join(block, "\n")) != ""
    ensures |Stored(block)| <= |block|
  {
    hide Split, Strip, Join, Blanked;
    var text := Join(block, "\n");
    SplitJoin(block, '\n');
    assert ['\n'] == "\n";
    StripCount(text);
  }

  // ---------- Restoring a converted text ----------

  lemma CloserIsFence(line: string)
    requires IsCloser(line)
    ensures IsFenceLine(line)
  {
    hide Blanks, LStrip, IsSpace;
    assert CLOSE_FENCE[0] == '`' && CLOSE_FENCE[1] == '`' && CLOSE_FENCE[2] == '`';
    assert line[0] == '`' && line[1] == '`' && line[2] == '`';
    BackQuoteIsVisible();
    VisibleFirst(line);
  }

  lemma OpenIsOpen()
    ensures IsOpener(OPEN_FENCE) && !IsCloser(OPEN_FENCE) && !StartsBlank(OPEN_FENCE) && IsCloser(CLOSE_FENCE)
  {
    assert OPEN_FENCE[|OPEN_FENCE|..] == "" && CLOSE_FENCE[|CLOSE_FENCE|..] == "";
    assert OPEN_FENCE[|CLOSE_FENCE|..] == "chart" && "chart"[0] == 'c';
  }

  lemma RunIs<T>(s: seq<T>, keep: T -> bool, n: nat)
    requires n <= |s| && (forall i :: 0 <= i < n ==> keep(s[i])) && (n < |s| ==> !keep(s[n]))
    ensures Run(s, keep) == n
  {
  }

  /** A chart is restored by itself. */
  lemma RestoreChart(pc: Piece, rest: seq<string>)
    requires PieceOk(pc) && pc.Drawn?
    ensures Restore(ToFence(pc.spec) + rest) == Stored(pc.block) + Restore(rest)
  {
    hide *;
    DrawnIs(pc);
    FenceIs(pc.spec);
    OpenIsOpen();
    var body := Body(pc.spec);
    BodyHasNoCloser([], body);
    assert [] + body == body;
    RestoreRegion(OPEN_FENCE, body, CLOSE_FENCE, rest);
    assert ToFence(pc.spec) + rest == [OPEN_FENCE] + (body + [CLOSE_FENCE] + rest);
    DrawnTable(pc);
  }

  lemma DrawnTable(pc: Piece)
    requires PieceOk(pc) && pc.Drawn?
    ensures TableText(Body(pc.spec)) == Stored(pc.block)
  {
    hide Body, Join, Strip, Blanked, SplitLines, TableText, NoFenceLines, OneLineEach, Trimmed;
    StripIsTrimmed(Join(pc.block, "\n"));
    PrintedTableIsRestored(pc.spec);
  }

  lemma BeforeCons(pc: Piece, rest: seq<Piece>)
    ensures Before([pc] + rest) == (match pc case Plain(line) => [line] case Drawn(block, _) => block) + Before(rest)
  {
    assert ([pc] + rest)[1..] == rest;
  }

  lemma AfterCons(pc: Piece, rest: seq<Piece>)
    requires PieceOk(pc) && PiecesOk(rest)
    ensures PiecesOk([pc] + rest)
    ensures After([pc] + rest)
        == (match pc case Plain(line) => [line] case Drawn(_, spec) => ToFence(spec)) + After(rest)
  {
    hide PieceOk, ToFence;
    assert ([pc] + rest)[1..] == rest;
  }

  /** Up to the first piece that stops a fence, both texts are the same lines. */
  lemma {:induction false} GoingPieces(ps: seq<Piece>, m: nat) returns (u: seq<string>)
    requires PiecesOk(ps) && m <= |ps| && forall i :: 0 <= i < m ==> Goes(ps[i])
    ensures |u| == m && (forall i :: 0 <= i < m ==> !IsCloser(u[i])) && OneLineEach(u)
    ensures Before(ps) == u + Before(ps[m..]) && PiecesOk(ps[m..]) && After(ps) == u + After(ps[m..])
    decreases m
  {
    hide Before, After, IsCloser, ToFence;
    if m == 0 {
      u := [];
      assert ps[0..] == ps;
    } else {
      var pc, rest := ps[0], ps[1..];
      assert ps == [pc] + rest && PieceOk(pc) && Goes(pc);
      assert forall i :: 0 <= i < m - 1 ==> rest[i] == ps[i + 1];
      var v := GoingPieces(rest, m - 1);
      u := [pc.line] + v;
      BeforeCons(pc, rest);
      AfterCons(pc, rest);
      assert rest[m - 1..] == ps[m..];
    }
  }

  /** One fence is restored by itself. */
  lemma RestoreRegion(line: string, body: seq<string>, closer: string, tail: seq<string>)
    requires IsOpener(line) && IsCloser(closer) && forall i :: 0 <= i < |body| ==> !IsCloser(body[i])
    ensures Restore([line] + (body + [closer] + tail)) == TableText(body) + Restore(tail)
  {
    hide IsOpener, IsCloser, TableText;
    var rest := body + [closer] + tail;
    assert ([line] + rest)[1..] == rest;
    assert forall i :: 0 <= i < |body| ==> rest[i] == body[i];
    assert rest[|body|] == closer;
    RunIs(rest, NotCloser, |body|);
    assert rest[..|body|] == body && rest[|body| + 1..] == tail;
  }

  lemma BodyHasNoCloser(u: seq<string>, body: seq<string>)
    requires (forall i :: 0 <= i < |u| ==> !IsCloser(u[i])) && NoFenceLines(body)
    ensures forall i :: 0 <= i < |u + body| ==> !IsCloser((u + body)[i])
  {
    hide IsCloser, IsFenceLine;
    forall i | 0 <= i < |body| ensures !IsCloser(body[i]) { if IsCloser(body[i]) { CloserIsFence(body[i]); } }
  }

  /** What a stray opening line swallows up to a closing line. */
  lemma StrayPlain(line: string, u: seq<string>, closer: string, rest: seq<Piece>)
    requires IsOpener(line) && IsCloser(closer) && OneLineEach(u) && (forall i :: 0 <= i < |u| ==> !IsCloser(u[i]))
        && PiecesOk(rest)
    ensures Restore([line] + (u + [closer] + After(rest))) == TableText(u) + Restore(After(rest))
    ensures |TableText(u)| < 2 + |u|
  {
    hide *;
    RestoreRegion(line, u, closer, After(rest));
    TableTextCount(u);
  }

  /** What it swallows up to the end of a chart. */
  lemma StrayDrawn(line: string, u: seq<string>, pc: Piece, rest: seq<Piece>)
    requires IsOpener(line) && OneLineEach(u) && (forall i :: 0 <= i < |u| ==> !IsCloser(u[i])) && PiecesOk(rest)
    requires PieceOk(pc) && pc.Drawn?
    ensures var text := TableText(u + ([OPEN_FENCE] + Body(pc.spec)));
      Restore([line] + (u + ToFence(pc.spec) + After(rest))) == text + Restore(After(rest))
          && |text| < 1 + |u| + |pc.block|
  {
    hide *;
    DrawnIs(pc);
    FenceIs(pc.spec);
    OpenIsOpen();
    var body := Body(pc.spec);
    var open := u + [OPEN_FENCE];
    BodyHasNoCloser(open, body);
    RestoreRegion(line, open + body, CLOSE_FENCE, After(rest));
    assert u + ([OPEN_FENCE] + body) == open + body;
    assert u + ToFence(pc.spec) + After(rest) == (open + body) + [CLOSE_FENCE] + After(rest);
    StrayChart(u, pc);
  }

  /** What a stray opening line swallows: its own line, lines up to the next closing line or chart,
      and that. */
  lemma StrayRegion(line: string, ps: seq<Piece>, m: nat) returns (text: seq<string>)
    requires IsOpener(line) && PiecesOk(ps) && m < |ps| && (forall i :: 0 <= i < m ==> Goes(ps[i])) && Stops(ps[m])
    ensures PiecesOk(ps[m + 1..]) && Restore([line] + After(ps)) == text + Restore(After(ps[m + 1..]))
    ensures |text| + |Before(ps[m + 1..])| < 1 + |Before(ps)|
  {
    hide Before, After, IsCloser, IsOpener, ToFence, TableText, PieceOk, OneLineEach, NoFenceLines, Restore, Body;
    var u := GoingPieces(ps, m);
    var pc, rest := ps[m], ps[m + 1..];
    assert ps[m..] == [pc] + rest && PieceOk(pc);
    BeforeCons(pc, rest);
    AfterCons(pc, rest);
    if pc.Plain? {
      assert u + ([pc.line] + After(rest)) == u + [pc.line] + After(rest);
      StrayPlain(line, u, pc.line, rest);
      text := TableText(u);
    } else {
      DrawnIs(pc);
      assert u + (ToFence(pc.spec) + After(rest)) == u + ToFence(pc.spec) + After(rest);
      StrayDrawn(line, u, pc, rest);
      text := TableText(u + ([OPEN_FENCE] + Body(pc.spec)));
    }
  }

  lemma DrawnIs(pc: Piece)
    requires PieceOk(pc) && pc.Drawn?
    ensures forall i :: 0 <= i < |pc.spec.series| ==> NormalSeries(pc.spec.series[i])
    ensures pc.block != [] && NoFenceLines(Body(pc.spec)) && OneLineEach(Body(pc.spec))
  {
    hide Body, NoFenceLines, OneLineEach, Join, Strip, NormalSeries;
  }

  lemma FenceIs(spec: ChartSpec)
    requires forall i :: 0 <= i < |spec.series| ==> NormalSeries(spec.series[i])
    ensures ToFence(spec) == [OPEN_FENCE] + Body(spec) + [CLOSE_FENCE]
  {
  }

  /** A region that swallows a chart restores no more lines than the longer of its two parts. */
  lemma StrayChart(u: seq<string>, pc: Piece)
    requires PieceOk(pc) && pc.Drawn? && OneLineEach(u)
    ensures |TableText(u + ([OPEN_FENCE] + Body(pc.spec)))| <= |u| + |pc.block|
  {
    hide Body, TableText, CapturedTable, Join, Strip, Blanked, SplitLines, IsOpener, IsCloser, NoFenceLines,
      StartsBlank, IsTableKey;
    var body := [OPEN_FENCE] + Body(pc.spec);
    OpenIsOpen();
    OpenIsOneLine();
    assert OneLineEach(u + body);
    CapturedBefore(u, body);
    SkipOpen(Body(pc.spec));
    TableTextCount(u + body);
    StripIsTrimmed(Join(pc.block, "\n"));
    PrintedTableIsRestored(pc.spec);
    StoredCount(pc.block);
  }

  lemma OpenIsOneLine()
    ensures '\n' !in OPEN_FENCE && !IsTableKey(OPEN_FENCE)
  {
    assert OPEN_FENCE[0] == '`' && TABLE_KEY[0] == 't';
  }

  lemma SkipOpen(body: seq<string>)
    ensures CapturedTable([OPEN_FENCE] + body) == CapturedTable(body)
  {
    hide IsTableKey;
    OpenIsOneLine();
    SkipNoKeys([OPEN_FENCE], body);
  }

  // ---------- The two directions ----------

  lemma RestoreNothing()
    ensures Restore([]) == [] && Before([]) == [] && After([]) == []
  {
  }

  lemma RestorePlain(line: string, rest: seq<string>)
    requires !IsOpener(line) || Run(rest, NotCloser) == |rest|
    ensures Restore([line] + rest) == [line] + Restore(rest)
  {
    hide IsOpener, IsCloser;
    assert ([line] + rest)[1..] == rest;
  }

  /** Nothing stops a fence in pieces that all go on. */
  lemma NothingStops(ps: seq<Piece>)
    requires PiecesOk(ps) && Run(ps, Goes) == |ps|
    ensures Run(After(ps), NotCloser) == |After(ps)|
  {
    hide After, IsCloser;
    var u := GoingPieces(ps, |ps|);
    assert ps[|ps|..] == [];
    RestoreNothing();
    RunIs(After(ps), NotCloser, |After(ps)|);
  }

  lemma PiecesTail(ps: seq<Piece>)
    requires PiecesOk(ps) && ps != []
    ensures PieceOk(ps[0]) && PiecesOk(ps[1..]) && ps == [ps[0]] + ps[1..]
  {
  }

  /** Restoring never gives more lines than there were, and fewer as soon as one opening line is
      stray. */
  lemma {:induction false} RestoreShortens(ps: seq<Piece>)
    requires PiecesOk(ps)
    ensures |Restore(After(ps))| <= |Before(ps)| && (Stray(ps) ==> |Restore(After(ps))| < |Before(ps)|)
    decreases |ps|
  {
    hide PiecesOk, PieceOk, Before, After, Restore, Stray, Stored, Opens, Goes, ToFence, Run;
    RestoreNothing();
    if ps != [] {
      var pc, rest := ps[0], ps[1..];
      PiecesTail(ps);
      BeforeCons(pc, rest);
      AfterCons(pc, rest);
      StrayCons(ps);
      RestoreShortens(rest);
      if pc.Drawn? {
        RestoreChart(pc, After(rest));
        DrawnCount(pc);
        DrawnDoesNotOpen(pc);
      } else {
        forall k | 0 <= k <= |rest|
          ensures PiecesOk(rest[k..]) && |Restore(After(rest[k..]))| <= |Before(rest[k..])|
        {
          PiecesSuffix(rest, k);
          RestoreShortens(rest[k..]);
        }
        PlainPiece(pc.line, rest);
      }
    } else {
      NoStray();
    }
  }

  lemma PiecesSuffix(ps: seq<Piece>, k: nat)
    requires PiecesOk(ps) && k <= |ps|
    ensures PiecesOk(ps[k..])
  {
    hide PieceOk;
  }

  lemma NoStray()
    ensures !Stray([])
  {
  }

  lemma DrawnDoesNotOpen(pc: Piece)
    ensures pc.Drawn? ==> !Opens(pc)
  {
  }

  lemma DrawnCount(pc: Piece)
    requires PieceOk(pc) && pc.Drawn?
    ensures |Stored(pc.block)| <= |pc.block|
  {
    hide Join, Strip, Stored, Body, NoFenceLines;
    StoredCount(pc.block);
  }

  /** A line that stays, or swallows what follows. */
  lemma PlainPiece(line: string, rest: seq<Piece>)
    requires PiecesOk(rest)
    requires forall k :: 0 <= k <= |rest| ==> PiecesOk(rest[k..]) && |Restore(After(rest[k..]))| <= |Before(rest[k..])|
    ensures if Opens(Plain(line)) && Run(rest, Goes) < |rest| then |Restore([line] + After(rest))| < 1 + |Before(rest)|
            else Restore([line] + After(rest)) == [line] + Restore(After(rest))
  {
    hide PiecesOk, Before, After, Restore, IsOpener;
    var m := Run(rest, Goes);
    if Opens(Plain(line)) && m < |rest| {
      var text := StrayRegion(line, rest, m);
    } else {
      if m == |rest| { NothingStops(rest); }
      RestorePlain(line, After(rest));
    }
  }

  /** Without a stray opening line, the original comes back exactly when every block does. */
  lemma {:induction false} RestoreExact(ps: seq<Piece>)
    requires PiecesOk(ps) && !Stray(ps)
    ensures Restore(After(ps)) == Before(ps) <==> AllKept(ps)
    decreases |ps|
  {
    hide PiecesOk, PieceOk, Before, After, Restore, Stray, Stored, Opens, Goes, ToFence, Run, AllKept;
    RestoreNothing();
    if ps == [] {
      AllKeptNothing();
    } else {
      var pc, rest := ps[0], ps[1..];
      PiecesTail(ps);
      BeforeCons(pc, rest);
      AfterCons(pc, rest);
      StrayCons(ps);
      RestoreExact(rest);
      RestoreShortens(rest);
      AllKeptCons(pc, rest);
      if pc.Drawn? {
        RestoreChart(pc, After(rest));
        DrawnCount(pc);
        SplitEqual(Stored(pc.block), Restore(After(rest)), pc.block, Before(rest));
      } else {
        if Run(rest, Goes) == |rest| { NothingStops(rest); }
        PlainStays(pc.line);
        RestorePlain(pc.line, After(rest));
        SplitEqual([pc.line], Restore(After(rest)), [pc.line], Before(rest));
      }
    }
  }

  lemma PlainStays(line: string)
    ensures Opens(Plain(line)) == IsOpener(line)
  {
  }

  lemma AllKeptNothing()
    ensures AllKept([])
  {
  }

  lemma AllKeptCons(pc: Piece, rest: seq<Piece>)
    ensures AllKept([pc] + rest) <==> (pc.Drawn? ==> Stored(pc.block) == pc.block) && AllKept(rest)
  {
    hide Stored;
    var ps := [pc] + rest;
    assert forall i :: 0 <= i < |rest| ==> rest[i] == ps[i + 1];
    if AllKept(ps) {
      assert ps[0] == pc;
      forall i | 0 <= i < |rest| && rest[i].Drawn?
          ensures Stored(rest[i].block) == rest[i].block { assert ps[i + 1].Drawn?; }
    }
  }

  lemma SplitEqual<T>(a: seq<T>, b: seq<T>, c: seq<T>, d: seq<T>)
    requires |a| <= |c| && |b| <= |d|
    ensures a + b == c + d <==> a == c && b == d
  {
    if a + b == c + d {
      assert |a| + |b| == |c| + |d|;
      assert (a + b)[..|a|] == a && (c + d)[..|c|] == c && (a + b)[|a|..] == b && (c + d)[|c|..] == d;
    }
  }

  lemma RestoreIff(ps: seq<Piece>)
    requires PiecesOk(ps)
    ensures Restore(After(ps)) == Before(ps) <==> !Stray(ps) && AllKept(ps)
  {
    hide *;
    RestoreShortens(ps);
    if !Stray(ps) { RestoreExact(ps); }
  }

  // ---------- The pieces of a text ----------

  function Plains(lines: seq<string>): (r: seq<Piece>)
    ensures |r| == |lines| && forall i :: 0 <= i < |r| ==> r[i] == Plain(lines[i])
  {
    seq(|lines|, i requires 0 <= i < |lines| => Plain(lines[i]))
  }

  function BlockPieces(p: Patterns, block: seq<string>): seq<Piece> {
    var spec := ChartFor(p, block);
    if spec.None? then Plains(block) else [Drawn(block, spec.value)]
  }

  function GroupPieces(p: Patterns, gs: seq<seq<Chunk>>): seq<Piece>
    requires forall i :: 0 <= i < |gs| ==> gs[i] != []
  {
    if gs == [] then []
    else
      var n := |gs| - 1;
      GroupPieces(p, gs[..n]) + Plains(gs[n][0].gap) + BlockPieces(p, LinesOf(gs[n]))
  }

  /** The lines of a text one by one, except for the blocks that are converted. */
  function Pieces(p: Patterns, lines: seq<string>): seq<Piece> {
    var raw := RawChunks(lines);
    GroupPieces(p, Groups(p, raw.chunks)) + Plains(raw.tail)
  }

  lemma PiecesConcat(a: seq<Piece>, b: seq<Piece>)
    requires PiecesOk(a) && PiecesOk(b)
    ensures PiecesOk(a + b)
  {
    hide PieceOk;
  }

  lemma {:induction false} TextsConcat(a: seq<Piece>, b: seq<Piece>)
    requires PiecesOk(a) && PiecesOk(b)
    ensures PiecesOk(a + b) && Before(a + b) == Before(a) + Before(b) && After(a + b) == After(a) + After(b)
    decreases |a|
  {
    hide PiecesOk, PieceOk, Before, After, ToFence;
    PiecesConcat(a, b);
    RestoreNothing();
    if a == [] {
      assert a + b == b;
    } else {
      PiecesTail(a);
      var pc, rest := a[0], a[1..];
      TextsConcat(rest, b);
      assert a + b == [pc] + (rest + b);
      BeforeCons(pc, rest);
      AfterCons(pc, rest);
      BeforeCons(pc, rest + b);
      AfterCons(pc, rest + b);
    }
  }

  lemma {:induction false} PlainTexts(lines: seq<string>)
    requires OneLineEach(lines)
    ensures PiecesOk(Plains(lines)) && Before(Plains(lines)) == lines && After(Plains(lines)) == lines
  {
    hide Before, After;
    RestoreNothing();
    if lines != [] {
      PlainTexts(lines[1..]);
      assert Plains(lines) == [Plain(lines[0])] + Plains(lines[1..]);
      BeforeCons(Plain(lines[0]), Plains(lines[1..]));
      AfterCons(Plain(lines[0]), Plains(lines[1..]));
    }
  }

  lemma VisibleText(block: seq<string>)
    requires block != [] && !IsBlankLine(block[0])
    ensures Strip(Join(block, "\n")) != ""
  {
    hide Join, Strip;
    var i, j := LineInText(block, 0);
    var text := Join(block, "\n");
    var a, b := StripSplits(text);
    if a == b {
      assert forall k :: 0 <= k < |text| ==> IsSpace(text[k]);
      StripIs(block[0], 0, 0);
    }
  }

  lemma DrawnIsOk(p: Patterns, block: seq<string>)
    requires ArePatterns(p) && ChartFor(p, block).Some? && OneLineEach(block) && block != [] && !IsBlankLine(block[0])
    ensures PieceOk(Drawn(block, ChartFor(p, block).value))
  {
    hide ArePatterns, Join, Strip, NoFenceLines, OneLineEach, Drawable, NoBars, NormalSeries, TableIn, AutoChoice,
      BuildSpec, Body, IsBlankLine, WellShaped, Distinct;
    VisibleText(block);
    StoredTable(p, block);
    ChartBodyHasNoFence(p, block);
    var text := Join(block, "\n");
    var t := TableIn(p, text).value;
    AcceptedIsDrawable(p, text, t, AutoChoice(p, t).choice);
    PrintedLinesAreLines(ChartFor(p, block).value);
  }

  lemma BlockTexts(p: Patterns, block: seq<string>)
    requires ArePatterns(p) && OneLineEach(block) && block != [] && !IsBlankLine(block[0])
    ensures var ps := BlockPieces(p, block);
      PiecesOk(ps) && Before(ps) == block && After(ps) == Converted(p, block)
  {
    hide ArePatterns, ChartFor, ToFence, PieceOk, Before, After, OneLineEach, IsBlankLine, Body;
    var spec := ChartFor(p, block);
    if spec.None? {
      PlainTexts(block);
    } else {
      DrawnIsOk(p, block);
      var pc := Drawn(block, spec.value);
      RestoreNothing();
      assert [pc] == [pc] + [];
      BeforeCons(pc, []);
      AfterCons(pc, []);
    }
  }

  lemma OneLineParts(a: seq<string>, b: seq<string>)
    ensures OneLineEach(a + b) <==> OneLineEach(a) && OneLineEach(b)
  {
    var all := a + b;
    assert forall i :: 0 <= i < |a| ==> all[i] == a[i];
    assert forall i :: 0 <= i < |b| ==> b[i] == all[|a| + i];
  }

  lemma GroupStart(g: seq<Chunk>)
    requires g != [] && Chain(g)
    ensures LinesOf(g) != [] && !IsBlankLine(LinesOf(g)[0])
  {
    hide IsBlankLine, Solid, FenceAfter, LinesOf;
    assert ChunkOk(g[0]);
    SolidStart(g[0].block);
    GroupHasLines(g);
  }

  lemma {:induction false} GroupTexts(p: Patterns, gs: seq<seq<Chunk>>)
    requires ArePatterns(p) && (forall i :: 0 <= i < |gs| ==> gs[i] != []) && Chain(Concat(gs))
        && OneLineEach(Flat(Concat(gs)))
    ensures var ps := GroupPieces(p, gs);
      PiecesOk(ps) && Before(ps) == Flat(Concat(gs)) && After(ps) == ConvertGroups(p, gs)
    decreases |gs|
  {
    hide ArePatterns, Flat, Concat, LinesOf, Chain, Before, After, PiecesOk, Converted, BlockPieces, OneLineEach,
      IsBlankLine, Plains;
    RestoreNothing();
    if gs == [] {
      NoPieces();
    } else {
      var n := |gs| - 1;
      var init, g := gs[..n], gs[n];
      assert gs == init + [g];
      ConcatSnoc(init, g);
      ChainConcat(Concat(init), g);
      FlatConcat(Concat(init), g);
      FlatGroup(g);
      OneLineParts(Flat(Concat(init)), Flat(g));
      OneLineParts(g[0].gap, LinesOf(g));
      GroupTexts(p, init);
      GroupStart(g);
      BlockTexts(p, LinesOf(g));
      PlainTexts(g[0].gap);
      TextsConcat(GroupPieces(p, init), Plains(g[0].gap));
      TextsConcat(GroupPieces(p, init) + Plains(g[0].gap), BlockPieces(p, LinesOf(g)));
      ConvertGroupsSnoc(p, init, g);
    }
  }

  lemma NoPieces()
    ensures PiecesOk([]) && Concat([]) == [] && Flat([]) == []
  {
  }

  /** The pieces spell the text before and after its conversion. */
  lemma PiecesAreTheText(p: Patterns, lines: seq<string>)
    requires ArePatterns(p) && OneLineEach(lines)
    ensures var ps := Pieces(p, lines);
      PiecesOk(ps) && Before(ps) == lines && After(ps) == ConvertLines(p, lines)
  {
    hide ArePatterns, Flat, Concat, Chain, Before, After, PiecesOk, OneLineEach, RawChunks, Groups, GroupPieces,
      Plains, ConvertGroups, RawOk, GroupsOk;
    var raw := RawChunks(lines);
    var gs := Groups(p, raw.chunks);
    RawIsOk(lines);
    GroupsAreOk(p, raw.chunks);
    RawOkIsChain(raw.chunks, raw.tail);
    OneLineParts(Flat(raw.chunks), raw.tail);
    GroupTexts(p, gs);
    PlainTexts(raw.tail);
    TextsConcat(GroupPieces(p, gs), Plains(raw.tail));
  }

  /** Restoring undoes a conversion exactly when every converted block is its own stored text and no
      opening line stands before a closing line or a chart. */
  lemma ConversionIsUndoneIff(p: Patterns, lines: seq<string>)
    requires ArePatterns(p) && OneLineEach(lines)
    ensures Restore(ConvertLines(p, lines)) == lines <==> !Stray(Pieces(p, lines)) && AllKept(Pieces(p, lines))
  {
    hide *;
    PiecesAreTheText(p, lines);
    RestoreIff(Pieces(p, lines));
  }

  /** A block is its own stored text exactly when it has no outer white space and its lines of spaces
      and tabs are empty. */
  lemma StoredIff(block: seq<string>)
    requires block != [] && OneLineEach(block) && !IsBlankLine(block[0])
    ensures Stored(block) == block
      <==> Trimmed(Join(block, "\n")) && forall i :: 0 <= i < |block| && Blanks(block[i]) ==> block[i] == ""
  {
    hide Join, Strip, Split, Blanks, IsBlankLine, Trimmed, SplitLines;
    var text := Join(block, "\n");
    VisibleText(block);
    SplitJoin(block, '\n');
    assert ['\n'] == "\n";
    StripIsTrimmed(text);
    if Trimmed(text) {
      StripTrimmed(text);
      EndsOfLines(text);
      BlankedIs(block);
    } else {
      BlankedEnds(Strip(text));
    }
  }

  lemma BlankedIs(lines: seq<string>)
    ensures Blanked(lines) == lines <==> forall i :: 0 <= i < |lines| && Blanks(lines[i]) ==> lines[i] == ""
  {
    hide Blanks;
    if Blanked(lines) == lines {
      forall i | 0 <= i < |lines| && Blanks(lines[i]) ensures lines[i] == "" { assert Blanked(lines)[i] == ""; }
    }
  }

  /** A text without opening lines has no stray one. */
  lemma NoOpenerIsStray(p: Patterns, lines: seq<string>)
    requires ArePatterns(p) && OneLineEach(lines) && forall i :: 0 <= i < |lines| ==> !IsOpener(lines[i])
    ensures !Stray(Pieces(p, lines))
  {
    hide ArePatterns, OneLineEach, IsOpener, Pieces, PiecesOk, Before;
    PiecesAreTheText(p, lines);
    var ps := Pieces(p, lines);
    forall i | 0 <= i < |ps| ensures !Opens(ps[i]) {
      if ps[i].Plain? { PlainIsALine(ps, i); }
    }
  }

  lemma {:induction false} PlainIsALine(ps: seq<Piece>, i: nat)
    requires i < |ps| && ps[i].Plain?
    ensures exists k :: 0 <= k < |Before(ps)| && Before(ps)[k] == ps[i].line
    decreases i
  {
    hide Before;
    var pc, rest := ps[0], ps[1..];
    assert ps == [pc] + rest;
    BeforeCons(pc, rest);
    if i == 0 {
      assert Before(ps)[0] == pc.line;
    } else {
      PlainIsALine(rest, i - 1);
      var k :| 0 <= k < |Before(rest)| && Before(rest)[k] == ps[i].line;
      assert Before(ps)[|Before(ps)| - |Before(rest)| + k] == ps[i].line;
    }
  }

  // ---------- A text that does not come back ----------

  /** A chart fence that only an indented line closes, then a table. */
  function HalfClosed(block: seq<string>): seq<string> {
    HalfOpening() + block
  }

  function HalfOpening(): seq<string> {
    [OPEN_FENCE, " " + CLOSE_FENCE, ""]
  }

  const OPENED := Chunk([], [OPEN_FENCE, " " + CLOSE_FENCE])

  lemma IndentedCloseIsFence()
    ensures IsFenceLine(" " + CLOSE_FENCE) && !IsCloser(" " + CLOSE_FENCE) && !IsCloser("") && IsBlankLine("")
  {
    var line := " " + CLOSE_FENCE;
    var s := LStrip(line);
    assert line[0] == ' ' && line[1] == '`' && line[2] == '`' && line[3] == '`' && CLOSE_FENCE[0] == '`' && |line| == 4;
    SpaceIsSpace();
    BackQuoteIsVisible();
    hide IsSpace, LStrip;
    assert |s| >= 3 && s[0] == line[|line| - |s|];
  }

  lemma OpenedIsChunk()
    ensures ChunkOk(OPENED) && !FenceAfter(OPENED.block, false)
  {
    hide IsFenceLine, IsBlankLine;
    OpenIsFence();
    IndentedCloseIsFence();
    FenceIsNotBlank(" " + CLOSE_FENCE);
    var block := OPENED.block;
    assert block == [OPEN_FENCE, " " + CLOSE_FENCE];
    assert block[1..] == [" " + CLOSE_FENCE];
    assert block[1..][1..] == [];
    assert Solid(block[1..][1..], false) && !FenceAfter(block[1..][1..], false);
    assert Solid(block[1..], true) && !FenceAfter(block[1..], true);
    assert Solid(block, false) && !FenceAfter(block, false);
    assert AllBlank([]);
  }

  lemma HalfClosedChunks(block: seq<string>)
    requires block != [] && Solid(block, false)
    ensures RawChunks(HalfClosed(block)) == Raw([OPENED, Chunk([""], block)], [])
  {
    hide Solid, FenceAfter, IsBlankLine, RawChunks, RawOk, Flat;
    OpenedIsChunk();
    IndentedCloseIsFence();
    var c := Chunk([""], block);
    assert ChunkOk(c) && Link(OPENED, c);
    RawOkIsChain([OPENED, c], []);
    RawUnique([OPENED, c], []);
    assert [OPENED, c] == [OPENED] + [c];
    FlatConcat([OPENED], [c]);
    FlatOne(OPENED);
    FlatOne(c);
    assert Flat([OPENED, c]) + [] == HalfClosed(block);
  }

  lemma HalfClosedGroups(p: Patterns, block: seq<string>)
    requires ArePatterns(p) && !p.markerOnly(Join(block, "\n"))
    ensures Groups(p, [OPENED, Chunk([""], block)]) == [[OPENED], [Chunk([""], block)]]
  {
    hide ArePatterns, Groups, Concat, Join, HasFence;
    var c := Chunk([""], block);
    LinesOfOne(OPENED);
    FenceText(OPENED.block);
    FenceIsNoCaption(p, Join(OPENED.block, "\n"));
    var gs := [[OPENED], [c]];
    assert GroupsOk(p, gs) by { hide IsTableCaption, LinesOf; }
    GroupsUnique(p, gs);
    assert [] + [[OPENED]] == [[OPENED]] && [[OPENED]] + [[c]] == gs && [OPENED] + [c] == [OPENED, c]
        && [] + [OPENED] == [OPENED];
    ConcatNothing();
    ConcatSnoc([], [OPENED]);
    ConcatSnoc([[OPENED]], [c]);
  }

  lemma GroupPiecesSnoc(p: Patterns, gs: seq<seq<Chunk>>, g: seq<Chunk>)
    requires g != [] && forall i :: 0 <= i < |gs| ==> gs[i] != []
    ensures GroupPieces(p, gs + [g]) == GroupPieces(p, gs) + Plains(g[0].gap) + BlockPieces(p, LinesOf(g))
  {
    hide LinesOf, BlockPieces;
    assert (gs + [g])[..|gs|] == gs;
  }

  lemma HalfClosedPieces(p: Patterns, block: seq<string>)
    requires ArePatterns(p) && !p.markerOnly(Join(block, "\n")) && block != [] && Solid(block, false)
        && ChartFor(p, block).Some?
    ensures Pieces(p, HalfClosed(block))
         == [Plain(OPEN_FENCE), Plain(" " + CLOSE_FENCE), Plain(""), Drawn(block, ChartFor(p, block).value)]
  {
    hide ArePatterns, Solid, Groups, RawChunks, GroupPieces, ChartFor, Join;
    var c := Chunk([""], block);
    HalfClosedChunks(block);
    HalfClosedGroups(p, block);
    FenceIsConverted(p, OPENED.block);
    LinesOfOne(OPENED);
    LinesOfOne(c);
    GroupPiecesSnoc(p, [], [OPENED]);
    GroupPiecesSnoc(p, [[OPENED]], [c]);
    assert [] + [[OPENED]] == [[OPENED]] && [[OPENED]] + [[c]] == [[OPENED], [c]];
    NoGroupPieces(p);
  }

  lemma NoGroupPieces(p: Patterns)
    ensures GroupPieces(p, []) == []
  {
  }

  lemma HalfClosedIsStray(p: Patterns, block: seq<string>)
    requires ArePatterns(p) && !p.markerOnly(Join(block, "\n")) && block != [] && Solid(block, false)
        && ChartFor(p, block).Some?
    ensures Stray(Pieces(p, HalfClosed(block)))
  {
    hide ArePatterns, Solid, Pieces, ChartFor, Join, IsOpener, IsCloser;
    OpenIsOpen();
    HalfClosedPieces(p, block);
    var ps := Pieces(p, HalfClosed(block));
    assert Opens(ps[0]) && Stops(ps[3]);
  }

  lemma OpenIsNotClose()
    ensures !IsCloser(OPEN_FENCE)
  {
    var tail := OPEN_FENCE[|CLOSE_FENCE|..];
    assert tail[0] == 'c';
    assert !IsSpace('c');
  }

  lemma AcceptedHasNoCloser(p: Patterns, block: seq<string>)
    requires ArePatterns(p) && ChartFor(p, block).Some?
    ensures forall i :: 0 <= i < |block| ==> !IsCloser(block[i])
  {
    hide ArePatterns, ChartFor, IsFenceLine, IsCloser;
    AcceptedHasNoFence(p, block);
    forall i | 0 <= i < |block| ensures !IsCloser(block[i]) { if IsCloser(block[i]) { CloserIsFence(block[i]); } }
  }

  lemma NoCloserAmong(head: seq<string>, block: seq<string>)
    requires forall i :: 0 <= i < |head| ==> !IsCloser(head[i])
    requires forall i :: 0 <= i < |block| ==> !IsCloser(block[i])
    ensures forall i :: 0 <= i < |head + block| ==> !IsCloser((head + block)[i])
  {
    hide IsCloser;
  }

  lemma HalfOpeningHasNoCloser()
    ensures forall i :: 0 <= i < |HalfOpening()| ==> !IsCloser(HalfOpening()[i])
  {
    IndentedCloseIsFence();
    OpenIsNotClose();
    hide IsCloser;
    var head := HalfOpening();
    assert head[0] == OPEN_FENCE && head[1] == " " + CLOSE_FENCE && head[2] == "" && |head| == 3;
  }

  lemma HalfClosedHasNoCloser(p: Patterns, block: seq<string>)
    requires ArePatterns(p) && ChartFor(p, block).Some?
    ensures forall i :: 0 <= i < |HalfClosed(block)| ==> !IsCloser(HalfClosed(block)[i])
  {
    hide ArePatterns, ChartFor, IsCloser, HalfOpening;
    AcceptedHasNoCloser(p, block);
    HalfOpeningHasNoCloser();
    NoCloserAmong(HalfOpening(), block);
  }

  lemma HalfClosedOneLines(block: seq<string>)
    requires OneLineEach(block)
    ensures OneLineEach(HalfClosed(block))
  {
    OpenIsOneLine();
    assert '\n' !in " " + CLOSE_FENCE;
  }

  /** "Restoring loses nothing in a text without a chart fence" is false: behind an opening line that only
      an indented line closes, any converted table fails to come back, although no line of the text
      closes a chart fence. */
  lemma HalfClosedFenceLosesText(p: Patterns, block: seq<string>)
    requires ArePatterns(p) && ChartFor(p, block).Some? && OneLineEach(block)
    requires block != [] && Solid(block, false) && !p.markerOnly(Join(block, "\n"))
    ensures var lines := HalfClosed(block);
      && (forall i :: 0 <= i < |lines| ==> !IsCloser(lines[i]))
      && Stray(Pieces(p, lines)) && Restore(ConvertLines(p, lines)) != lines
  {
    hide *;
    HalfClosedHasNoCloser(p, block);
    HalfClosedIsStray(p, block);
    HalfClosedOneLines(block);
    ConversionIsUndoneIff(p, HalfClosed(block));
  }
}
