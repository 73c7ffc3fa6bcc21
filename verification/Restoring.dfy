/** chart_fences_as_tables (src/core/charts.py): every chart fence becomes the table stored in it. */
module Restoring {
  import opened Text
  import opened Charts
  import opened ChartRoundTrip

  // ---------- Lines ----------

  predicate Blanks(s: string) {
    forall i :: 0 <= i < |s| ==> IsBlank(s[i])
  }

  /** The opening line of CHART_FENCE_RE. */
  predicate IsOpener(line: string) {
    OPEN_FENCE <= line && Blanks(line[|OPEN_FENCE|..])
  }

  /** Its closing line, at the left margin. */
  predicate IsCloser(line: string) {
    CLOSE_FENCE <= line && Blanks(line[|CLOSE_FENCE|..])
  }

  predicate NotCloser(line: string) {
    !IsCloser(line)
  }

  const TABLE_KEY := "table:"

  /** "table: |" at the left margin */
  predicate IsTableKey(line: string) {
    TABLE_KEY <= line
    && var r := SkipBlanks(line[|TABLE_KEY|..]); r != "" && r[0] == '|' && Blanks(r[1..])
  }

  predicate StartsBlank(line: string) {
    line != "" && IsBlank(line[0])
  }

  // ---------- textwrap.dedent ----------

  function BlankEnd(s: string, i: nat): (n: nat)
    requires i <= |s|
    ensures i <= n <= |s| && (n < |s| ==> !IsBlank(s[n])) && forall k :: i <= k < n ==> IsBlank(s[k])
    decreases |s| - i
  {
    if i < |s| && IsBlank(s[i]) then BlankEnd(s, i + 1) else i
  }

  function Indent(s: string): string {
    s[..BlankEnd(s, 0)]
  }

  function CommonPrefix(a: string, b: string): (r: string)
    ensures r <= a && r <= b
  {
    if a == "" || b == "" || a[0] != b[0] then "" else [a[0]] + CommonPrefix(a[1..], b[1..])
  }

  /** The white space that all visible lines begin with. */
  function Margin(lines: seq<string>): Option<string> {
    if lines == [] then None
    else
      var rest := Margin(lines[1..]);
      if Blanks(lines[0]) then rest
      else Some(if rest.None? then Indent(lines[0]) else CommonPrefix(Indent(lines[0]), rest.value))
  }

  function Outdented(line: string, margin: string): string {
    if Blanks(line) then "" else if margin <= line then line[|margin|..] else line
  }

  function Dedent(lines: seq<string>): (r: seq<string>)
    ensures |r| == |lines|
  {
    var m := Margin(lines);
    var margin := if m.None? then "" else m.value;
    seq(|lines|, i requires 0 <= i < |lines| => Outdented(lines[i], margin))
  }

  // ---------- Fences to tables ----------

  /** The lines that _FENCE_TABLE_RE captures in a body. */
  function CapturedTable(body: seq<string>): (r: Option<seq<string>>)
    ensures r.Some? ==> 0 < |r.value| < |body|
  {
    if body == [] then None
    else if IsTableKey(body[0]) && |body| > 1 && StartsBlank(body[1])
        then Some(body[1..][..Run(body[1..], StartsBlank)])
    else CapturedTable(body[1..])
  }

  /** What stands in place of a fence with this body. */
  function TableText(body: seq<string>): seq<string> {
    var run := CapturedTable(body);
    if run.None? then [""] else Split(Strip(Join(Dedent(run.value), "\n")), '\n')
  }

  /** chart_fences_as_tables */
  function Restore(lines: seq<string>): seq<string>
    decreases |lines|
  {
    if lines == [] then []
    else
      var rest := lines[1..];
      var k := Run(rest, NotCloser);
      if IsOpener(lines[0]) && k < |rest| then TableText(rest[..k]) + Restore(rest[k + 1..])
      else [lines[0]] + Restore(rest)
  }

  // ---------- How much is left ----------

  lemma {:induction false} SplitCount(a: string, b: string, c: char)
    ensures |Split(a + b, c)| == |Split(a, c)| + |Split(b, c)| - 1
  {
    hide Split;
    if a == "" {
      assert a + b == b;
      SplitOne("", c);
    } else {
      assert (a + b)[1..] == a[1..] + b;
      SplitCons(a + b, c);
      SplitCons(a, c);
      SplitCount(a[1..], b, c);
    }
  }

  lemma StripCount(s: string)
    ensures |Split(Strip(s), '\n')| <= |Split(s, '\n')|
  {
    hide *;
    var i, j := StripSplits(s);
    var core := s[i..j];
    assert s == s[..i] + (core + s[j..]);
    SplitCount(s[..i], core + s[j..], '\n');
    SplitCount(core, s[j..], '\n');
    SplitNonEmpty(s[..i]);
    SplitNonEmpty(s[j..]);
  }

  lemma SplitNonEmpty(s: string)
    ensures |Split(s, '\n')| >= 1
  {
  }

  lemma DedentOneLines(lines: seq<string>)
    requires OneLineEach(lines)
    ensures OneLineEach(Dedent(lines))
  {
    hide Margin, Blanks;
  }

  lemma {:induction false} CapturedOneLines(body: seq<string>)
    requires OneLineEach(body)
    ensures CapturedTable(body).Some? ==> OneLineEach(CapturedTable(body).value)
  {
    hide IsTableKey, StartsBlank;
    if body != [] {
      assert forall i :: 0 <= i < |body| - 1 ==> body[1..][i] == body[i + 1];
      CapturedOneLines(body[1..]);
    }
  }

  /** A restored table has no more lines than were captured. */
  lemma TableTextCount(body: seq<string>)
    requires OneLineEach(body)
    ensures var run := CapturedTable(body);
      |TableText(body)| <= if run.None? then 1 else |run.value|
  {
    hide Dedent, CapturedTable, Split, Join, Strip;
    var run := CapturedTable(body);
    if run.Some? {
      CapturedOneLines(body);
      DedentOneLines(run.value);
      SplitJoin(Dedent(run.value), '\n');
      assert ['\n'] == "\n";
      StripCount(Join(Dedent(run.value), "\n"));
    }
  }

  /** A table that begins before a line without indentation also ends before it. */
  lemma {:induction false} CapturedBefore(u: seq<string>, w: seq<string>)
    requires w != [] && !StartsBlank(w[0])
    ensures var r := CapturedTable(u + w); r == CapturedTable(w) || (r.Some? && |r.value| < |u|)
  {
    hide IsTableKey, StartsBlank;
    var body := u + w;
    if u == [] {
      assert body == w;
    } else {
      assert body[1..] == u[1..] + w;
      if IsTableKey(u[0]) && StartsBlank(body[1]) {
        var n := Run(body[1..], StartsBlank);
        assert n <= |u| - 1 by {
          assert body[1..][|u| - 1] == w[0];
        }
      } else {
        CapturedBefore(u[1..], w);
      }
    }
  }
}
