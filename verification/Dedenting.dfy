/** Which lines open, close and hold the table stored in a chart fence, and how it is taken out
    (src/core/charts.py: CHART_FENCE_RE, _FENCE_TABLE_RE and textwrap.dedent). */
module Dedenting {
  import opened Text
  import opened Charts
  import opened Restoring

  // ---------- Lines ----------

  ghost predicate IsPad(pad: string) {
    forall i :: 0 <= i < |pad| ==> pad[i] in " \t"
  }

  lemma PadIff(pad: string)
    ensures IsPad(pad) <==> Blanks(pad)
  {
  }

  /** A fence is opened by "```chart" at the left margin, with nothing but blanks behind it. */
  lemma OpenerIff(line: string)
    ensures IsOpener(line) <==> exists pad: string :: line == "```chart" + pad && IsPad(pad)
  {
    hide Blanks, IsPad;
    if IsOpener(line) {
      PadIff(line[|OPEN_FENCE|..]);
      assert line == "```chart" + line[|OPEN_FENCE|..];
    }
    if pad: string :| line == "```chart" + pad && IsPad(pad) {
      PadIff(pad);
      assert line[|OPEN_FENCE|..] == pad;
    }
  }

  /** It is closed by "```" at the left margin. */
  lemma CloserIff(line: string)
    ensures IsCloser(line) <==> exists pad: string :: line == "```" + pad && IsPad(pad)
  {
    hide Blanks, IsPad;
    if IsCloser(line) {
      PadIff(line[|CLOSE_FENCE|..]);
      assert line == "```" + line[|CLOSE_FENCE|..];
    }
    if pad: string :| line == "```" + pad && IsPad(pad) {
      PadIff(pad);
      assert line[|CLOSE_FENCE|..] == pad;
    }
  }

  ghost predicate IsKeyLine(line: string, pad: string, rest: string) {
    line == "table:" + pad + "|" + rest && IsPad(pad) && IsPad(rest)
  }

  lemma {:induction false} SkippedPad(pad: string, rest: string)
    requires Blanks(pad)
    ensures SkipBlanks(pad + ("|" + rest)) == "|" + rest
  {
    var s := pad + ("|" + rest);
    if pad == "" {
      assert s == "|" + rest;
    } else {
      assert s[0] == pad[0] && s[1..] == pad[1..] + ("|" + rest);
      SkippedPad(pad[1..], rest);
    }
  }

  lemma {:induction false} SkippedIsPad(s: string) returns (pad: string)
    ensures s == pad + SkipBlanks(s) && Blanks(pad)
  {
    if s != "" && IsBlank(s[0]) {
      var rest := SkippedIsPad(s[1..]);
      pad := [s[0]] + rest;
      assert s == [s[0]] + s[1..];
    } else {
      pad := "";
    }
  }

  /** The stored table stands below "table: |" at the left margin. */
  lemma TableKeyIff(line: string)
    ensures IsTableKey(line) <==> exists pad: string, rest: string :: IsKeyLine(line, pad, rest)
  {
    hide Blanks, IsPad, SkipBlanks;
    if IsTableKey(line) {
      var tail := line[|TABLE_KEY|..];
      var r := SkipBlanks(tail);
      var pad := SkippedIsPad(tail);
      PadIff(pad);
      PadIff(r[1..]);
      assert r == "|" + r[1..];
      assert line == "table:" + pad + "|" + r[1..];
      assert IsKeyLine(line, pad, r[1..]);
    }
    if pad: string, rest: string :| IsKeyLine(line, pad, rest) {
      PadIff(pad);
      PadIff(rest);
      assert line[|TABLE_KEY|..] == pad + ("|" + rest);
      SkippedPad(pad, rest);
      assert ("|" + rest)[1..] == rest;
    }
  }

  // ---------- The stored lines ----------

  /** Line i is the key and an indented line follows. */
  ghost predicate HoldsTable(body: seq<string>, i: nat) {
    i + 1 < |body| && IsTableKey(body[i]) && StartsBlank(body[i + 1])
  }

  /** What is captured are the indented lines below the first such key. */
  lemma {:induction false} CapturedIs(body: seq<string>)
    ensures CapturedTable(body).None? <==> forall i: nat :: !HoldsTable(body, i)
    ensures forall i: nat :: HoldsTable(body, i) && (forall j: nat :: j < i ==> !HoldsTable(body, j)) ==>
      CapturedTable(body) == Some(body[i + 1..][..Run(body[i + 1..], StartsBlank)])
  {
    hide IsTableKey, StartsBlank, Run;
    if body != [] {
      var tail := body[1..];
      CapturedIs(tail);
      forall i: nat ensures HoldsTable(tail, i) <==> HoldsTable(body, i + 1) {}
      if HoldsTable(body, 0) {
        assert CapturedTable(body) == Some(tail[..Run(tail, StartsBlank)]);
      } else {
        assert CapturedTable(body) == CapturedTable(tail);
        forall i: nat | HoldsTable(body, i) && (forall j: nat :: j < i ==> !HoldsTable(body, j))
          ensures CapturedTable(body) == Some(body[i + 1..][..Run(body[i + 1..], StartsBlank)])
        {
          assert i > 0;
          forall j: nat | j < i - 1 ensures !HoldsTable(tail, j) { assert !HoldsTable(body, j + 1); }
          assert HoldsTable(tail, i - 1);
          assert tail[i - 1 + 1..] == body[i + 1..];
        }
        forall i: nat | HoldsTable(body, i) ensures CapturedTable(tail).Some? { assert HoldsTable(tail, i - 1); }
        if CapturedTable(tail).Some? {
          var i: nat :| HoldsTable(tail, i);
          assert HoldsTable(body, i + 1);
        }
      }
    }
  }

  // ---------- The margin ----------

  /** q is white space that every visible line begins with. */
  ghost predicate IsCommon(q: string, lines: seq<string>) {
    Blanks(q) && forall i :: 0 <= i < |lines| && !Blanks(lines[i]) ==> q <= lines[i]
  }

  lemma {:induction false} PrefixIsLongest(a: string, b: string, q: string)
    ensures q <= CommonPrefix(a, b) <==> q <= a && q <= b
  {
    if a != "" && b != "" && a[0] == b[0] && q != "" {
      PrefixIsLongest(a[1..], b[1..], q[1..]);
      var c := CommonPrefix(a, b);
      assert c == [a[0]] + CommonPrefix(a[1..], b[1..]);
      PrefixTail(q, a);
      PrefixTail(q, b);
      PrefixTail(q, c);
      assert c[1..] == CommonPrefix(a[1..], b[1..]);
    }
  }

  lemma PrefixTail(q: string, s: string)
    requires q != "" && s != ""
    ensures q <= s <==> q[0] == s[0] && q[1..] <= s[1..]
  {
    if q[0] == s[0] && q[1..] <= s[1..] {
      assert q == [q[0]] + q[1..] && s == [s[0]] + s[1..];
      assert s[..|q|] == [s[0]] + s[1..][..|q| - 1];
    }
    if q <= s { assert s[1..][..|q| - 1] == s[..|q|][1..]; }
  }

  lemma IndentIsLongest(s: string, q: string)
    requires Blanks(q)
    ensures q <= Indent(s) <==> q <= s
    ensures Blanks(Indent(s)) && Indent(s) <= s
  {
    var n := BlankEnd(s, 0);
    if q <= s {
      forall i | 0 <= i < |q| ensures IsBlank(s[i]) { assert q[i] == s[i]; }
    }
  }

  lemma PrefixIsBlank(q: string, s: string)
    requires q <= s && Blanks(s)
    ensures Blanks(q)
  {
    assert forall i :: 0 <= i < |q| ==> q[i] == s[i];
  }

  /** The margin is the longest white space that all visible lines begin with; there is none exactly when no
      line is visible. */
  lemma {:induction false} MarginIsLongest(lines: seq<string>)
    ensures Margin(lines).None? <==> forall i :: 0 <= i < |lines| ==> Blanks(lines[i])
    ensures Margin(lines).Some? ==>
      && IsCommon(Margin(lines).value, lines)
      && forall q :: IsCommon(q, lines) ==> q <= Margin(lines).value
  {
    hide Blanks, Indent, CommonPrefix;
    if lines != [] {
      var first, rest := lines[0], lines[1..];
      assert lines == [first] + rest;
      MarginIsLongest(rest);
      var m := Margin(rest);
      forall q ensures IsCommon(q, lines) <==> IsCommon(q, rest) && (Blanks(first) || q <= first) {
        CommonCons(q, first, rest);
      }
      if !Blanks(first) {
        NoTextIsBlank();
        IndentIsLongest(first, "");
        forall q | Blanks(q) ensures q <= Indent(first) <==> q <= first { IndentIsLongest(first, q); }
        if m.Some? {
          var c := CommonPrefix(Indent(first), m.value);
          PrefixIsLongest(Indent(first), m.value, c);
          PrefixIsBlank(c, m.value);
          CommonShorter(c, m.value, rest);
          forall q | IsCommon(q, lines) ensures q <= c { PrefixIsLongest(Indent(first), m.value, q); }
        }
      }
    }
  }

  lemma NoTextIsBlank()
    ensures Blanks("")
  {
  }

  lemma CommonCons(q: string, first: string, rest: seq<string>)
    ensures IsCommon(q, [first] + rest) <==> IsCommon(q, rest) && (Blanks(first) || q <= first)
  {
    hide Blanks;
    var lines := [first] + rest;
    assert forall i :: 0 <= i < |rest| ==> lines[i + 1] == rest[i];
    if IsCommon(q, lines) {
      forall i | 0 <= i < |rest| && !Blanks(rest[i]) ensures q <= rest[i] { assert lines[i + 1] == rest[i]; }
      assert lines[0] == first;
    }
    if IsCommon(q, rest) && (Blanks(first) || q <= first) {
      forall i | 0 <= i < |lines| && !Blanks(lines[i]) ensures q <= lines[i] {
        if i > 0 { assert lines[i] == rest[i - 1]; }
      }
    }
  }

  lemma CommonShorter(c: string, m: string, lines: seq<string>)
    requires c <= m && Blanks(c) && IsCommon(m, lines)
    ensures IsCommon(c, lines)
  {
    hide Blanks;
  }

  /** Taken out, a stored line loses the margin; a line of blanks becomes empty. */
  lemma DedentIs(lines: seq<string>, m: string)
    requires IsCommon(m, lines) && forall q :: IsCommon(q, lines) ==> q <= m
    requires exists i :: 0 <= i < |lines| && !Blanks(lines[i])
    ensures forall i :: 0 <= i < |lines| ==>
      Dedent(lines)[i] == if Blanks(lines[i]) then "" else lines[i][|m|..]
  {
    hide Blanks, Margin;
    MarginIsLongest(lines);
    var n := Margin(lines).value;
    assert n <= m && m <= n;
    assert n == m;
  }

  // ---------- Restoring ----------

  lemma RunOfBody(body: seq<string>, closer: string, rest: seq<string>)
    requires (forall i :: 0 <= i < |body| ==> !IsCloser(body[i])) && IsCloser(closer)
    ensures Run(body + [closer] + rest, NotCloser) == |body|
  {
    hide IsCloser;
    var lines := body + [closer] + rest;
    assert lines[|body|] == closer;
    forall i | 0 <= i < |body| ensures NotCloser(lines[i]) { assert lines[i] == body[i]; }
  }

  /** A fence is replaced by its stored table, outdented and trimmed, or by one empty line when it stores none. */
  lemma FenceIsRestored(opener: string, body: seq<string>, closer: string, rest: seq<string>)
    requires IsOpener(opener) && (forall i :: 0 <= i < |body| ==> !IsCloser(body[i])) && IsCloser(closer)
    ensures Restore([opener] + (body + [closer] + rest))
         == (if CapturedTable(body).None? then [""]
             else Split(Strip(Join(Dedent(CapturedTable(body).value), "\n")), '\n'))
            + Restore(rest)
  {
    hide IsOpener, IsCloser, CapturedTable, Dedent, Strip, Split, Join;
    RunOfBody(body, closer, rest);
    var tail := body + [closer] + rest;
    var lines := [opener] + tail;
    assert lines[1..] == tail && tail[..|body|] == body && tail[|body| + 1..] == rest;
  }

  /** Any other line stays. */
  lemma LineIsKept(line: string, rest: seq<string>)
    requires !IsOpener(line) || forall i :: 0 <= i < |rest| ==> !IsCloser(rest[i])
    ensures Restore([line] + rest) == [line] + Restore(rest)
  {
    hide IsOpener, IsCloser, TableText;
    assert ([line] + rest)[1..] == rest;
    var k := Run(rest, NotCloser);
    if k < |rest| { assert IsCloser(rest[k]); }
  }
}
