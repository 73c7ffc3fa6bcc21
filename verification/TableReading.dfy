/** What find_table reads from Markdown (src/core/table_to_chart.py), and which cells hold one number. */
module TableReading {
  import opened Text
  import opened Numbers
  import opened Tables

  // ---------- One row ----------

  /** A cell as it is written: trimmed, on one line, without bars and stars. */
  ghost predicate PlainCell(c: string) {
    Trimmed(c) && '|' !in c && '\n' !in c && '*' !in c
  }

  ghost predicate PlainRow(row: seq<string>) {
    row != [] && forall j :: 0 <= j < |row| ==> PlainCell(row[j])
  }

  /** "| a | b |" */
  function RowText(row: seq<string>): string {
    "| " + Join(row, " | ") + " |"
  }

  function Spaced(row: seq<string>): (r: seq<string>)
    ensures |r| == |row| && forall j :: 0 <= j < |r| ==> r[j] == " " + row[j] + " "
  {
    seq(|row|, j requires 0 <= j < |row| => " " + row[j] + " ")
  }

  lemma {:induction false} SpacedJoin(row: seq<string>)
    requires row != []
    ensures " " + Join(row, " | ") + " " == Join(Spaced(row), "|")
  {
    hide Join;
    var c, rest := row[0], row[1..];
    assert row == [c] + rest && Spaced(row) == [" " + c + " "] + Spaced(rest);
    JoinCons(c, rest, " | ");
    JoinCons(" " + c + " ", Spaced(rest), "|");
    if rest != [] {
      SpacedJoin(rest);
      assert " " + (c + " | " + Join(rest, " | ")) + " " == " " + c + " " + "|" + (" " + Join(rest, " | ") + " ");
    }
  }

  lemma {:induction false} NoBoldPlain(s: string)
    requires '*' !in s
    ensures NoBold(s) == s
  {
    if s != "" {
      NoBoldPlain(s[1..]);
      assert s == [s[0]] + s[1..];
    }
  }

  lemma NoBoldStep(c: char, rest: string)
    ensures c != '*' ==> NoBold([c] + rest) == [c] + NoBold(rest)
    ensures NoBold("**" + rest) == NoBold(rest)
  {
    assert ([c] + rest)[1..] == rest && ("**" + rest)[2..] == rest;
  }

  /** A pair of stars is dropped, wherever it stands. */
  lemma {:induction false} StarsAreDropped(a: string, b: string)
    requires '*' !in a
    ensures NoBold(a + "**" + b) == a + NoBold(b)
  {
    hide NoBold;
    if a == "" {
      NoBoldStep(' ', b);
      assert a + "**" + b == "**" + b;
    } else {
      NoBoldStep(a[0], a[1..] + "**" + b);
      StarsAreDropped(a[1..], b);
      assert a + "**" + b == [a[0]] + (a[1..] + "**" + b);
      assert [a[0]] + (a[1..] + NoBold(b)) == a + NoBold(b);
    }
  }

  lemma CellIsRead(c: string)
    requires PlainCell(c)
    ensures Strip(NoBold(" " + c + " ")) == c
  {
    hide Strip, NoBold;
    NoBoldPlain(" " + c + " ");
    SpaceIsPadding(c);
    StripTrimmed(c);
  }

  lemma SpaceIsPadding(c: string)
    ensures Strip(" " + c + " ") == Strip(c)
  {
    hide Strip;
    SpaceIsSpace();
    StripPadded(' ', c, ' ');
    StripPadded(' ', c + [' '], ' ');
    assert [' '] + (c + [' ']) == " " + c + " ";
  }

  lemma BarIsVisible()
    ensures !IsSpace('|')
  {
  }

  lemma InnerIs(row: seq<string>)
    requires row != []
    ensures InnerCells(RowText(row)) == Join(Spaced(row), "|")
    ensures Strip(RowText(row)) == RowText(row) && LStrip(RowText(row)) == RowText(row)
  {
    hide Join, Strip, LStrip;
    var s := RowText(row);
    BarIsVisible();
    assert s[0] == '|' && s[|s| - 1] == '|';
    StripTrimmed(s);
    SpacedJoin(row);
    assert s[1..][..|s| - 2] == " " + Join(row, " | ") + " ";
  }

  /** A written row is read cell by cell. */
  lemma RowIsRead(row: seq<string>)
    requires PlainRow(row)
    ensures Cells(RowText(row)) == row && IsRowLine(RowText(row))
  {
    hide Join, Strip, LStrip, InnerCells, NoBold, RowText, Split;
    InnerIs(row);
    RowTextBegins(row);
    forall j | 0 <= j < |row| ensures '|' !in Spaced(row)[j] && Strip(NoBold(Spaced(row)[j])) == row[j] {
      CellIsRead(row[j]);
    }
    SplitJoin(Spaced(row), '|');
    assert ['|'] == "|";
  }

  lemma RowTextBegins(row: seq<string>)
    ensures RowText(row) != "" && RowText(row)[0] == '|'
  {
    hide Join;
  }

  // ---------- Separators ----------

  predicate IsRule(c: char) {
    IsSpace(c) || c == ':' || c == '|' || c == '-'
  }

  ghost predicate Ruled(s: string) {
    forall i :: 0 <= i < |s| ==> IsRule(s[i])
  }

  lemma RuledConcat(a: string, b: string)
    ensures Ruled(a + b) <==> Ruled(a) && Ruled(b)
  {
    hide IsRule;
    assert forall i :: 0 <= i < |a| ==> (a + b)[i] == a[i];
    assert forall i :: 0 <= i < |b| ==> (a + b)[|a| + i] == b[i];
  }

  lemma {:induction false} RuledJoin(row: seq<string>)
    ensures Ruled(Join(row, " | ")) <==> forall j :: 0 <= j < |row| ==> Ruled(row[j])
  {
    hide Ruled, Join;
    if row == [] {
      EmptyJoin();
    } else {
      var c, rest := row[0], row[1..];
      assert row == [c] + rest;
      JoinCons(c, rest, " | ");
      RuledJoin(rest);
      RuledConcat(c, " | ");
      RuledConcat(c + " | ", Join(rest, " | "));
      BarsAreRuled();
      forall j | 0 < j < |row| ensures row[j] == rest[j - 1] {}
      forall j | 0 <= j < |rest| ensures rest[j] == row[j + 1] {}
    }
  }

  lemma EmptyJoin()
    ensures Join([], " | ") == "" && Ruled("")
  {
  }

  lemma BarsAreRuled()
    ensures Ruled(" | ") && Ruled("| ") && Ruled(" |")
  {
  }

  lemma SeparatorIff(line: string)
    requires Strip(line) == line
    ensures IsSeparator(line) <==> line != "" && Ruled(line)
  {
    hide Strip;
  }

  /** A written row is taken for a rule below the heading, and left out, exactly when all its cells are made
      of hyphens, colons and white space. */
  lemma RowIsSeparatorIff(row: seq<string>)
    requires row != []
    ensures IsSeparator(RowText(row)) <==> forall j :: 0 <= j < |row| ==> Ruled(row[j])
  {
    InnerIs(row);
    RowTextBegins(row);
    SeparatorIff(RowText(row));
    hide IsSeparator, Strip, LStrip, InnerCells, Ruled, Join;
    BarsAreRuled();
    RuledJoin(row);
    RuledConcat("| ", Join(row, " | "));
    RuledConcat("| " + Join(row, " | "), " |");
  }

  // ---------- A whole table ----------

  ghost predicate DataRow(row: seq<string>) {
    PlainRow(row) && exists j :: 0 <= j < |row| && !Ruled(row[j])
  }

  function RowTexts(rows: seq<seq<string>>): (r: seq<string>)
    ensures |r| == |rows| && forall i :: 0 <= i < |r| ==> r[i] == RowText(rows[i])
  {
    seq(|rows|, i requires 0 <= i < |rows| => RowText(rows[i]))
  }

  lemma {:induction false} RowsAreRead(rows: seq<seq<string>>, after: seq<string>)
    requires forall i :: 0 <= i < |rows| ==> DataRow(rows[i])
    requires after == [] || !IsRowLine(after[0])
    ensures RowsOf(RowTexts(rows) + after) == rows
  {
    hide RowText, IsRowLine, Cells, IsSeparator;
    var lines := RowTexts(rows) + after;
    if rows == [] {
      assert lines == after;
    } else {
      hide DataRow;
      DataRowIsRead(rows[0]);
      assert lines[0] == RowText(rows[0]) && lines[1..] == RowTexts(rows[1..]) + after;
      RowsAreRead(rows[1..], after);
    }
  }

  lemma DataRowIsRead(row: seq<string>)
    requires DataRow(row)
    ensures Cells(RowText(row)) == row && IsRowLine(RowText(row)) && !IsSeparator(RowText(row)) && row != []
  {
    hide Cells, RowText, IsRowLine, IsSeparator, Ruled, PlainCell;
    RowIsRead(row);
    RowIsSeparatorIff(row);
  }

  /** Lines before the table, the heading, the rule, the rows, and lines behind it. */
  function Written(before: seq<string>, heading: seq<string>, rule: string, rows: seq<seq<string>>, after: seq<string>)
    : seq<string>
  {
    before + ([RowText(heading), rule] + (RowTexts(rows) + after))
  }

  lemma WrittenRows(heading: seq<string>, rule: string, rows: seq<seq<string>>, after: seq<string>)
    requires DataRow(heading) && (forall i :: 0 <= i < |rows| ==> DataRow(rows[i]))
    requires IsRowLine(rule) && IsSeparator(rule) && (after == [] || !IsRowLine(after[0]))
    ensures RowsOf([RowText(heading), rule] + (RowTexts(rows) + after)) == [heading] + rows
  {
    hide DataRow, RowText, IsRowLine, Cells, IsSeparator;
    var rest := RowTexts(rows) + after;
    var lines := [RowText(heading), rule] + rest;
    DataRowIsRead(heading);
    RowsAreRead(rows, after);
    assert lines[1..] == [rule] + rest && ([rule] + rest)[1..] == rest;
    RowsStep(lines, 0);
    RowsStep(lines, 1);
    assert lines[0..] == lines && lines[1..][1..] == lines[2..] == rest;
    assert [] + rows == rows;
  }

  /** A written table is read with its heading and its rows, filled with blanks or cut to the width of the
      heading; with its caption, unit and sources as the patterns find them; and not at all when it has
      fewer than two rows or the block holds a fence. */
  lemma WrittenTableIsRead(p: Patterns, before: seq<string>, heading: seq<string>, rule: string,
                           rows: seq<seq<string>>, after: seq<string>)
    requires DataRow(heading) && (forall i :: 0 <= i < |rows| ==> DataRow(rows[i]))
    requires IsRowLine(rule) && IsSeparator(rule) && (after == [] || !IsRowLine(after[0]))
    requires forall i :: 0 <= i < |before| ==> !IsRowLine(before[i])
    requires var lines := Written(before, heading, rule, rows, after);
      forall i :: 0 <= i < |lines| ==> '\n' !in lines[i]
    ensures var block := Join(Written(before, heading, rule, rows, after), "\n");
      TableIn(p, block) ==
        if |rows| < 2 || HasFence(block) then None
        else
          var found := p.caption(Strip(p.withoutSources(Strip(Join(before, " ")))));
          var caption := if found.Some? then Strip(found.value) else "";
          var tail := p.captionUnit(caption);
          var split := tail.Some? && tail.value.0 <= |caption|;
          Some(Table(if split then Strip(caption[..tail.value.0]) else caption,
                     if split then tail.value.1 else "", heading,
                     seq(|rows|, i requires 0 <= i < |rows| =>
                       seq(|heading|, j requires 0 <= j < |heading| => if j < |rows[i]| then rows[i][j] else "")),
                     p.sources(block)))
  {
    hide DataRow, RowText, IsRowLine, IsSeparator, Split, Join, Strip, RowsOf, FirstRow, HasFence;
    var lines := Written(before, heading, rule, rows, after);
    var block := Join(lines, "\n");
    assert ['\n'] == "\n";
    SplitJoin(lines, '\n');
    var k := |before|;
    assert lines[k] == RowText(heading);
    DataRowIsRead(heading);
    assert forall i :: 0 <= i < k ==> lines[i] == before[i];
    FirstRowIs(lines, k);
    assert lines[k..] == [RowText(heading), rule] + (RowTexts(rows) + after) && lines[..k] == before;
    WrittenRows(heading, rule, rows, after);
    var all := [heading] + rows;
    assert all[0] == heading && all[1..] == rows;
    if |rows| >= 2 && !HasFence(block) {
      PaddedAre(rows, |heading|);
    }
  }

  lemma PaddedAre(rows: seq<seq<string>>, width: nat)
    ensures PaddedRows(rows, width) == seq(|rows|, i requires 0 <= i < |rows| =>
      seq(width, j requires 0 <= j < width => if j < |rows[i]| then rows[i][j] else ""))
  {
    forall i | 0 <= i < |rows|
      ensures PaddedRows(rows, width)[i]
          == seq(width, j requires 0 <= j < width => if j < |rows[i]| then rows[i][j] else "")
    {
    }
  }

  // ---------- Lines ----------

  /** A line of a table: its first visible character is a bar. */
  lemma RowLineIff(line: string)
    ensures IsRowLine(line) <==> exists k :: 0 <= k < |line| && line[k] == '|' && forall i :: 0 <= i < k ==>
        IsSpace(line[i])
  {
    BarIsVisible();
    hide IsSpace, LStrip;
    var s := LStrip(line);
    var n := |line| - |s|;
    if s != "" { assert s[0] == line[n]; }
    if k :| 0 <= k < |line| && line[k] == '|' && forall i :: 0 <= i < k ==> IsSpace(line[i]) {
      assert n <= k by { assert !(k < n); }
      assert n == k;
    }
  }

  /** A block holds a fence when three back quotes stand side by side anywhere. */
  lemma FenceIff(block: string)
    ensures HasFence(block) <==> exists a: string, b: string :: block == a + ("```" + b)
  {
    if HasFence(block) {
      var i :| 0 <= i < |block| - 2 && block[i] == '`' && block[i + 1] == '`' && block[i + 2] == '`';
      assert block == block[..i] + ("```" + block[i + 3..]);
    }
    if a: string, b: string :| block == a + ("```" + b) {
      var i := |a|;
      assert block[i] == '`' && block[i + 1] == '`' && block[i + 2] == '`';
    }
  }

  // ---------- Cells with one number ----------

  /** A sign or none, white space, digits with commas behind the first, a fraction or none, and at most four
      characters that are neither digits nor white space. */
  ghost predicate HasNumeralForm(s: string, sign: string, pad: string, ints: string, frac: string, tail: string) {
    && s == sign + (pad + (ints + (frac + tail)))
    && IsSignText(sign)
    && (forall i :: 0 <= i < |pad| ==> IsSpace(pad[i]))
    && IsInts(ints) && IsFrac(frac)
    && |tail| <= 4 && (forall i :: 0 <= i < |tail| ==> !IsDigit(tail[i]) && !IsSpace(tail[i]))
  }

  ghost predicate IsSignText(sign: string) {
    sign in ["", "+", "-", "−", "–", "△", "▽"]
  }

  ghost predicate IsInts(ints: string) {
    ints != "" && IsDigit(ints[0]) && forall i :: 0 <= i < |ints| ==> IsDigit(ints[i]) || ints[i] == ','
  }

  ghost predicate IsFrac(frac: string) {
    frac == "" || (|frac| >= 2 && frac[0] == '.' && AllDigits(frac[1..]))
  }

  ghost predicate IsOneNumeral(s: string) {
    exists sign: string, pad: string, ints: string, frac: string, tail: string ::
      HasNumeralForm(s, sign, pad, ints, frac, tail)
  }

  lemma SignIff(sign: string)
    ensures IsSignText(sign) <==> sign == "" || (|sign| == 1 && IsSign(sign[0]))
  {
    if |sign| == 1 { assert sign == [sign[0]]; }
  }

  /** What may stand before the digits. */
  lemma SignsAndPads()
    ensures forall c :: IsSign(c) ==> !IsSpace(c) && !IsDigit(c)
    ensures forall c :: IsDigit(c) ==> !IsSpace(c)
  {
  }

  lemma StripPad(pad: string, body: string)
    requires (forall i :: 0 <= i < |pad| ==> IsSpace(pad[i])) && body != "" && !IsSpace(body[0])
    ensures LStrip(pad + body) == body
  {
    hide IsSpace, LStrip;
    var s := pad + body;
    var t := LStrip(s);
    var n := |s| - |t|;
    assert s[|pad|] == body[0];
    if t != "" { assert t[0] == s[n]; }
    assert forall i :: 0 <= i < |pad| ==> s[i] == pad[i];
    assert n == |pad|;
  }

  lemma NumberEndIs(t: string, n: nat)
    requires NumberRun(t) == n
    ensures n <= |t|
    ensures NumberEnd(t) == if FractionPart(t[n..]) == "" then n else n + 1 + |FractionPart(t[n..])|
  {
    hide NumberRun, FractionPart;
  }

  lemma WholeNumber(ints: string, tail: string) returns (rest: string)
    requires IsInts(ints) && forall i :: 0 <= i < |tail| ==> !IsDigit(tail[i])
    ensures rest == (ints + tail)[NumberEnd(ints + tail)..]
    ensures |rest| <= |tail| && rest == tail[|tail| - |rest|..]
  {
    hide FractionPart, NumberRun, NumberEnd;
    var t, n := ints + tail, |ints|;
    var m: nat := NumberRun(tail);
    NumberRunIs(t, n + m);
    NumberEndIs(t, n + m);
    rest := tail[m..];
    assert t[n + m..] == rest;
    NoFractionThere(rest);
  }

  lemma FractionNumber(ints: string, frac: string, tail: string)
    requires IsInts(ints) && IsFrac(frac) && frac != "" && forall i :: 0 <= i < |tail| ==> !IsDigit(tail[i])
    ensures var t := ints + (frac + tail); t[NumberEnd(t)..] == tail
  {
    hide FractionPart, NumberRun, NumberEnd;
    var t, n := ints + (frac + tail), |ints|;
    assert t[n] == '.' && t[n..] == frac + tail;
    NumberRunIs(t, n);
    NumberEndIs(t, n);
    FractionThere(frac, tail);
    assert t[n + |frac|..] == tail;
  }

  /** The number that is read off is at least as long as any that fits, and what is left is the end of it. */
  lemma LongestNumber(ints: string, frac: string, tail: string) returns (rest: string)
    requires IsInts(ints) && IsFrac(frac) && forall i :: 0 <= i < |tail| ==> !IsDigit(tail[i])
    ensures var t := ints + (frac + tail);
      rest == t[NumberEnd(t)..] && |rest| <= |tail| && rest == tail[|tail| - |rest|..]
  {
    hide NumberEnd, IsInts;
    if frac == "" {
      assert ints + (frac + tail) == ints + tail;
      rest := WholeNumber(ints, tail);
    } else {
      FractionNumber(ints, frac, tail);
      rest := tail;
    }
  }

  lemma NoFractionThere(s: string)
    requires forall i :: 0 <= i < |s| ==> !IsDigit(s[i])
    ensures FractionPart(s) == ""
  {
    if |s| > 1 { DigitRunIs(s[1..], 0); }
  }

  lemma FractionThere(frac: string, tail: string)
    requires IsFrac(frac) && frac != "" && forall i :: 0 <= i < |tail| ==> !IsDigit(tail[i])
    ensures FractionPart(frac + tail) == frac[1..]
  {
    var s, ds := frac + tail, frac[1..];
    assert s[1..] == ds + tail && (ds + tail)[..|ds|] == ds;
    DigitRunIs(ds + tail, |ds|);
  }

  lemma FormIsNumeral(s: string, sign: string, pad: string, ints: string, frac: string, tail: string)
    requires HasNumeralForm(s, sign, pad, ints, frac, tail)
    ensures IsNumeral(s)
  {
    hide NumberEnd, LStrip, IsSign, IsSpace, IsSignText;
    SignIff(sign);
    SignsAndPads();
    var body := ints + (frac + tail);
    StripPad(pad, body);
    var after := pad + body;
    if sign == "" {
      assert s == after;
      assert s[0] == if pad == "" then body[0] else pad[0];
      assert !IsSign(s[0]);
    } else {
      assert s[0] == sign[0] && s[1..] == after;
    }
    var rest := LongestNumber(ints, frac, tail);
    assert forall i :: 0 <= i < |rest| ==> rest[i] == tail[|tail| - |rest| + i];
  }

  lemma NumberParts(t: string) returns (ints: string, frac: string, tail: string)
    requires t != "" && IsDigit(t[0])
    ensures t == ints + (frac + tail) && IsInts(ints) && IsFrac(frac) && tail == t[NumberEnd(t)..]
  {
    hide FractionPart, NumberRun, NumberEnd;
    var n := NumberRun(t);
    NumberEndIs(t, n);
    var after := t[n..];
    var f := FractionPart(after);
    FractionIsThere(after);
    ints, frac, tail := t[..n], if f == "" then "" else after[..1 + |f|], t[NumberEnd(t)..];
    assert after == frac + tail;
    assert t[0] == t[..1][0];
    assert n > 0;
  }

  lemma LeftPad(s: string) returns (pad: string)
    ensures s == pad + LStrip(s) && forall i :: 0 <= i < |pad| ==> IsSpace(pad[i])
  {
    hide IsSpace;
    pad := s[..|s| - |LStrip(s)|];
  }

  lemma SignFirst(s: string) returns (sign: string)
    ensures s == sign + AfterSign(s) && IsSignText(sign)
  {
    hide IsSignText, IsSign;
    sign := if s != "" && IsSign(s[0]) then s[..1] else "";
    SignIff(sign);
  }

  lemma NumeralTail(s: string)
    requires IsNumeral(s)
    ensures var t := LStrip(AfterSign(s));
      && t != "" && IsDigit(t[0])
      && var tail := t[NumberEnd(t)..];
         |tail| <= 4 && forall i :: 0 <= i < |tail| ==> !IsDigit(tail[i]) && !IsSpace(tail[i])
  {
    hide LStrip, AfterSign, IsSpace, NumberEnd;
  }

  lemma NumeralParts(s: string) returns (sign: string, pad: string, t: string)
    requires IsNumeral(s)
    ensures s == sign + (pad + t) && IsSignText(sign) && (forall i :: 0 <= i < |pad| ==> IsSpace(pad[i]))
    ensures t != "" && IsDigit(t[0]) && |t[NumberEnd(t)..]| <= 4
    ensures var tail := t[NumberEnd(t)..]; forall i :: 0 <= i < |tail| ==> !IsDigit(tail[i]) && !IsSpace(tail[i])
  {
    hide *;
    sign := SignFirst(s);
    pad := LeftPad(AfterSign(s));
    t := LStrip(AfterSign(s));
    NumeralTail(s);
  }

  lemma NumeralHasForm(s: string)
    requires IsNumeral(s)
    ensures IsOneNumeral(s)
  {
    hide IsNumeral, IsSpace, NumberEnd, IsSignText, IsInts, IsFrac;
    var sign, pad, t := NumeralParts(s);
    var ints, frac, tail := NumberParts(t);
    assert HasNumeralForm(s, sign, pad, ints, frac, tail);
  }

  lemma FractionIsThere(s: string)
    ensures FractionPart(s) != "" ==> IsFrac(s[..1 + |FractionPart(s)|])
  {
    if FractionPart(s) != "" { assert s[..1 + |FractionPart(s)|][1..] == FractionPart(s); }
  }

  /** A cell holds a value exactly when, its citation marks left out, it has that form and no arrow. */
  lemma NumericCellIff(p: Patterns, cell: string)
    ensures IsNumericCell(p, cell) <==>
      var s := Strip(p.withoutMarks(cell)); '▲' !in s && '▼' !in s && IsOneNumeral(s)
  {
    hide IsNumeral, Strip, HasNumeralForm;
    var s := Strip(p.withoutMarks(cell));
    if IsNumeral(s) { NumeralHasForm(s); }
    if IsOneNumeral(s) {
      var sign: string, pad: string, ints: string, frac: string, tail: string :|
        HasNumeralForm(s, sign, pad, ints, frac, tail);
      FormIsNumeral(s, sign, pad, ints, frac, tail);
    }
  }

  // ---------- Cells with several numbers ----------

  lemma {:induction false} StartIff(s: string)
    ensures NumberStart(s).Some? <==> exists i :: 0 <= i < |s| && IsDigit(s[i])
  {
    if s != "" {
      StartIff(s[1..]);
      if i :| 0 <= i < |s| - 1 && IsDigit(s[1..][i]) { assert IsDigit(s[i + 1]); }
      if i :| 0 < i < |s| && IsDigit(s[i]) { assert s[1..][i - 1] == s[i]; }
    }
  }

  /** A cell holds several numbers exactly when a digit stands behind its first number. */
  lemma SeveralNumbersIff(s: string)
    requires NumberStart(s).Some?
    ensures var k := NumberStart(s).value;
      var body := if s[k] == '-' then s[k + 1..] else s[k..];
      CountNumbers(s) > 1 <==> exists i :: NumberEnd(body) <= i < |body| && IsDigit(body[i])
  {
    hide NumberStart, NumberEnd, CountNumbers;
    CountStep(s);
    var k := NumberStart(s).value;
    var body := if s[k] == '-' then s[k + 1..] else s[k..];
    var rest := body[NumberEnd(body)..];
    NoNumberCounted(rest);
    assert forall i :: NumberEnd(body) <= i < |body| ==> body[i] == rest[i - NumberEnd(body)];
    if i :| 0 <= i < |rest| && IsDigit(rest[i]) { assert body[NumberEnd(body) + i] == rest[i]; }
  }

  lemma CountStep(s: string)
    requires NumberStart(s).Some?
    ensures var k := NumberStart(s).value;
      var body := if s[k] == '-' then s[k + 1..] else s[k..];
      CountNumbers(s) == 1 + CountNumbers(body[NumberEnd(body)..])
  {
    hide NumberStart, NumberEnd;
  }

  lemma NoNumberCounted(s: string)
    ensures CountNumbers(s) == 0 <==> forall i :: 0 <= i < |s| ==> !IsDigit(s[i])
  {
    StartIff(s);
    hide NumberStart, NumberEnd;
  }

  // ---------- Headings ----------

  /** The parentheses at the end of a heading hold its unit, the text before them is its name. */
  lemma HeadingParts(p: Patterns, header: string)
    requires ArePatterns(p)
    ensures var (name, unit) := SplitUnit(p, header);
      var m := p.trailingParen(header);
      if m.None? then name == Strip(header) && unit == ""
      else
        && unit == Strip(m.value.1)
        && name == if Strip(header[..m.value.0]) == "" then Strip(header) else Strip(header[..m.value.0])
  {
    hide Strip;
  }

  /** Such a unit of a row counts when it has one to six characters and no white space. */
  lemma RowUnitIs(p: Patterns, text: string)
    requires ArePatterns(p)
    ensures UnitTail(p, text) ==
      var m := p.trailingParen(text);
      if m.None? then ""
      else
        var unit := Strip(m.value.1);
        if |unit| <= 6 && forall i :: 0 <= i < |unit| ==> !IsSpace(unit[i]) then unit else ""
  {
    HeadingParts(p, text);
    hide Strip, SplitUnit, IsSpace, ArePatterns;
  }
}
