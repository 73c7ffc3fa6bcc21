/** How the lists and lines that to_fence prints are split and read again. */
module ChartFields {
  import opened Text
  import opened Charts

  // ---------- Lists ----------

  ghost predicate ListParts(parts: seq<string>, sep: char) {
    forall i :: 0 <= i < |parts| ==> sep !in parts[i] && Strip(parts[i]) != ""
  }

  lemma PartsCons(p: string, rest: seq<string>)
    ensures NonEmptyParts([p] + rest) == (if Strip(p) == "" then [] else [Strip(p)]) + NonEmptyParts(rest)
    ensures StripAll([p] + rest) == [Strip(p)] + StripAll(rest)
  {
    assert ([p] + rest)[1..] == rest;
  }

  lemma PaddedList(s: string, sep: char)
    requires sep != ' '
    ensures SplitList(" " + s, sep) == SplitList(s, sep)
  {
    hide Split, NonEmptyParts, StripAll, Strip;
    var parts := Split(s, sep);
    assert (" " + s)[1..] == s;
    SplitCons(" " + s, sep);
    StripPadded(' ', parts[0], ' ');
    PartsCons(" " + parts[0], parts[1..]);
    PartsCons(parts[0], parts[1..]);
    assert parts == [parts[0]] + parts[1..];
    assert [' '] + parts[0] == " " + parts[0];
  }

  /** Joining parts with a separator that has white space around it, and splitting again, gives the
      trimmed parts. */
  lemma {:induction false} SplitJoined(parts: seq<string>, pad: string, sep: char)
    requires parts != [] && ListParts(parts, sep) && sep != ' ' && (pad == "" || pad == " ")
    ensures SplitList(Join(parts, pad + [sep] + " "), sep) == StripAll(parts)
    decreases |parts|
  {
    hide Split, Join, NonEmptyParts, StripAll, Strip, SplitList;
    var p, tail, glue := parts[0], parts[1..], pad + [sep] + " ";
    assert parts == [p] + tail;
    JoinCons(p, tail, glue);
    if tail == [] {
      OnePart(p, sep);
    } else {
      assert forall i :: 0 <= i < |tail| ==> tail[i] == parts[i + 1];
      SplitJoined(tail, pad, sep);
      FirstPart(p, pad, sep, Join(tail, glue), tail);
    }
  }

  lemma OnePart(p: string, sep: char)
    requires sep !in p && Strip(p) != ""
    ensures SplitList(p, sep) == StripAll([p])
  {
    hide Split, NonEmptyParts, StripAll, Strip;
    SplitOne(p, sep);
    PartsCons(p, []);
    NoParts();
    assert [p] + [] == [p];
  }

  lemma FirstPart(p: string, pad: string, sep: char, rest: string, tail: seq<string>)
    requires sep !in p && Strip(p) != "" && sep != ' ' && (pad == "" || pad == " ")
    requires SplitList(rest, sep) == StripAll(tail)
    ensures SplitList(p + (pad + [sep] + " ") + rest, sep) == StripAll([p] + tail)
  {
    hide Split, NonEmptyParts, StripAll, Strip;
    assert p + (pad + [sep] + " ") + rest == (p + pad) + [sep] + (" " + rest);
    SplitPrefix(p + pad, sep, " " + rest);
    PaddedList(rest, sep);
    PartsCons(p + pad, Split(" " + rest, sep));
    StripPadded(' ', p, ' ');
    assert p + pad == if pad == "" then p else p + [' '];
    PartsCons(p, tail);
  }

  lemma NoParts()
    ensures NonEmptyParts([]) == [] && StripAll([]) == []
  {
  }

  lemma StripAllTrimmed(parts: seq<string>)
    requires forall i :: 0 <= i < |parts| ==> Trimmed(parts[i])
    ensures StripAll(parts) == parts
  {
    hide Strip, Trimmed;
    forall i | 0 <= i < |parts| ensures Strip(parts[i]) == parts[i] { StripTrimmed(parts[i]); }
  }

  /** A join keeps the first character of its first part and the last character of its last. */
  lemma {:induction false} JoinEnds(parts: seq<string>, sep: string)
    requires parts != [] && forall i :: 0 <= i < |parts| ==> parts[i] != ""
    ensures var j, last := Join(parts, sep), parts[|parts| - 1];
      j != "" && j[0] == parts[0][0] && j[|j| - 1] == last[|last| - 1] && (|parts| > 1 ==> |j| > 1)
    decreases |parts|
  {
    hide Join;
    var p, tail := parts[0], parts[1..];
    assert parts == [p] + tail;
    JoinCons(p, tail, sep);
    if tail != [] {
      assert forall i :: 0 <= i < |tail| ==> tail[i] == parts[i + 1];
      JoinEnds(tail, sep);
    }
  }

  lemma JoinTrimmed(parts: seq<string>, sep: string)
    requires parts != [] && forall i :: 0 <= i < |parts| ==> parts[i] != "" && Trimmed(parts[i])
    ensures Trimmed(Join(parts, sep)) && Join(parts, sep) != "" && (|parts| > 1 ==> Join(parts, sep) != "|")
  {
    hide Join;
    JoinEnds(parts, sep);
  }

  // ---------- One field line ----------

  predicate IsKey(key: string) {
    key != "" && forall i :: 0 <= i < |key| ==> IsKeyChar(key[i])
  }

  lemma KeyRunIs(s: string, n: nat)
    requires n <= |s| && (forall i :: 0 <= i < n ==> IsKeyChar(s[i])) && (n < |s| ==> !IsKeyChar(s[n]))
    ensures KeyRun(s) == n
  {
  }

  lemma NoBlanks(rest: string)
    ensures SkipBlanks(":" + rest) == ":" + rest
  {
  }

  lemma KeyThen(key: string, rest: string)
    requires IsKey(key)
    ensures KeyRun(key + ":" + rest) == |key| && SkipBlanks((key + ":" + rest)[|key|..]) == ":" + rest
  {
    hide KeyRun, SkipBlanks;
    var s := key + ":" + rest;
    assert s[|key|..] == ":" + rest;
    NoBlanks(rest);
    KeyRunIs(s, |key|);
  }

  lemma FieldOf(line: string, key: string, rest: string)
    requires IsKey(key) && Strip(line) == key + ":" + rest
    ensures ParseField(line) == Some(Field(key, Strip(rest)))
  {
    hide Strip, KeyRun, SkipBlanks;
    KeyThen(key, rest);
    assert (key + ":" + rest)[..|key|] == key && (":" + rest)[1..] == rest;
  }

  lemma KeyCharIsInside(c: char)
    ensures IsKeyChar(c) ==> !IsSpace(c) && !IsBlank(c)
    ensures !IsSpace(':')
  {
  }

  lemma KeyFirst(key: string, rest: string)
    requires IsKey(key) && rest != "" && !IsSpace(rest[|rest| - 1])
    ensures Trimmed(key + rest)
  {
    hide IsSpace, IsKeyChar;
    KeyCharIsInside(key[0]);
    assert IsKeyChar(key[0]) && (key + rest)[0] == key[0] && (key + rest)[|key + rest| - 1] == rest[|rest| - 1];
  }

  lemma KeyAlone(key: string)
    requires IsKey(key)
    ensures Strip(key + ": ") == key + ":"
  {
    var s := key + ":";
    assert Trimmed(s) by { KeyCharIsInside(':'); KeyFirst(key, ":"); }
    hide *;
    StripTrimmed(s);
    SpaceIsSpace();
    StripPadded(' ', s, ' ');
    assert key + ": " == s + [' '];
  }

  /** The line without its outer white space. */
  lemma KeyStart(key: string, value: string)
    requires IsKey(key) && Trimmed(value)
    ensures Strip(key + ": " + value) == key + ":" + (if value == "" then "" else " " + value)
  {
    hide Strip, IsSpace, IsKey;
    if value == "" {
      KeyAlone(key);
      assert key + ": " + value == key + ": " && key + ":" + "" == key + ":";
    } else {
      var rest := ": " + value;
      assert rest[|rest| - 1] == value[|value| - 1];
      KeyFirst(key, rest);
      hide Trimmed;
      StripTrimmed(key + rest);
      assert key + ": " + value == key + rest && key + ":" + (" " + value) == key + rest;
    }
  }

  lemma ValueStart(value: string)
    requires Trimmed(value)
    ensures Strip(if value == "" then "" else " " + value) == value
  {
    hide *;
    SpaceIsSpace();
    StripTrimmed(value);
    StripPadded(' ', value, ' ');
    assert value != "" ==> " " + value == [' '] + value;
  }

  lemma KeyIsNoBlock(key: string, value: string)
    requires IsKey(key) && Strip(key + ": " + value) != ""
    ensures !ContinuesBlock(key + ": " + value)
  {
    hide Strip, IsKeyChar, IsBlank;
    KeyCharIsInside(key[0]);
    assert IsKeyChar(key[0]) && (key + ": " + value)[0] == key[0];
  }

  lemma FieldLine(key: string, value: string)
    requires IsKey(key) && Trimmed(value)
    ensures ParseField(key + ": " + value) == Some(Field(key, value))
    ensures !ContinuesBlock(key + ": " + value)
  {
    hide *;
    KeyStart(key, value);
    ValueStart(value);
    FieldOf(key + ": " + value, key, if value == "" then "" else " " + value);
    assert key + ":" + (if value == "" then "" else " " + value) != "";
    KeyIsNoBlock(key, value);
  }

  // ---------- Reading field after field ----------

  /** The value that is kept for a one-line field: "|" announces a block. */
  function Kept(value: string): (v: string)
    ensures Trimmed(value) ==> Trimmed(v)
  {
    if value == "|" then "" else value
  }

  lemma EmptyBlock(lines: seq<string>)
    requires lines == [] || !ContinuesBlock(lines[0])
    ensures BlockLength(lines) == 0 && Strip(Join(StripAll(lines[..0]), "\n")) == ""
  {
    assert StripAll(lines[..0]) == [];
  }

  lemma ReadSingle(key: string, value: string, lines: seq<string>, f: Fields)
    requires IsKey(key) && key != "series" && Trimmed(value)
    requires lines == [] || !ContinuesBlock(lines[0])
    ensures FieldsFrom([key + ": " + value] + lines, f) == FieldsFrom(lines, f.(single := f.single[key := Kept(value)]))
  {
    hide ParseField, BlockLength, Strip, Join, StripAll, ContinuesBlock, FieldsFrom, Trimmed;
    var all := [key + ": " + value] + lines;
    FieldsStep(all, 0, f);
    FieldLine(key, value);
    EmptyBlock(lines);
    assert all[0..] == all && all[1..] == lines && all[1..1] == lines[..0];
  }

  lemma SeriesIsKey()
    ensures IsKey("series")
  {
  }

  lemma ReadSeries(value: string, lines: seq<string>, f: Fields)
    requires Trimmed(value) && value != "|"
    ensures FieldsFrom(["series: " + value] + lines, f) == FieldsFrom(lines, f.(series := f.series + [value]))
  {
    hide *;
    var all := ["series: " + value] + lines;
    FieldsStep(all, 0, f);
    SeriesIsKey();
    assert "series" + ": " + value == "series: " + value;
    FieldLine("series", value);
    assert all[0..] == all && all[0 + 1..] == lines;
  }

  /** Indented lines are never read as fields: they belong to the block. */
  lemma ReadTable(lines: seq<string>, f: Fields)
    ensures FieldsFrom(["table: |"] + Indented(lines), f)
         == f.(single := f.single["table" := Strip(Join(StripAll(lines), "\n"))])
  {
    hide ParseField, BlockLength, Strip, Join, StripAll, ContinuesBlock, FieldsFrom, Trimmed, Indented;
    var all := ["table: |"] + Indented(lines);
    FieldsStep(all, 0, f);
    assert IsKey("table") && "table" + ": " + "|" == "table: |";
    BarTrimmed();
    FieldLine("table", "|");
    IndentedIsBlock(lines);
    BlockLengthIs(Indented(lines), |lines|);
    assert all[0..] == all && all[1..] == Indented(lines) && all[1..1 + |lines|] == Indented(lines);
    NoMoreFields([], f.(single := f.single["table" := Strip(Join(StripAll(lines), "\n"))]));
    assert all[1 + |lines|..] == [];
  }

  lemma BarTrimmed()
    ensures Trimmed("|")
  {
  }

  lemma IndentedIsBlock(lines: seq<string>)
    ensures forall i :: 0 <= i < |lines| ==> ContinuesBlock(Indented(lines)[i])
    ensures StripAll(Indented(lines)) == StripAll(lines)
  {
    hide Strip;
    forall i | 0 <= i < |lines| ensures Strip(Indented(lines)[i]) == Strip(lines[i]) {
      StripPadded(' ', lines[i], ' ');
      StripPadded(' ', [' '] + lines[i], ' ');
      assert "  " + lines[i] == [' '] + ([' '] + lines[i]);
    }
  }
}
