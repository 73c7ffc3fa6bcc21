/** Which fields a fence body has, said of its lines (src/core/charts.py: _parse_fields). */
module FieldReading {
  import opened Text
  import opened Charts

  // ---------- One line ----------

  /** A key of small letters and underscores, blanks, a colon, and the rest. */
  ghost predicate HasForm(s: string, key: string, pad: string, rest: string) {
    && s == key + pad + ":" + rest && key != ""
    && (forall i :: 0 <= i < |key| ==> 'a' <= key[i] <= 'z' || key[i] == '_')
    && (forall i :: 0 <= i < |pad| ==> pad[i] in " \t")
  }

  /** The line reads "key : value", outer white space aside. */
  ghost predicate IsFieldLine(line: string, key: string, value: string) {
    exists pad: string, rest: string :: HasForm(Strip(line), key, pad, rest) && value == Strip(rest)
  }

  lemma {:induction false} SkipBlanksIs(pad: string, rest: string)
    requires (forall i :: 0 <= i < |pad| ==> IsBlank(pad[i])) && (rest == "" || !IsBlank(rest[0]))
    ensures SkipBlanks(pad + rest) == rest
  {
    if pad == "" {
      assert pad + rest == rest;
    } else {
      assert (pad + rest)[0] == pad[0] && (pad + rest)[1..] == pad[1..] + rest;
      SkipBlanksIs(pad[1..], rest);
    }
  }

  lemma {:induction false} SkippedAre(s: string)
    ensures |SkipBlanks(s)| <= |s| && s[|s| - |SkipBlanks(s)|..] == SkipBlanks(s)
    ensures forall i :: 0 <= i < |s| - |SkipBlanks(s)| ==> IsBlank(s[i])
  {
    if s != "" && IsBlank(s[0]) {
      SkippedAre(s[1..]);
      var n := |s| - |SkipBlanks(s)|;
      forall i | 0 <= i < n ensures IsBlank(s[i]) { if i > 0 { assert s[i] == s[1..][i - 1]; } }
    }
  }

  lemma FieldLineIsRead(line: string, key: string, pad: string, rest: string)
    requires HasForm(Strip(line), key, pad, rest)
    ensures ParseField(line) == Some(Field(key, Strip(rest)))
  {
    hide Strip, KeyRun, SkipBlanks;
    var s := Strip(line);
    var after := pad + (":" + rest);
    assert s == key + after && s[|key|..] == after && s[..|key|] == key;
    NoKeyChars();
    assert after[0] == if pad == "" then ':' else pad[0];
    KeyRunIs(s, |key|);
    SkipBlanksIs(pad, ":" + rest);
    assert (":" + rest)[1..] == rest;
  }

  lemma ReadLineHasForm(line: string) returns (pad: string, rest: string)
    requires ParseField(line).Some?
    ensures var f := ParseField(line).value; HasForm(Strip(line), f.key, pad, rest) && f.value == Strip(rest)
  {
    hide Strip, KeyRun, SkipBlanks, IsKeyChar;
    var s := Strip(line);
    var n := KeyRun(s);
    var tail := s[n..];
    var after := SkipBlanks(tail);
    SkippedAre(tail);
    pad, rest := tail[..|tail| - |after|], after[1..];
    PartsGiveForm(s, n, tail, after, pad, rest);
  }

  lemma PartsGiveForm(s: string, n: nat, tail: string, after: string, pad: string, rest: string)
    requires 0 < n <= |s| && tail == s[n..] && (forall i :: 0 <= i < n ==> IsKeyChar(s[i]))
    requires |after| <= |tail| && after == tail[|tail| - |after|..] && pad == tail[..|tail| - |after|]
    requires forall i :: 0 <= i < |pad| ==> IsBlank(tail[i])
    requires after != "" && after[0] == ':' && rest == after[1..]
    ensures HasForm(s, s[..n], pad, rest)
  {
    assert s == s[..n] + pad + ":" + rest;
  }

  lemma NoKeyChars()
    ensures !IsKeyChar(':') && !IsBlank(':') && forall c :: IsBlank(c) ==> !IsKeyChar(c)
  {
  }

  lemma KeyRunIs(s: string, n: nat)
    requires n < |s| && (forall i :: 0 <= i < n ==> IsKeyChar(s[i])) && !IsKeyChar(s[n])
    ensures KeyRun(s) == n
  {
    hide IsKeyChar;
  }

  /** A line gives a field exactly when it has that form. */
  lemma ParseFieldIff(line: string, key: string, value: string)
    ensures ParseField(line) == Some(Field(key, value)) <==> IsFieldLine(line, key, value)
  {
    hide HasForm, ParseField, Strip;
    if ParseField(line) == Some(Field(key, value)) {
      var pad, rest := ReadLineHasForm(line);
    }
    if IsFieldLine(line, key, value) {
      var pad: string, rest: string :| HasForm(Strip(line), key, pad, rest) && value == Strip(rest);
      FieldLineIsRead(line, key, pad, rest);
    }
  }

  /** Small letters, character by character. */
  lemma {:induction false} LowerIs(s: string)
    ensures |Lower(s)| == |s|
    ensures forall i :: 0 <= i < |s| ==>
      Lower(s)[i] == if 'A' <= s[i] <= 'Z' then (s[i] as int + 32) as char else s[i]
  {
    if s != "" {
      LowerIs(s[1..]);
      forall i | 0 < i < |s|
        ensures Lower(s)[i] == if 'A' <= s[i] <= 'Z' then (s[i] as int + 32) as char else s[i]
      {
        assert s[i] == s[1..][i - 1] && Lower(s)[i] == Lower(s[1..])[i - 1];
      }
    }
  }

  // ---------- All lines ----------

  /** The line "key: |" opens a block. */
  predicate Opens(line: string) {
    ParseField(line).Some? && ParseField(line).value.value == "|"
  }

  /** Line i belongs to the block of an earlier line: from that line on all lines are blank or indented. */
  ghost predicate InBlock(lines: seq<string>, i: nat)
    decreases i
  {
    exists j: nat :: j < i < |lines| && Opens(lines[j]) && Continued(lines, j, i) && !InBlock(lines, j)
  }

  ghost predicate Continued(lines: seq<string>, j: nat, i: nat)
    requires i < |lines|
  {
    forall k :: j < k <= i ==> ContinuesBlock(lines[k])
  }

  /** Line i stands outside blocks and gives a field. */
  ghost predicate IsHead(lines: seq<string>, i: nat) {
    i < |lines| && !InBlock(lines, i) && ParseField(lines[i]).Some?
  }

  /** It gives the single field key. */
  ghost predicate Gives(lines: seq<string>, i: nat, key: string) {
    IsHead(lines, i)
    && var field := ParseField(lines[i]).value; field.key == key && (key != "series" || field.value == "|")
  }

  /** The value a head gives: what stands behind the colon, or the lines of its block, trimmed. */
  function ValueAt(lines: seq<string>, i: nat): string
    requires i < |lines| && ParseField(lines[i]).Some?
  {
    var value := ParseField(lines[i]).value.value;
    if value == "|" then Strip(Join(StripAll(lines[i + 1..][..BlockLength(lines[i + 1..])]), "\n")) else value
  }

  /** The values of the series lines from line i on. */
  ghost function SeriesFrom(lines: seq<string>, i: nat): seq<string>
    decreases |lines| - i
  {
    if i >= |lines| then []
    else
      (if IsHead(lines, i) && ParseField(lines[i]).value.key == "series" && ParseField(lines[i]).value.value != "|"
       then [ParseField(lines[i]).value.value] else [])
      + SeriesFrom(lines, i + 1)
  }

  lemma AfterPlain(lines: seq<string>, i: nat)
    requires i < |lines| && !InBlock(lines, i) && !Opens(lines[i])
    ensures !InBlock(lines, i + 1)
  {
    hide ContinuesBlock, Opens;
    assert forall j: nat :: j < i && i + 1 < |lines| && Continued(lines, j, i + 1) ==> Continued(lines, j, i);
    hide Continued;
  }

  lemma AfterOpening(lines: seq<string>, i: nat, n: nat)
    requires i < |lines| && !InBlock(lines, i) && Opens(lines[i]) && n == BlockLength(lines[i + 1..])
    ensures i + 1 + n <= |lines| && !InBlock(lines, i + 1 + n)
    ensures forall k: nat :: i < k <= i + n ==> InBlock(lines, k)
  {
    hide ContinuesBlock, Opens;
    var rest := lines[i + 1..];
    assert forall k :: i < k < |lines| ==> lines[k] == rest[k - i - 1];
    forall k: nat | i < k <= i + n ensures InBlock(lines, k) {
      forall l | i < l <= k ensures ContinuesBlock(lines[l]) { assert rest[l - i - 1] == lines[l]; }
    }
    if i + 1 + n < |lines| { assert lines[i + 1 + n] == rest[n]; }
  }

  lemma SkipBlock(lines: seq<string>, i: nat, j: nat)
    requires i <= j <= |lines| && forall k: nat :: i <= k < j ==> InBlock(lines, k)
    ensures SeriesFrom(lines, i) == SeriesFrom(lines, j)
    decreases j - i
  {
    hide *;
    if i < j {
      SeriesStep(lines, i);
      NoHeadInBlock(lines, i);
      SkipBlock(lines, i + 1, j);
      assert [] + SeriesFrom(lines, i + 1) == SeriesFrom(lines, i + 1);
    }
  }

  lemma NoHeadInBlock(lines: seq<string>, i: nat)
    requires InBlock(lines, i)
    ensures !IsHead(lines, i)
  {
  }

  lemma SeriesStep(lines: seq<string>, i: nat)
    ensures SeriesFrom(lines, i) ==
      if i >= |lines| then []
      else (if IsHead(lines, i) && ParseField(lines[i]).value.key == "series" && ParseField(lines[i]).value.value != "|"
            then [ParseField(lines[i]).value.value] else [])
           + SeriesFrom(lines, i + 1)
  {
  }

  /** No head from line i on gives the key. */
  ghost predicate NoneFrom(lines: seq<string>, i: nat, key: string) {
    forall k: nat :: k >= i ==> !Gives(lines, k, key)
  }

  /** What the parser has when it is through, from line i with the fields f. */
  ghost predicate Completes(lines: seq<string>, i: nat, f: Fields, r: Fields) {
    && r.series == f.series + SeriesFrom(lines, i)
    && (forall key :: NoneFrom(lines, i, key) ==> Lookup(r.single, key) == Lookup(f.single, key)
                                                  && (key in r.single <==> key in f.single))
    && (forall k: nat, key :: k >= i && Gives(lines, k, key) && NoneFrom(lines, k + 1, key) ==>
          key in r.single && r.single[key] == ValueAt(lines, k))
  }

  /** f' is f with what line i gives. */
  ghost predicate Takes(lines: seq<string>, i: nat, f: Fields, f': Fields) {
    if IsHead(lines, i) && Gives(lines, i, ParseField(lines[i]).value.key) then
      f'.single == f.single[ParseField(lines[i]).value.key := ValueAt(lines, i)]
    else f'.single == f.single
  }

  lemma GivesOne(lines: seq<string>, i: nat, key: string)
    ensures Gives(lines, i, key) ==> IsHead(lines, i) && key == ParseField(lines[i]).value.key
  {
    hide InBlock, ParseField;
  }

  lemma TakenAt(lines: seq<string>, i: nat, f: Fields, f': Fields, key: string)
    requires Takes(lines, i, f, f')
    ensures Gives(lines, i, key) ==> i < |lines| && ParseField(lines[i]).Some?
                                     && key in f'.single && f'.single[key] == ValueAt(lines, i)
    ensures !Gives(lines, i, key) ==>
      (key in f'.single <==> key in f.single) && Lookup(f'.single, key) == Lookup(f.single, key)
  {
    hide InBlock, ParseField, ValueAt;
    GivesOne(lines, i, key);
  }

  /** One head, and the lines of its block. */
  lemma StepCompletes(lines: seq<string>, i: nat, j: nat, f: Fields, f': Fields, r: Fields)
    requires i < j && (forall k: nat :: i < k < j ==> !IsHead(lines, k)) && Takes(lines, i, f, f')
    requires f'.series + SeriesFrom(lines, j) == f.series + SeriesFrom(lines, i) && Completes(lines, j, f', r)
    ensures Completes(lines, i, f, r)
  {
    hide InBlock, Takes, SeriesFrom, ValueAt, ParseField, Lookup;
    forall k: nat, key | i < k < j ensures !Gives(lines, k, key) { GivesOne(lines, k, key); }
    forall key | NoneFrom(lines, i, key)
      ensures Lookup(r.single, key) == Lookup(f.single, key) && (key in r.single <==> key in f.single)
    {
      TakenAt(lines, i, f, f', key);
      assert NoneFrom(lines, j, key);
    }
    forall k: nat, key | k >= i && Gives(lines, k, key) && NoneFrom(lines, k + 1, key)
      ensures key in r.single && r.single[key] == ValueAt(lines, k)
    {
      TakenAt(lines, i, f, f', key);
      if k == i {
        assert NoneFrom(lines, j, key);
        LookupIs(r.single, f'.single, key);
      }
    }
  }

  lemma LookupIs(m: map<string, string>, m': map<string, string>, key: string)
    requires Lookup(m, key) == Lookup(m', key) && key in m && key in m'
    ensures m[key] == m'[key]
  {
  }

  lemma BlockStep(lines: seq<string>, i: nat, f: Fields, f': Fields, n: nat)
    requires i < |lines| && !InBlock(lines, i) && Opens(lines[i]) && n == BlockLength(lines[i + 1..])
    requires f' == f.(single := f.single[ParseField(lines[i]).value.key := ValueAt(lines, i)])
    ensures i + 1 + n <= |lines| && !InBlock(lines, i + 1 + n)
    ensures (forall k: nat :: i < k < i + 1 + n ==> !IsHead(lines, k)) && Takes(lines, i, f, f')
    ensures f'.series + SeriesFrom(lines, i + 1 + n) == f.series + SeriesFrom(lines, i)
  {
    hide InBlock, ValueAt, ParseField, BlockLength, SeriesFrom;
    AfterOpening(lines, i, n);
    SeriesStep(lines, i);
    SkipBlock(lines, i + 1, i + 1 + n);
    assert [] + SeriesFrom(lines, i + 1) == SeriesFrom(lines, i + 1);
  }

  lemma PlainStep(lines: seq<string>, i: nat, f: Fields, f': Fields)
    requires i < |lines| && !InBlock(lines, i) && !Opens(lines[i])
    requires f' == PlainTaken(ParseField(lines[i]), f)
    ensures !InBlock(lines, i + 1) && Takes(lines, i, f, f')
    ensures f'.series + SeriesFrom(lines, i + 1) == f.series + SeriesFrom(lines, i)
  {
    hide InBlock, ParseField, BlockLength, SeriesFrom;
    AfterPlain(lines, i);
    SeriesStep(lines, i);
    var rest := SeriesFrom(lines, i + 1);
    assert [] + rest == rest;
    assert forall v: string :: f.series + [v] + rest == f.series + ([v] + rest);
  }

  lemma NothingLeft(lines: seq<string>, f: Fields)
    ensures Completes(lines, |lines|, f, FieldsFrom(lines[|lines|..], f))
  {
    hide InBlock, FieldsFrom, ValueAt, ParseField;
    NoMoreFields(lines[|lines|..], f);
    SeriesStep(lines, |lines|);
    assert f.series + [] == f.series;
  }

  lemma {:induction false} FieldsComplete(lines: seq<string>, i: nat, f: Fields)
    requires i <= |lines| && !InBlock(lines, i)
    ensures Completes(lines, i, f, FieldsFrom(lines[i..], f))
    decreases |lines| - i
  {
    hide *;
    if i == |lines| {
      NothingLeft(lines, f);
    } else {
      OpensIff(lines[i]);
      if Opens(lines[i]) {
        var n, f' := BlockLength(lines[i + 1..]),
            f.(single := f.single[ParseField(lines[i]).value.key := ValueAt(lines, i)]);
        BlockStep(lines, i, f, f', n);
        BlockFields(lines, i, f, f', n);
        FieldsComplete(lines, i + 1 + n, f');
        StepCompletes(lines, i, i + 1 + n, f, f', FieldsFrom(lines[i..], f));
      } else {
        var f' := PlainTaken(ParseField(lines[i]), f);
        PlainStep(lines, i, f, f');
        PlainFields(lines, i, f, f');
        FieldsComplete(lines, i + 1, f');
        StepCompletes(lines, i, i + 1, f, f', FieldsFrom(lines[i..], f));
      }
    }
  }

  /** The fields with those of a line that opens no block. */
  function PlainTaken(field: Option<Field>, f: Fields): Fields {
    if field.None? then f
    else if field.value.key == "series" then f.(series := f.series + [field.value.value])
    else f.(single := f.single[field.value.key := field.value.value])
  }

  lemma BlockFields(lines: seq<string>, i: nat, f: Fields, f': Fields, n: nat)
    requires i < |lines| && Opens(lines[i]) && n == BlockLength(lines[i + 1..])
    requires f' == f.(single := f.single[ParseField(lines[i]).value.key := ValueAt(lines, i)])
    ensures FieldsFrom(lines[i..], f) == FieldsFrom(lines[i + 1 + n..], f')
  {
    hide FieldsFrom, ValueAt, ParseField, BlockLength, Strip, Join;
    FieldsStep(lines, i, f);
    BlockValue(lines, i);
  }

  lemma PlainFields(lines: seq<string>, i: nat, f: Fields, f': Fields)
    requires i < |lines| && !Opens(lines[i]) && f' == PlainTaken(ParseField(lines[i]), f)
    ensures FieldsFrom(lines[i..], f) == FieldsFrom(lines[i + 1..], f')
  {
    hide FieldsFrom, ParseField, BlockLength, Strip, Join;
    FieldsStep(lines, i, f);
  }

  lemma OpensIff(line: string)
    ensures Opens(line) <==> ParseField(line).Some? && ParseField(line).value.value == "|"
  {
  }

  lemma BlockValue(lines: seq<string>, i: nat)
    requires i < |lines| && ParseField(lines[i]).Some? && ParseField(lines[i]).value.value == "|"
    ensures var n := BlockLength(lines[i + 1..]);
      ValueAt(lines, i) == Strip(Join(StripAll(lines[i + 1..i + 1 + n]), "\n"))
  {
    hide Strip, Join, BlockLength, ParseField;
    var n := BlockLength(lines[i + 1..]);
    assert lines[i + 1..][..n] == lines[i + 1..i + 1 + n];
  }

  /** What a body has for a key: nothing without a line that gives it, else what the last such line gives;
      and its series, one for each series line, in order. */
  lemma FieldsAre(lines: seq<string>, key: string)
    ensures var f := FieldsFrom(lines, Fields(map[], []));
      && f.series == SeriesFrom(lines, 0)
      && (key in f.single <==> exists k: nat :: Gives(lines, k, key))
      && forall k: nat :: Gives(lines, k, key) && NoneFrom(lines, k + 1, key) ==> f.single[key] == ValueAt(lines, k)
  {
    var empty := Fields(map[], []);
    var f := FieldsFrom(lines, empty);
    assert lines[0..] == lines;
    assert !InBlock(lines, 0);
    hide FieldsFrom, SeriesFrom, ValueAt, Gives, Lookup;
    FieldsComplete(lines, 0, empty);
    if k: nat :| Gives(lines, k, key) {
      var l := LastGiver(lines, k, key);
    } else {
      assert NoneFrom(lines, 0, key);
    }
  }

  lemma LastGiver(lines: seq<string>, k: nat, key: string) returns (l: nat)
    requires Gives(lines, k, key)
    ensures Gives(lines, l, key) && NoneFrom(lines, l + 1, key)
    decreases |lines| - k
  {
    GivesInside(lines, key);
    hide Gives;
    if NoneFrom(lines, k + 1, key) {
      l := k;
    } else {
      var m: nat :| m >= k + 1 && Gives(lines, m, key);
      l := LastGiver(lines, m, key);
    }
  }

  lemma GivesInside(lines: seq<string>, key: string)
    ensures forall k: nat :: Gives(lines, k, key) ==> k < |lines|
  {
    hide InBlock, ParseField;
  }
}
