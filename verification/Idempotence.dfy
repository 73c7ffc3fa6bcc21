/** Converting a converted text changes nothing, and conversion keeps the fences of a text balanced. */
module Idempotence {
  import opened Text
  import opened Charts
  import opened ChartFields
  import opened ChartRoundTrip
  import opened Tables
  import opened Blocks
  import opened BlockRanges
  import opened Conversion

  // ---------- Back quotes ----------

  lemma FenceInSlice(s: string, i: nat, j: nat)
    requires i <= j <= |s| && HasFence(s[i..j])
    ensures HasFence(s)
  {
    var t := s[i..j];
    var k :| 0 <= k < |t| - 2 && t[k] == '`' && t[k + 1] == '`' && t[k + 2] == '`';
    assert s[i + k] == '`' && s[i + k + 1] == '`' && s[i + k + 2] == '`';
  }

  lemma {:induction false} PartIsSlice(s: string, c: char, k: nat) returns (i: nat, j: nat)
    requires k < |Split(s, c)|
    ensures i <= j <= |s| && Split(s, c)[k] == s[i..j] && (k == 0 ==> i == 0)
  {
    hide Split;
    if s == "" {
      SplitOne(s, c);
      i, j := 0, 0;
    } else {
      SplitCons(s, c);
      if k == 0 && s[0] == c {
        i, j := 0, 0;
      } else if k == 0 {
        i, j := PartIsSlice(s[1..], c, 0);
        j := j + 1;
        assert s[0..j] == [s[0]] + s[1..][0..j - 1];
      } else {
        i, j := PartIsSlice(s[1..], c, if s[0] == c then k - 1 else k);
        i, j := i + 1, j + 1;
        assert s[i..j] == s[1..][i - 1..j - 1];
      }
    }
  }

  lemma FenceLineHasFence(line: string)
    requires IsFenceLine(line)
    ensures HasFence(line)
  {
    hide LStrip;
    var t := LStrip(line);
    assert HasFence(t) && line[|line| - |t|..|line|] == t;
    FenceInSlice(line, |line| - |t|, |line|);
  }

  lemma IndentedFenceLine(line: string)
    requires IsFenceLine("  " + line)
    ensures HasFence(line)
  {
    FenceLineHasFence("  " + line);
    var s := "  " + line;
    var k :| 0 <= k < |s| - 2 && s[k] == '`' && s[k + 1] == '`' && s[k + 2] == '`';
    assert line[k - 2] == '`' && line[k - 1] == '`' && line[k] == '`';
  }

  /** The lines of the stored table hold no fence, for a block without one. */
  lemma StoredLinesHaveNoFence(text: string)
    requires !HasFence(text)
    ensures forall k :: 0 <= k < |SplitLines(Strip(text))| ==> !IsFenceLine("  " + SplitLines(Strip(text))[k])
  {
    hide Split, HasFence, IsFenceLine, Strip;
    var core := Strip(text);
    var a, b := StripSplits(text);
    forall k | 0 <= k < |SplitLines(core)| ensures !IsFenceLine("  " + SplitLines(core)[k]) {
      var i, j := PartIsSlice(core, '\n', k);
      if IsFenceLine("  " + SplitLines(core)[k]) {
        IndentedFenceLine(SplitLines(core)[k]);
        FenceInSlice(core, i, j);
        FenceInSlice(text, a, b);
        assert false;
      }
    }
  }

  lemma KeyLineIsNoFence(key: string, value: string)
    requires IsKey(key)
    ensures !IsFenceLine(key + ": " + value)
  {
    var line := key + ": " + value;
    assert IsKeyChar(key[0]) && line[0] == key[0];
    KeyCharIsVisible(key[0]);
    VisibleFirst(line);
  }

  lemma KeyCharIsVisible(c: char)
    ensures !(IsKeyChar(c) && IsSpace(c)) && !(IsKeyChar(c) && c == '`')
  {
  }

  lemma VisibleFirst(s: string)
    requires s != "" && !IsSpace(s[0])
    ensures LStrip(s) == s
  {
  }

  // ---------- A printed fence as a block ----------

  ghost predicate NoFenceLines(lines: seq<string>) {
    forall i :: 0 <= i < |lines| ==> !IsFenceLine(lines[i])
  }

  lemma NoFenceCons(key: string, value: string, rest: seq<string>)
    requires IsKey(key) && NoFenceLines(rest)
    ensures NoFenceLines([key + ": " + value] + rest)
  {
    hide IsFenceLine;
    KeyLineIsNoFence(key, value);
  }

  lemma TailHasNoFence(spec: ChartSpec)
    requires forall i :: 0 <= i < |spec.series| ==> NormalSeries(spec.series[i])
    requires forall k :: 0 <= k < |SplitLines(spec.table)| ==> !IsFenceLine("  " + SplitLines(spec.table)[k])
    ensures NoFenceLines(AfterX(spec))
  {
    hide IsFenceLine, SeriesValue, Join, SplitLines;
    MoreKeys();
    forall i | 0 <= i < |spec.series| ensures !IsFenceLine("series: " + SeriesValue(spec.series[i])) {
      KeyLineIsNoFence("series", SeriesValue(spec.series[i]));
      assert "series" + ": " == "series: ";
    }
    KeyLineIsNoFence("source", Join(Numerals(spec.source), ", "));
    assert "source" + ": " == "source: ";
    KeyLineIsNoFence("table", "|");
    assert "table" + ": " + "|" == "table: |";
    assert NoFenceLines(SourceLines(spec.source));
    assert NoFenceLines(TableLines(spec.table));
  }

  lemma MoreKeys()
    ensures IsKey("series") && IsKey("source") && IsKey("table")
  {
  }

  lemma BodyHasNoFence(spec: ChartSpec)
    requires forall i :: 0 <= i < |spec.series| ==> NormalSeries(spec.series[i])
    requires forall k :: 0 <= k < |SplitLines(spec.table)| ==> !IsFenceLine("  " + SplitLines(spec.table)[k])
    ensures NoFenceLines(Body(spec))
  {
    hide *;
    TailHasNoFence(spec);
    KeysAreKeys();
    BodyParts(spec);
    var xs := Join(spec.x, " | ");
    var x := ["x" + ": " + xs] + AfterX(spec);
    NoFenceCons("x", xs, AfterX(spec));
    NoFenceCons("unit", spec.unit, x);
    var u := if spec.unit == "" then x else ["unit" + ": " + spec.unit] + x;
    NoFenceCons("title", spec.title, u);
    NoFenceCons("type", spec.kind, ["title" + ": " + spec.title] + u);
  }

  lemma {:induction false} InsideFence(body: seq<string>)
    requires NoFenceLines(body)
    ensures Solid(body + [CLOSE_FENCE], true) && !FenceAfter(body + [CLOSE_FENCE], true)
  {
    hide IsFenceLine, IsBlankLine;
    var lines := body + [CLOSE_FENCE];
    if body == [] {
      CloseIsFence();
      FenceIsNotBlank(CLOSE_FENCE);
      assert lines[1..] == [];
    } else {
      assert lines[1..] == body[1..] + [CLOSE_FENCE];
      InsideFence(body[1..]);
    }
  }

  lemma CloseIsFence()
    ensures IsFenceLine(CLOSE_FENCE)
  {
    VisibleFirst(CLOSE_FENCE);
  }

  lemma OpenIsFence()
    ensures IsFenceLine(OPEN_FENCE) && !IsRowLine(OPEN_FENCE)
  {
    VisibleFirst(OPEN_FENCE);
  }

  lemma FenceIsBlock(body: seq<string>)
    requires NoFenceLines(body)
    ensures var fence := [OPEN_FENCE] + body + [CLOSE_FENCE]; Solid(fence, false) && !FenceAfter(fence, false)
  {
    hide IsFenceLine, IsBlankLine;
    var fence := [OPEN_FENCE] + body + [CLOSE_FENCE];
    OpenIsFence();
    assert fence[1..] == body + [CLOSE_FENCE];
    InsideFence(body);
  }

  lemma ChartBodyHasNoFence(p: Patterns, block: seq<string>)
    requires ChartFor(p, block).Some?
    ensures NoFenceLines(Body(ChartFor(p, block).value))
  {
    hide Body, IsFenceLine, AutoChoice, TableIn, Strip, Join, HasFence, SplitLines;
    var text, spec := Join(block, "\n"), ChartFor(p, block).value;
    TableHasNoFence(p, text);
    StoredLinesHaveNoFence(text);
    StoredTable(p, block);
    BodyHasNoFence(spec);
  }

  /** The fence of an accepted block is one block by itself. */
  lemma ChartFenceIsBlock(p: Patterns, block: seq<string>)
    requires ChartFor(p, block).Some?
    ensures var fence := ToFence(ChartFor(p, block).value);
        Solid(fence, false) && !FenceAfter(fence, false) && fence != []
  {
    hide Body, Solid, FenceAfter, ChartFor, NoFenceLines;
    ChartBodyHasNoFence(p, block);
    FenceIsBlock(Body(ChartFor(p, block).value));
  }

  lemma TableHasNoFence(p: Patterns, text: string)
    requires TableIn(p, text).Some?
    ensures !HasFence(text)
  {
    hide Split, HasFence, RowsOf;
  }

  lemma StoredTable(p: Patterns, block: seq<string>)
    requires ChartFor(p, block).Some?
    ensures TableIn(p, Join(block, "\n")).Some? && ChartFor(p, block).value.table == Strip(Join(block, "\n"))
  {
    hide TableIn, AutoChoice, Join, Strip, Labelled;
  }

  /** The fence is neither a caption, nor a row, nor citation marks, nor a table. */
  lemma FenceText(fence: seq<string>)
    requires fence != [] && fence[0] == OPEN_FENCE
    ensures var s := Join(fence, "\n"); s != "" && s[0] == '`' && HasFence(s)
  {
    var s := Join(fence, "\n");
    assert s[0] == '`' && s[1] == '`' && s[2] == '`';
  }

  lemma FenceIsNoCaption(p: Patterns, s: string)
    requires ArePatterns(p) && s != "" && s[0] == '`'
    ensures !IsTableCaption(p, s) && !p.markerOnly(s)
  {
    hide Strip;
    var w := p.withoutSources(s);
    assert w != "" && w[0] == '`';
    BackQuoteIsVisible();
    var i, j := StripSplits(w);
    assert i == 0 && Strip(w)[0] == '`';
    assert s[0] in s;
  }

  lemma FenceIsConverted(p: Patterns, fence: seq<string>)
    requires fence != [] && fence[0] == OPEN_FENCE
    ensures ChartFor(p, fence).None?
  {
    hide HasFence, Join, RowsOf, Split, AutoChoice;
    FenceText(fence);
  }

  // ---------- The converted text ----------

  /** The chunks that stand for a group after conversion. */
  function NewGroup(p: Patterns, g: seq<Chunk>): (r: seq<Chunk>)
    requires g != []
    ensures r != [] && r[0].gap == g[0].gap
  {
    var spec := ChartFor(p, LinesOf(g));
    if spec.None? then g else [Chunk(g[0].gap, ToFence(spec.value))]
  }

  function NewGroups(p: Patterns, gs: seq<seq<Chunk>>): (r: seq<seq<Chunk>>)
    requires forall i :: 0 <= i < |gs| ==> gs[i] != []
    ensures |r| == |gs| && forall i :: 0 <= i < |r| ==> r[i] == NewGroup(p, gs[i]) && r[i] != []
  {
    seq(|gs|, i requires 0 <= i < |gs| => NewGroup(p, gs[i]))
  }

  lemma NewGroupsSnoc(p: Patterns, gs: seq<seq<Chunk>>, g: seq<Chunk>)
    requires g != [] && forall i :: 0 <= i < |gs| ==> gs[i] != []
    ensures NewGroups(p, gs + [g]) == NewGroups(p, gs) + [NewGroup(p, g)]
  {
    hide NewGroup;
  }

  lemma NewGroupLines(p: Patterns, g: seq<Chunk>)
    requires g != []
    ensures LinesOf(NewGroup(p, g)) == Converted(p, LinesOf(g))
  {
    hide ChartFor;
  }

  /** The new groups spell the converted text. */
  lemma {:induction false} NewGroupsFlat(p: Patterns, gs: seq<seq<Chunk>>)
    requires forall i :: 0 <= i < |gs| ==> gs[i] != []
    ensures Flat(Concat(NewGroups(p, gs))) == ConvertGroups(p, gs)
    decreases |gs|
  {
    hide Flat, Concat, LinesOf, NewGroup, Converted;
    if gs == [] {
      ConcatNothing();
      FlatNothing();
    } else {
      var n := |gs| - 1;
      var init, g := gs[..n], gs[n];
      assert gs == init + [g];
      NewGroupsFlat(p, init);
      NewGroupsSnoc(p, init, g);
      ConvertGroupsSnoc(p, init, g);
      var next := NewGroup(p, g);
      ConcatSnoc(NewGroups(p, init), next);
      FlatConcat(Concat(NewGroups(p, init)), next);
      FlatGroup(next);
      NewGroupLines(p, g);
    }
  }

  // Chunk lists, link by link.

  ghost predicate Link(c: Chunk, d: Chunk) {
    d.gap != [] && !FenceAfter(c.block, false)
  }

  ghost predicate Chain(chunks: seq<Chunk>) {
    && (forall i :: 0 <= i < |chunks| ==> ChunkOk(chunks[i]))
    && (forall i :: 0 < i < |chunks| ==> Link(chunks[i - 1], chunks[i]))
  }

  ghost predicate EndsWell(chunks: seq<Chunk>, tail: seq<string>) {
    AllBlank(tail) && (chunks != [] && tail != [] ==> !FenceAfter(chunks[|chunks| - 1].block, false))
  }

  lemma ChainConcat(a: seq<Chunk>, b: seq<Chunk>)
    ensures Chain(a + b) <==> Chain(a) && Chain(b) && (a != [] && b != [] ==> Link(a[|a| - 1], b[0]))
  {
    hide ChunkOk, Link;
    var all, n := a + b, |a|;
    assert forall i :: 0 <= i < n ==> all[i] == a[i];
    assert forall i :: 0 <= i < |b| ==> b[i] == all[n + i];
    if Chain(all) {
      forall i | 0 < i < |b| ensures Link(b[i - 1], b[i]) {
        var j := n + i;
        assert Link(all[j - 1], all[j]);
      }
    }
  }

  lemma RawOkNothing(tail: seq<string>)
    ensures RawOk([], tail) == AllBlank(tail) && Chain([]) && Flat([]) + tail == tail
  {
  }

  lemma ChainOne(c: Chunk)
    ensures Chain([c]) <==> ChunkOk(c)
  {
    hide ChunkOk;
    assert [c][0] == c;
  }

  lemma {:induction false} RawOkIsChain(chunks: seq<Chunk>, tail: seq<string>)
    ensures RawOk(chunks, tail) <==> Chain(chunks) && EndsWell(chunks, tail)
  {
    hide AllBlank, Chain, RawOk, ChunkOk, FenceAfter, IsBlankLine, Flat, Link;
    RawOkNothing(tail);
    if chunks != [] {
      var c, rest := chunks[0], chunks[1..];
      assert chunks == [c] + rest;
      RawOkIsChain(rest, tail);
      RawOkCons(c, rest, tail);
      ChainConcat([c], rest);
      ChainOne(c);
      if rest == [] {
        TailStart(tail);
      } else {
        assert rest == [rest[0]] + rest[1..];
        FlatCons(rest[0], rest[1..]);
        ChainConcat([rest[0]], rest[1..]);
        ChainOne(rest[0]);
        if ChunkOk(rest[0]) { NextStart(c, rest[0], Flat(rest[1..]) + tail); }
        assert Flat(rest) + tail == rest[0].gap + rest[0].block + (Flat(rest[1..]) + tail);
      }
    }
  }

  lemma TailStart(tail: seq<string>)
    ensures AllBlank(tail) && tail != [] ==> IsBlankLine(tail[0])
  {
    hide IsBlankLine;
  }

  lemma NextStart(c: Chunk, d: Chunk, rest: seq<string>)
    requires ChunkOk(d)
    ensures EndsBefore(c.block, d.gap + d.block + rest) <==> Link(c, d)
  {
    hide IsBlankLine, Solid, FenceAfter;
    SolidStart(d.block);
    var lines := d.gap + d.block + rest;
    assert lines[0] == if d.gap != [] then d.gap[0] else d.block[0];
  }

  // The new chunks form a chain again.

  /** Conversion never leaves a chunk open that was closed. */
  ghost predicate ClosesWith(c: Chunk, d: Chunk) {
    FenceAfter(c.block, false) ==> FenceAfter(d.block, false)
  }

  lemma FenceStarts(p: Patterns, block: seq<string>)
    requires ChartFor(p, block).Some?
    ensures var fence := ToFence(ChartFor(p, block).value); fence != [] && fence[0] == OPEN_FENCE
  {
    hide ChartFor, Body;
  }

  lemma NewGroupIs(p: Patterns, g: seq<Chunk>)
    requires g != []
    ensures var block := LinesOf(g);
      if ChartFor(p, block).None? then NewGroup(p, g) == g && LinesOf(NewGroup(p, g)) == block
      else var fence := ToFence(ChartFor(p, block).value);
        NewGroup(p, g) == [Chunk(g[0].gap, fence)] && LinesOf(NewGroup(p, g)) == fence && fence != []
            && fence[0] == OPEN_FENCE
  {
    hide ChartFor, ToFence;
    if ChartFor(p, LinesOf(g)).Some? { FenceStarts(p, LinesOf(g)); }
  }

  lemma FenceChunk(p: Patterns, gap: seq<string>, block: seq<string>)
    requires AllBlank(gap) && ChartFor(p, block).Some?
    ensures var c := Chunk(gap, ToFence(ChartFor(p, block).value)); Chain([c]) && !FenceAfter(c.block, false)
  {
    hide ChartFor, ToFence, FenceAfter, Solid, IsBlankLine;
    ChartFenceIsBlock(p, block);
  }

  lemma FirstGapBlank(g: seq<Chunk>)
    requires g != [] && Chain(g)
    ensures AllBlank(g[0].gap)
  {
    hide FenceAfter, Solid, IsBlankLine;
  }

  lemma NewGroupChain(p: Patterns, g: seq<Chunk>)
    requires g != [] && Chain(g)
    ensures var r := NewGroup(p, g); Chain(r) && ClosesWith(r[|r| - 1], g[|g| - 1])
  {
    hide FenceAfter, LinesOf, Chain, ChartFor, NewGroup, AllBlank, ToFence;
    NewGroupIs(p, g);
    FirstGapBlank(g);
    if ChartFor(p, LinesOf(g)).Some? { FenceChunk(p, g[0].gap, LinesOf(g)); }
  }

  lemma {:induction false} NewChain(p: Patterns, gs: seq<seq<Chunk>>)
    requires (forall i :: 0 <= i < |gs| ==> gs[i] != []) && Chain(Concat(gs))
    ensures var a, r := Concat(gs), Concat(NewGroups(p, gs));
      Chain(r) && (gs != [] ==> a != [] && r != [] && ClosesWith(r[|r| - 1], a[|a| - 1]))
      && (gs == [] ==> a == [] && r == [])
    decreases |gs|
  {
    hide Concat, NewGroup, Chain, FenceAfter;
    if gs == [] {
      ConcatNothing();
      ChainNothing();
    } else {
      var n := |gs| - 1;
      var init, g := gs[..n], gs[n];
      var next := NewGroup(p, g);
      assert gs == init + [g];
      ConcatSnoc(init, g);
      ChainConcat(Concat(init), g);
      NewChain(p, init);
      NewGroupsSnoc(p, init, g);
      ConcatSnoc(NewGroups(p, init), next);
      NewGroupChain(p, g);
      ChainConcat(Concat(NewGroups(p, init)), next);
    }
  }

  lemma ChainNothing()
    ensures Chain([])
  {
  }

  lemma NewRawOk(p: Patterns, gs: seq<seq<Chunk>>, tail: seq<string>)
    requires (forall i :: 0 <= i < |gs| ==> gs[i] != []) && RawOk(Concat(gs), tail)
    ensures RawOk(Concat(NewGroups(p, gs)), tail)
  {
    hide Concat, NewGroup, Chain, FenceAfter, RawOk, AllBlank;
    RawOkIsChain(Concat(gs), tail);
    NewChain(p, gs);
    RawOkIsChain(Concat(NewGroups(p, gs)), tail);
  }

  // The new chunks are grouped in the same way.

  lemma FenceJoinsNothing(p: Patterns, text: seq<string>, fence: seq<string>)
    requires ArePatterns(p) && fence != [] && fence[0] == OPEN_FENCE
    ensures !Joins(p, text, fence)
  {
    hide Join, IsTableCaption, IsRowLine, ArePatterns, HasFence;
    FenceText(fence);
    FenceIsNoCaption(p, Join(fence, "\n"));
    OpenIsFence();
  }

  lemma NothingJoinsFence(p: Patterns, text: seq<string>, fence: seq<string>, block: seq<string>)
    requires ArePatterns(p) && fence != [] && fence[0] == OPEN_FENCE && !Joins(p, text, block)
    ensures !Joins(p, fence, block)
  {
    hide Join, IsTableCaption, IsRowLine, ArePatterns, HasFence;
    FenceText(fence);
    FenceIsNoCaption(p, Join(fence, "\n"));
  }

  lemma NewBoundary(p: Patterns, g: seq<Chunk>, h: seq<Chunk>)
    requires ArePatterns(p) && g != [] && h != [] && !Joins(p, LinesOf(g), h[0].block)
    ensures !Joins(p, LinesOf(NewGroup(p, g)), NewGroup(p, h)[0].block)
  {
    hide *;
    NewGroupIs(p, g);
    NewGroupIs(p, h);
    if ChartFor(p, LinesOf(h)).Some? {
      FenceJoinsNothing(p, LinesOf(NewGroup(p, g)), NewGroup(p, h)[0].block);
    } else if ChartFor(p, LinesOf(g)).Some? {
      NothingJoinsFence(p, LinesOf(g), LinesOf(NewGroup(p, g)), h[0].block);
    }
  }

  lemma NewGroupsOk(p: Patterns, gs: seq<seq<Chunk>>)
    requires ArePatterns(p) && GroupsOk(p, gs)
    ensures GroupsOk(p, NewGroups(p, gs))
  {
    hide ArePatterns, Joins, LinesOf, NewGroup, ChartFor;
    var r := NewGroups(p, gs);
    forall i | 0 <= i < |gs| ensures GroupOk(p, r[i]) {
      assert GroupOk(p, gs[i]);
      NewGroupIs(p, gs[i]);
    }
    forall i | 0 < i < |gs| ensures !Joins(p, LinesOf(r[i - 1]), r[i][0].block) {
      NewBoundary(p, gs[i - 1], gs[i]);
    }
  }

  /** Converting the new groups leaves them as they are. */
  lemma {:induction false} NewGroupsStay(p: Patterns, gs: seq<seq<Chunk>>)
    requires forall i :: 0 <= i < |gs| ==> gs[i] != []
    ensures ConvertGroups(p, NewGroups(p, gs)) == ConvertGroups(p, gs)
    decreases |gs|
  {
    hide Concat, NewGroup, LinesOf, Converted;
    if gs != [] {
      var n := |gs| - 1;
      var init, g := gs[..n], gs[n];
      assert gs == init + [g];
      NewGroupsStay(p, init);
      NewGroupsSnoc(p, init, g);
      ConvertGroupsSnoc(p, init, g);
      ConvertGroupsSnoc(p, NewGroups(p, init), NewGroup(p, g));
      NewGroupLines(p, g);
      ConvertedStays(p, LinesOf(g));
    }
  }

  lemma ConvertedStays(p: Patterns, block: seq<string>)
    ensures Converted(p, Converted(p, block)) == Converted(p, block)
  {
    hide ChartFor, Body;
    if ChartFor(p, block).Some? {
      FenceStarts(p, block);
      FenceIsConverted(p, Converted(p, block));
    }
  }

  /** Converting twice is converting once. */
  lemma ConversionIsIdempotent(p: Patterns, lines: seq<string>)
    requires ArePatterns(p)
    ensures ConvertLines(p, ConvertLines(p, lines)) == ConvertLines(p, lines)
  {
    hide ArePatterns, RawChunks, Groups, RawOk, GroupsOk, ConvertGroups, NewGroups, Flat, Concat;
    var raw := RawChunks(lines);
    var gs := Groups(p, raw.chunks);
    var next := NewGroups(p, gs);
    RawIsOk(lines);
    GroupsAreOk(p, raw.chunks);
    NewGroupsFlat(p, gs);
    NewRawOk(p, gs, raw.tail);
    RawUnique(Concat(next), raw.tail);
    NewGroupsOk(p, gs);
    GroupsUnique(p, next);
    NewGroupsStay(p, gs);
  }

  // ---------- Fence parity ----------

  lemma {:induction false} NoFenceKeeps(lines: seq<string>, f: bool)
    requires NoFenceLines(lines)
    ensures FenceAfter(lines, f) == f
  {
    hide IsFenceLine;
    if lines != [] { NoFenceKeeps(lines[1..], f); }
  }

  lemma {:induction false} LineInText(block: seq<string>, k: nat) returns (i: nat, j: nat)
    requires k < |block|
    ensures i <= j <= |Join(block, "\n")| && Join(block, "\n")[i..j] == block[k]
    decreases k
  {
    hide Join;
    var p, rest := block[0], block[1..];
    assert block == [p] + rest;
    JoinCons(p, rest, "\n");
    if k == 0 {
      i, j := 0, |p|;
    } else {
      i, j := LineInText(rest, k - 1);
      var n := |p| + 1;
      assert Join(block, "\n")[n + i..n + j] == Join(rest, "\n")[i..j];
      i, j := n + i, n + j;
    }
  }

  lemma AcceptedHasNoFence(p: Patterns, block: seq<string>)
    requires ChartFor(p, block).Some?
    ensures NoFenceLines(block)
  {
    hide Join, HasFence, IsFenceLine, TableIn;
    TableHasNoFence(p, Join(block, "\n"));
    forall k | 0 <= k < |block| ensures !IsFenceLine(block[k]) {
      var i, j := LineInText(block, k);
      if IsFenceLine(block[k]) {
        FenceLineHasFence(block[k]);
        FenceInSlice(Join(block, "\n"), i, j);
        assert false;
      }
    }
  }

  lemma FenceTogglesTwice(body: seq<string>, f: bool)
    requires NoFenceLines(body)
    ensures FenceAfter([OPEN_FENCE] + body + [CLOSE_FENCE], f) == f
  {
    hide IsFenceLine;
    FenceConcat([OPEN_FENCE] + body, [CLOSE_FENCE], f);
    FenceConcat([OPEN_FENCE], body, f);
    NoFenceKeeps(body, !f);
    OpenIsFence();
    CloseIsFence();
    assert [OPEN_FENCE][1..] == [] && [CLOSE_FENCE][1..] == [];
  }

  lemma GroupKeepsFence(p: Patterns, g: seq<Chunk>, f: bool)
    requires g != []
    ensures FenceAfter(g[0].gap + Converted(p, LinesOf(g)), f) == FenceAfter(g[0].gap + LinesOf(g), f)
  {
    hide FenceAfter, LinesOf, ChartFor, Body, NoFenceLines;
    var block, before := LinesOf(g), FenceAfter(g[0].gap, f);
    FenceConcat(g[0].gap, block, f);
    FenceConcat(g[0].gap, Converted(p, block), f);
    if ChartFor(p, block).Some? {
      AcceptedHasNoFence(p, block);
      NoFenceKeeps(block, before);
      ChartBodyHasNoFence(p, block);
      FenceTogglesTwice(Body(ChartFor(p, block).value), before);
    }
  }

  /** At the end of every block the converted text stands inside a fence exactly when the original
      does: a chart adds two fence lines where there were none. */
  lemma {:induction false} ConversionKeepsFences(p: Patterns, gs: seq<seq<Chunk>>)
    requires forall i :: 0 <= i < |gs| ==> gs[i] != []
    ensures FenceAfter(ConvertGroups(p, gs), false) == FenceAfter(Flat(Concat(gs)), false)
    decreases |gs|
  {
    hide *;
    if gs == [] {
      NothingConverted(p, gs);
      assert gs[..0] == gs;
      ConcatNothing();
      FlatNothing();
    } else {
      var n := |gs| - 1;
      var init, g := gs[..n], gs[n];
      assert gs == init + [g];
      ConcatSnoc(init, g);
      ConversionKeepsFences(p, init);
      FlatConcat(Concat(init), g);
      FlatGroup(g);
      ConvertGroupsSnoc(p, init, g);
      var before, next := Flat(Concat(init)), ConvertGroups(p, init);
      FenceConcat(before, g[0].gap + LinesOf(g), false);
      FenceConcat(next, g[0].gap + Converted(p, LinesOf(g)), false);
      assert next + g[0].gap + Converted(p, LinesOf(g)) == next + (g[0].gap + Converted(p, LinesOf(g)));
      GroupKeepsFence(p, g, FenceAfter(before, false));
    }
  }
}
