/** The blocks of a section text (block_ranges in src/core/table_to_chart.py).  A text is a sequence
    of lines. */
module Blocks {
  import opened Text
  import opened Tables

  // ---------- Fences and blank lines ----------

  predicate IsFenceLine(line: string) {
    var s := LStrip(line);
    |s| >= 3 && s[0] == '`' && s[1] == '`' && s[2] == '`'
  }

  predicate IsBlankLine(line: string) {
    Strip(line) == ""
  }

  lemma FenceIsNotBlank(line: string)
    requires IsFenceLine(line)
    ensures !IsBlankLine(line)
  {
    var s := LStrip(line);
    assert s[0] == line[|line| - |s|];
    hide LStrip, Strip;
    var i, j := StripSplits(line);
    BackQuoteIsVisible();
  }

  lemma BackQuoteIsVisible()
    ensures !IsSpace('`')
  {
  }

  ghost predicate AllBlank(lines: seq<string>) {
    forall i :: 0 <= i < |lines| ==> IsBlankLine(lines[i])
  }

  /** Whether the text stands inside a fence after these lines. */
  function FenceAfter(lines: seq<string>, fence: bool): bool {
    if lines == [] then fence else FenceAfter(lines[1..], fence != IsFenceLine(lines[0]))
  }

  /** No line is a blank line outside a fence. */
  predicate Solid(lines: seq<string>, fence: bool) {
    lines == []
    || (var f := fence != IsFenceLine(lines[0]);
        (f || !IsBlankLine(lines[0])) && Solid(lines[1..], f))
  }

  // ---------- Chunks ----------

  /** Blank lines, then a run of lines without a blank line outside a fence. */
  datatype Chunk = Chunk(gap: seq<string>, block: seq<string>)

  datatype Raw = Raw(chunks: seq<Chunk>, tail: seq<string>)

  function BlankRun(lines: seq<string>): (n: nat)
    ensures n <= |lines| && (n < |lines| ==> !IsBlankLine(lines[n]))
    ensures forall i :: 0 <= i < n ==> IsBlankLine(lines[i])
  {
    Run(lines, IsBlankLine)
  }

  function SolidRun(lines: seq<string>, fence: bool): (n: nat)
    ensures n <= |lines|
    ensures lines != [] && !IsBlankLine(lines[0]) ==> n > 0
  {
    if lines == [] then 0
    else
      var f := fence != IsFenceLine(lines[0]);
      if !f && IsBlankLine(lines[0]) then 0 else 1 + SolidRun(lines[1..], f)
  }

  function RawChunks(lines: seq<string>): Raw
    decreases |lines|
  {
    var g := BlankRun(lines);
    if g == |lines| then Raw([], lines)
    else
      var n := SolidRun(lines[g..], false);
      var rest := RawChunks(lines[g + n..]);
      Raw([Chunk(lines[..g], lines[g..g + n])] + rest.chunks, rest.tail)
  }

  function Flat(chunks: seq<Chunk>): seq<string> {
    if chunks == [] then [] else chunks[0].gap + chunks[0].block + Flat(chunks[1..])
  }

  ghost predicate ChunkOk(c: Chunk) {
    AllBlank(c.gap) && c.block != [] && Solid(c.block, false)
  }

  /** A block ends at the end of the text or before a blank line outside its fences. */
  ghost predicate EndsBefore(block: seq<string>, rest: seq<string>) {
    rest == [] || (!FenceAfter(block, false) && IsBlankLine(rest[0]))
  }

  ghost predicate RawOk(chunks: seq<Chunk>, tail: seq<string>) {
    if chunks == [] then AllBlank(tail)
    else ChunkOk(chunks[0]) && EndsBefore(chunks[0].block, Flat(chunks[1..]) + tail) && RawOk(chunks[1..], tail)
  }

  lemma BlankRunIs(gap: seq<string>, rest: seq<string>)
    requires AllBlank(gap) && (rest == [] || !IsBlankLine(rest[0]))
    ensures BlankRun(gap + rest) == |gap|
  {
    hide IsBlankLine;
    var lines := gap + rest;
    assert forall i :: 0 <= i < |gap| ==> lines[i] == gap[i];
    assert rest != [] ==> lines[|gap|] == rest[0];
  }

  lemma BlankRunBlank(lines: seq<string>)
    ensures AllBlank(lines[..BlankRun(lines)])
  {
    hide IsBlankLine, BlankRun;
  }

  lemma {:induction false} SolidRunIs(block: seq<string>, rest: seq<string>, fence: bool)
    requires Solid(block, fence) && (rest == [] || (!FenceAfter(block, fence) && IsBlankLine(rest[0])))
    ensures SolidRun(block + rest, fence) == |block|
  {
    hide IsBlankLine, IsFenceLine;
    if block == [] {
      assert block + rest == rest;
      if rest != [] && IsFenceLine(rest[0]) { FenceIsNotBlank(rest[0]); }
    } else {
      assert (block + rest)[1..] == block[1..] + rest;
      SolidRunIs(block[1..], rest, fence != IsFenceLine(block[0]));
    }
  }

  lemma {:induction false} SolidRunSolid(lines: seq<string>, fence: bool)
    ensures var n := SolidRun(lines, fence);
      Solid(lines[..n], fence) && (n < |lines| ==> !FenceAfter(lines[..n], fence) && IsBlankLine(lines[n]))
  {
    hide IsBlankLine, IsFenceLine;
    if lines != [] {
      var f := fence != IsFenceLine(lines[0]);
      if f || !IsBlankLine(lines[0]) {
        var n := SolidRun(lines[1..], f);
        SolidRunSolid(lines[1..], f);
        var run := lines[..n + 1];
        assert run[0] == lines[0] && run[1..] == lines[1..][..n];
      } else if IsFenceLine(lines[0]) {
        FenceIsNotBlank(lines[0]);
      }
    }
  }

  lemma SolidStart(block: seq<string>)
    requires block != [] && Solid(block, false)
    ensures !IsBlankLine(block[0])
  {
    hide IsBlankLine, IsFenceLine;
    if IsFenceLine(block[0]) { FenceIsNotBlank(block[0]); }
  }

  lemma FlatCons(c: Chunk, chunks: seq<Chunk>)
    ensures Flat([c] + chunks) == c.gap + c.block + Flat(chunks)
  {
    assert ([c] + chunks)[1..] == chunks;
  }

  lemma RawOkCons(c: Chunk, chunks: seq<Chunk>, tail: seq<string>)
    ensures RawOk([c] + chunks, tail) <==> ChunkOk(c) && EndsBefore(c.block, Flat(chunks) + tail) && RawOk(chunks, tail)
  {
    hide ChunkOk, EndsBefore, Flat;
    assert ([c] + chunks)[1..] == chunks;
  }

  /** A text that begins with a chunk. */
  lemma ChunkFirst(c: Chunk, rest: seq<string>)
    requires ChunkOk(c) && EndsBefore(c.block, rest)
    ensures RawChunks(c.gap + c.block + rest) == Raw([c] + RawChunks(rest).chunks, RawChunks(rest).tail)
  {
    hide IsBlankLine, IsFenceLine, Solid, FenceAfter, BlankRun, SolidRun;
    var lines, after := c.gap + c.block + rest, c.block + rest;
    assert lines == c.gap + after;
    SolidStart(c.block);
    BlankRunIs(c.gap, after);
    SolidRunIs(c.block, rest, false);
    var g, n := |c.gap|, |c.block|;
    assert lines[g..] == after && lines[..g] == c.gap && lines[g..g + n] == c.block && lines[g + n..] == rest;
  }

  lemma BlankFirst(tail: seq<string>)
    requires AllBlank(tail)
    ensures RawChunks(tail) == Raw([], tail)
  {
    hide IsBlankLine, BlankRun;
    assert tail + [] == tail;
    BlankRunIs(tail, []);
  }

  /** The chunks of a text are the only way to cut it into blank lines and solid blocks. */
  lemma {:induction false} RawUnique(chunks: seq<Chunk>, tail: seq<string>)
    requires RawOk(chunks, tail)
    ensures RawChunks(Flat(chunks) + tail) == Raw(chunks, tail)
  {
    hide ChunkOk, EndsBefore, RawChunks, AllBlank;
    if chunks == [] {
      assert Flat(chunks) + tail == tail;
      BlankFirst(tail);
    } else {
      var c, rest := chunks[0], Flat(chunks[1..]) + tail;
      assert Flat(chunks) + tail == c.gap + c.block + rest;
      ChunkFirst(c, rest);
      RawUnique(chunks[1..], tail);
      assert [c] + chunks[1..] == chunks;
    }
  }

  /** The first chunk of a text that is not blank. */
  lemma FirstChunk(lines: seq<string>) returns (c: Chunk, rest: seq<string>)
    requires BlankRun(lines) < |lines|
    ensures lines == c.gap + c.block + rest && |rest| < |lines|
    ensures ChunkOk(c) && EndsBefore(c.block, rest)
    ensures RawChunks(lines) == Raw([c] + RawChunks(rest).chunks, RawChunks(rest).tail)
  {
    hide IsBlankLine, IsFenceLine, Solid, FenceAfter, BlankRun, SolidRun;
    var g := BlankRun(lines);
    BlankRunBlank(lines);
    var after := lines[g..];
    assert after[0] == lines[g];
    var n := SolidRun(after, false);
    SolidRunSolid(after, false);
    c := Chunk(lines[..g], after[..n]);
    rest := after[n..];
    assert lines[g..g + n] == after[..n] && lines[g + n..] == rest;
  }

  lemma NoChunk(lines: seq<string>)
    requires BlankRun(lines) == |lines|
    ensures RawChunks(lines) == Raw([], lines) && AllBlank(lines) && RawOk([], lines) && Flat([]) + lines == lines
  {
    hide IsBlankLine, BlankRun;
    BlankRunBlank(lines);
    assert lines[..|lines|] == lines;
  }

  lemma {:induction false} RawIsOk(lines: seq<string>)
    ensures var r := RawChunks(lines); RawOk(r.chunks, r.tail) && Flat(r.chunks) + r.tail == lines
    decreases |lines|
  {
    hide *;
    if BlankRun(lines) == |lines| {
      NoChunk(lines);
    } else {
      var c, rest := FirstChunk(lines);
      RawIsOk(rest);
      var r := RawChunks(rest);
      FlatCons(c, r.chunks);
      RawOkCons(c, r.chunks, r.tail);
      assert Flat([c] + r.chunks) + r.tail == c.gap + c.block + (Flat(r.chunks) + r.tail);
    }
  }

  // ---------- Groups ----------

  function LinesOf(g: seq<Chunk>): seq<string>
    requires g != []
  {
    var n := |g| - 1;
    if n == 0 then g[0].block else LinesOf(g[..n]) + g[n].gap + g[n].block
  }

  /** is_table_caption */
  predicate IsTableCaption(p: Patterns, block: string) {
    var text := Strip(p.withoutSources(block));
    '\n' !in text && p.caption(text).Some?
  }

  /** A table follows its caption, and a paragraph of citation marks belongs to what it cites. */
  predicate Joins(p: Patterns, text: seq<string>, block: seq<string>) {
    (IsTableCaption(p, Join(text, "\n")) && block != [] && IsRowLine(block[0])) || p.markerOnly(Join(block, "\n"))
  }

  function AddChunk(p: Patterns, gs: seq<seq<Chunk>>, c: Chunk): (r: seq<seq<Chunk>>)
    requires forall i :: 0 <= i < |gs| ==> gs[i] != []
    ensures forall i :: 0 <= i < |r| ==> r[i] != []
  {
    var n := |gs| - 1;
    if gs != [] && Joins(p, LinesOf(gs[n]), c.block) then gs[..n] + [gs[n] + [c]] else gs + [[c]]
  }

  function Groups(p: Patterns, chunks: seq<Chunk>): (gs: seq<seq<Chunk>>)
    ensures forall i :: 0 <= i < |gs| ==> gs[i] != []
  {
    if chunks == [] then [] else AddChunk(p, Groups(p, chunks[..|chunks| - 1]), chunks[|chunks| - 1])
  }

  function Concat(gs: seq<seq<Chunk>>): seq<Chunk> {
    if gs == [] then [] else Concat(gs[..|gs| - 1]) + gs[|gs| - 1]
  }

  ghost predicate GroupOk(p: Patterns, g: seq<Chunk>) {
    g != [] && forall k :: 1 <= k < |g| ==> Joins(p, LinesOf(g[..k]), g[k].block)
  }

  ghost predicate GroupsOk(p: Patterns, gs: seq<seq<Chunk>>) {
    && (forall i :: 0 <= i < |gs| ==> GroupOk(p, gs[i]))
    && (forall i :: 0 < i < |gs| ==> !Joins(p, LinesOf(gs[i - 1]), gs[i][0].block))
  }

  lemma GroupGrows(p: Patterns, g: seq<Chunk>, c: Chunk)
    requires g != []
    ensures GroupOk(p, g + [c]) <==> GroupOk(p, g) && Joins(p, LinesOf(g), c.block)
  {
    hide Joins, LinesOf;
    var h := g + [c];
    assert h[..|g|] == g;
    assert forall k :: 1 <= k < |g| ==> h[..k] == g[..k] && h[k] == g[k];
  }

  lemma GroupsSnoc(p: Patterns, chunks: seq<Chunk>, c: Chunk)
    ensures Groups(p, chunks + [c]) == AddChunk(p, Groups(p, chunks), c)
  {
    hide AddChunk;
    assert (chunks + [c])[..|chunks|] == chunks;
  }

  lemma ConcatSnoc(gs: seq<seq<Chunk>>, g: seq<Chunk>)
    ensures Concat(gs + [g]) == Concat(gs) + g
  {
    assert (gs + [g])[..|gs|] == gs;
  }

  lemma AddedIsOk(p: Patterns, gs: seq<seq<Chunk>>, c: Chunk)
    requires GroupsOk(p, gs)
    ensures GroupsOk(p, AddChunk(p, gs, c)) && Concat(AddChunk(p, gs, c)) == Concat(gs) + [c]
  {
    hide Joins, LinesOf, Concat;
    var r, m := AddChunk(p, gs, c), |gs| - 1;
    if |r| == |gs| {
      GroupGrows(p, gs[m], c);
      assert gs == gs[..m] + [gs[m]];
      ConcatSnoc(gs[..m], gs[m]);
      ConcatSnoc(gs[..m], gs[m] + [c]);
    } else {
      ConcatSnoc(gs, [c]);
    }
  }

  /** Merging from the left gives groups in which every chunk joins what is before it, and between
      which none does. */
  lemma {:induction false} GroupsAreOk(p: Patterns, chunks: seq<Chunk>)
    ensures GroupsOk(p, Groups(p, chunks)) && Concat(Groups(p, chunks)) == chunks
  {
    hide AddChunk, GroupsOk, Concat;
    if chunks == [] {
      NoGroups(p);
      NoGroupsOk(p);
    } else {
      var n := |chunks| - 1;
      assert chunks == chunks[..n] + [chunks[n]];
      GroupsAreOk(p, chunks[..n]);
      AddedIsOk(p, Groups(p, chunks[..n]), chunks[n]);
    }
  }

  lemma NoGroupsOk(p: Patterns)
    ensures GroupsOk(p, [])
  {
  }

  /** The groups before the last chunk. */
  lemma LastChunk(p: Patterns, gs: seq<seq<Chunk>>) returns (before: seq<seq<Chunk>>, c: Chunk)
    requires GroupsOk(p, gs) && gs != []
    ensures GroupsOk(p, before) && AddChunk(p, before, c) == gs && Concat(gs) == Concat(before) + [c]
  {
    hide Joins, LinesOf, Concat;
    var m := |gs| - 1;
    var init, g := gs[..m], gs[m];
    var n := |g| - 1;
    c := g[n];
    assert gs == init + [g] && g == g[..n] + [c];
    ConcatSnoc(init, g);
    assert GroupsOk(p, init);
    if n == 0 {
      before := init;
      assert g == [c];
    } else {
      before := init + [g[..n]];
      ConcatSnoc(init, g[..n]);
      GroupGrows(p, g[..n], c);
      assert before[..m] == init;
    }
  }

  lemma NoGroups(p: Patterns)
    ensures Concat([]) == [] && Groups(p, []) == []
  {
  }

  /** Those groups are unique. */
  lemma {:induction false} GroupsUnique(p: Patterns, gs: seq<seq<Chunk>>)
    requires GroupsOk(p, gs)
    ensures Groups(p, Concat(gs)) == gs
    decreases |Concat(gs)|
  {
    hide *;
    if gs == [] {
      NoGroups(p);
    } else {
      var before, c := LastChunk(p, gs);
      GroupsUnique(p, before);
      GroupsSnoc(p, Concat(before), c);
    }
  }
}
