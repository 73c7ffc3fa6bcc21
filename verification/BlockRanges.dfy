/** block_ranges itself, its loops, and what its ranges cover. */
module BlockRanges {
  import opened Text
  import opened Tables
  import opened Blocks

  // ---------- Lengths ----------

  lemma {:induction false} FlatConcat(a: seq<Chunk>, b: seq<Chunk>)
    ensures Flat(a + b) == Flat(a) + Flat(b)
  {
    hide Flat;
    if a == [] {
      assert a + b == b;
      FlatNothing();
    } else {
      assert a == [a[0]] + a[1..] && a + b == [a[0]] + (a[1..] + b);
      FlatConcat(a[1..], b);
      FlatCons(a[0], a[1..]);
      FlatCons(a[0], a[1..] + b);
    }
  }

  lemma FlatNothing()
    ensures Flat([]) == []
  {
  }

  lemma FlatOne(c: Chunk)
    ensures Flat([c]) == c.gap + c.block
  {
    assert [c][1..] == [];
  }

  lemma {:induction false} FlatGroup(g: seq<Chunk>)
    requires g != []
    ensures Flat(g) == g[0].gap + LinesOf(g)
    decreases |g|
  {
    hide Flat;
    var n := |g| - 1;
    if n == 0 {
      FlatOne(g[0]);
      assert g == [g[0]];
    } else {
      FlatGroup(g[..n]);
      assert g == g[..n] + [g[n]];
      FlatConcat(g[..n], [g[n]]);
      FlatOne(g[n]);
    }
  }

  // ---------- The ranges ----------

  function Offsets(gs: seq<seq<Chunk>>): (r: seq<(nat, nat)>)
    requires forall i :: 0 <= i < |gs| ==> gs[i] != []
    ensures |r| == |gs|
  {
    if gs == [] then []
    else
      var n := |gs| - 1;
      var start := |Flat(Concat(gs[..n]))| + |gs[n][0].gap|;
      Offsets(gs[..n]) + [(start, start + |LinesOf(gs[n])|)]
  }

  function Ranges(p: Patterns, lines: seq<string>): seq<(nat, nat)> {
    Offsets(Groups(p, RawChunks(lines).chunks))
  }

  lemma OffsetsSnoc(gs: seq<seq<Chunk>>, g: seq<Chunk>)
    requires g != [] && forall i :: 0 <= i < |gs| ==> gs[i] != []
    ensures var start := |Flat(Concat(gs))| + |g[0].gap|;
      Offsets(gs + [g]) == Offsets(gs) + [(start, start + |LinesOf(g)|)]
  {
    hide Flat, Concat, LinesOf;
    assert (gs + [g])[..|gs|] == gs;
  }

  /** What one range holds, and what is before and after it. */
  lemma {:induction false} RangeAt(gs: seq<seq<Chunk>>, i: nat)
    requires i < |gs| && forall i :: 0 <= i < |gs| ==> gs[i] != []
    ensures var before := Flat(Concat(gs[..i]));
      Offsets(gs)[i] == (|before| + |gs[i][0].gap|, |before| + |gs[i][0].gap| + |LinesOf(gs[i])|)
      && Flat(Concat(gs[..i + 1])) == before + gs[i][0].gap + LinesOf(gs[i])
    decreases |gs|
  {
    hide Flat, Concat, LinesOf, Offsets;
    var n := |gs| - 1;
    var init := gs[..n];
    assert gs == init + [gs[n]];
    OffsetsSnoc(init, gs[n]);
    if i == n {
      ConcatSnoc(init, gs[n]);
      FlatConcat(Concat(init), gs[n]);
      FlatGroup(gs[n]);
      assert gs[..i + 1] == gs;
    } else {
      RangeAt(init, i);
      assert init[..i] == gs[..i] && init[..i + 1] == gs[..i + 1];
    }
  }

  // ---------- Fences ----------

  lemma {:induction false} FenceConcat(a: seq<string>, b: seq<string>, f: bool)
    ensures FenceAfter(a + b, f) == FenceAfter(b, FenceAfter(a, f))
  {
    hide IsFenceLine;
    if a == [] {
      assert a + b == b;
    } else {
      assert (a + b)[1..] == a[1..] + b;
      FenceConcat(a[1..], b, f != IsFenceLine(a[0]));
    }
  }

  lemma {:induction false} BlanksKeepFence(gap: seq<string>, f: bool)
    requires AllBlank(gap)
    ensures FenceAfter(gap, f) == f
  {
    hide IsFenceLine, IsBlankLine;
    if gap != [] {
      if IsFenceLine(gap[0]) { FenceIsNotBlank(gap[0]); }
      BlanksKeepFence(gap[1..], f);
    }
  }

  /** Gaps are blank and outside fences. */
  lemma {:induction false} GapsAreOutside(chunks: seq<Chunk>, tail: seq<string>, i: nat)
    requires RawOk(chunks, tail) && i < |chunks|
    ensures AllBlank(chunks[i].gap) && chunks[i].block != [] && !IsBlankLine(chunks[i].block[0])
    ensures !FenceAfter(Flat(chunks[..i]), false) && (0 < i ==> chunks[i].gap != [])
  {
    hide IsFenceLine, IsBlankLine, Solid, FenceAfter, Flat;
    var c, rest := chunks[0], chunks[1..];
    SolidStart(c.block);
    FlatNothing();
    NoLinesNoFence();
    if i == 0 {
      assert chunks[..0] == [];
    } else {
      GapsAreOutside(rest, tail, i - 1);
      assert chunks[..i] == [c] + rest[..i - 1];
      FlatCons(c, rest[..i - 1]);
      FenceConcat(c.gap + c.block, Flat(rest[..i - 1]), false);
      FenceConcat(c.gap, c.block, false);
      BlanksKeepFence(c.gap, false);
      FlatCons(rest[0], rest[1..]);
      assert rest == [rest[0]] + rest[1..];
    }
  }

  lemma NoLinesNoFence()
    ensures !FenceAfter([], false)
  {
  }

  lemma {:induction false} TailIsOutside(chunks: seq<Chunk>, tail: seq<string>)
    requires RawOk(chunks, tail)
    ensures AllBlank(tail) && (tail != [] ==> !FenceAfter(Flat(chunks), false))
  {
    hide IsFenceLine, IsBlankLine, Solid, FenceAfter, Flat;
    FlatNothing();
    NoLinesNoFence();
    if chunks != [] {
      var c, rest := chunks[0], chunks[1..];
      assert chunks == [c] + rest;
      TailIsOutside(rest, tail);
      FlatCons(c, rest);
      FenceConcat(c.gap + c.block, Flat(rest), false);
      FenceConcat(c.gap, c.block, false);
      BlanksKeepFence(c.gap, false);
    }
  }

  // ---------- What the ranges cover ----------

  /** The gap before range i, or after the last one. */
  function GapStart(rs: seq<(nat, nat)>, i: nat): nat
    requires i <= |rs|
  {
    if i == 0 then 0 else rs[i - 1].1
  }

  function GapEnd(rs: seq<(nat, nat)>, i: nat, total: nat): nat
    requires i <= |rs|
  {
    if i == |rs| then total else rs[i].0
  }

  /** A line of a gap. */
  lemma GapLine(before: seq<string>, gap: seq<string>, k: nat)
    requires |before| <= k < |before| + |gap| && AllBlank(gap) && !FenceAfter(before, false)
    ensures IsBlankLine((before + gap)[k]) && !FenceAfter((before + gap)[..k], false)
  {
    hide IsFenceLine, IsBlankLine, FenceAfter;
    var g := gap[..k - |before|];
    assert (before + gap)[..k] == before + g;
    FenceConcat(before, g, false);
    BlanksKeepFence(g, false);
  }

  lemma {:induction false} ConcatPrefix(gs: seq<seq<Chunk>>, i: nat) returns (n: nat)
    requires i <= |gs| && forall i :: 0 <= i < |gs| ==> gs[i] != []
    ensures n <= |Concat(gs)| && Concat(gs[..i]) == Concat(gs)[..n]
    ensures i < |gs| ==> n < |Concat(gs)| && Concat(gs)[n] == gs[i][0]
    ensures (i > 0 ==> n > 0) && (i == |gs| ==> n == |Concat(gs)|)
    decreases |gs|
  {
    hide Concat;
    if i == |gs| {
      n := |Concat(gs)|;
      assert gs[..i] == gs;
      if i > 0 {
        assert gs == gs[..i - 1] + [gs[i - 1]];
        ConcatSnoc(gs[..i - 1], gs[i - 1]);
      }
    } else {
      var m := |gs| - 1;
      assert gs == gs[..m] + [gs[m]];
      ConcatSnoc(gs[..m], gs[m]);
      n := ConcatPrefix(gs[..m], i);
      assert gs[..m][..i] == gs[..i];
    }
  }

  /** The lines of a range, of the gap before it, and after the last one. */
  lemma RangeLines(p: Patterns, lines: seq<string>, i: nat)
    ensures var raw := RawChunks(lines); var gs := Groups(p, raw.chunks); var rs := Ranges(p, lines);
      && |rs| == |gs|
      && (i < |gs| ==>
          rs[i].0 <= rs[i].1 <= |lines| && lines[rs[i].0..rs[i].1] == LinesOf(gs[i])
          && GapStart(rs, i) <= rs[i].0 && lines[GapStart(rs, i)..rs[i].0] == gs[i][0].gap)
      && (i == |gs| ==> GapStart(rs, i) <= |lines| && lines[GapStart(rs, i)..] == raw.tail)
      && (i <= |gs| ==> GapStart(rs, i) <= |lines| && lines[..GapStart(rs, i)] == Flat(Concat(gs[..i])))
  {
    hide *;
    var raw := RawChunks(lines);
    var gs := Groups(p, raw.chunks);
    RangesAre(p, lines);
    RawIsOk(lines);
    GroupsAreOk(p, raw.chunks);
    if i <= |gs| {
      GapStartIs(gs, i);
      var after := GroupsBefore(gs, i);
      StartSlices(Flat(Concat(gs[..i])), after, raw.tail, lines);
    }
    if i < |gs| {
      RangeAt(gs, i);
      var after := GroupsBefore(gs, i + 1);
      var before, gap, text := Flat(Concat(gs[..i])), gs[i][0].gap, LinesOf(gs[i]);
      RangeSlices(before, gap, text, after, raw.tail, lines);
    } else if i == |gs| {
      assert gs[..i] == gs;
    }
  }

  lemma GroupsBefore(gs: seq<seq<Chunk>>, i: nat) returns (after: seq<string>)
    requires i <= |gs| && forall i :: 0 <= i < |gs| ==> gs[i] != []
    ensures Flat(Concat(gs)) == Flat(Concat(gs[..i])) + after
  {
    hide *;
    var n := ConcatPrefix(gs, i);
    var chunks := Concat(gs);
    after := Flat(chunks[n..]);
    assert chunks == chunks[..n] + chunks[n..];
    FlatConcat(chunks[..n], chunks[n..]);
  }

  lemma StartSlices(before: seq<string>, after: seq<string>, tail: seq<string>, lines: seq<string>)
    requires lines == before + after + tail
    ensures |before| <= |lines| && lines[..|before|] == before && (after == [] ==> lines[|before|..] == tail)
  {
  }

  lemma RangeSlices(before: seq<string>, gap: seq<string>, text: seq<string>, after: seq<string>, tail: seq<string>,
      lines: seq<string>)
    requires lines == (before + gap + text) + after + tail
    ensures var a := |before| + |gap|; var b := a + |text|;
      a <= b <= |lines| && lines[a..b] == text && lines[|before|..a] == gap
  {
    assert lines == before + gap + (text + after + tail);
    assert lines == (before + gap) + text + (after + tail);
    Slices(before, gap, text + after + tail, lines);
    Slices(before + gap, text, after + tail, lines);
  }

  lemma RangesAre(p: Patterns, lines: seq<string>)
    ensures Ranges(p, lines) == Offsets(Groups(p, RawChunks(lines).chunks))
  {
  }

  lemma GapStartIs(gs: seq<seq<Chunk>>, i: nat)
    requires i <= |gs| && forall i :: 0 <= i < |gs| ==> gs[i] != []
    ensures GapStart(Offsets(gs), i) == |Flat(Concat(gs[..i]))|
  {
    hide Flat, Concat, LinesOf, Offsets;
    if i == 0 {
      assert gs[..0] == [];
      ConcatNothing();
      FlatNothing();
    } else {
      RangeAt(gs, i - 1);
      assert gs[..i - 1 + 1] == gs[..i];
    }
  }

  lemma ConcatNothing()
    ensures Concat([]) == []
  {
  }

  /** The gap before range i, or after the last range. */
  lemma GapFacts(p: Patterns, lines: seq<string>, i: nat)
    requires i <= |Ranges(p, lines)|
    ensures var rs := Ranges(p, lines); var a, b := GapStart(rs, i), GapEnd(rs, i, |lines|);
      && a <= b <= |lines| && AllBlank(lines[a..b])
      && (a < b || i < |rs| ==> !FenceAfter(lines[..a], false))
      && (0 < i < |rs| ==> a < b)
      && (i < |rs| ==> b < rs[i].1 <= |lines| && !IsBlankLine(lines[b]))
  {
    hide *;
    var raw := RawChunks(lines);
    var gs := Groups(p, raw.chunks);
    RangesAre(p, lines);
    RawIsOk(lines);
    GroupsAreOk(p, raw.chunks);
    RangeLines(p, lines, i);
    var n := ConcatPrefix(gs, i);
    var rs := Ranges(p, lines);
    GapEnds(rs, i, |lines|);
    if i == |gs| {
      TailIsOutside(raw.chunks, raw.tail);
      assert raw.chunks[..n] == raw.chunks;
      assert lines[GapStart(rs, i)..|lines|] == lines[GapStart(rs, i)..];
    } else {
      GapsAreOutside(raw.chunks, raw.tail, n);
      GroupHasLines(gs[i]);
      assert lines[rs[i].0] == lines[rs[i].0..rs[i].1][0];
      assert |lines[GapStart(rs, i)..rs[i].0]| == |gs[i][0].gap|;
    }
  }

  lemma GapEnds(rs: seq<(nat, nat)>, i: nat, total: nat)
    requires i <= |rs|
    ensures GapEnd(rs, i, total) == if i == |rs| then total else rs[i].0
  {
  }

  lemma GroupHasLines(g: seq<Chunk>)
    requires g != [] && g[0].block != []
    ensures LinesOf(g) != [] && LinesOf(g)[0] == g[0].block[0]
  {
  }

  /** A blank line outside any fence. */
  predicate Outside(lines: seq<string>, k: nat) {
    k < |lines| && IsBlankLine(lines[k]) && !FenceAfter(lines[..k], false)
  }

  lemma GapIsOutside(p: Patterns, lines: seq<string>, i: nat, k: nat)
    requires i <= |Ranges(p, lines)|
    requires var rs := Ranges(p, lines); GapStart(rs, i) <= k < GapEnd(rs, i, |lines|)
    ensures Outside(lines, k)
  {
    hide IsFenceLine, IsBlankLine, FenceAfter, Ranges, GapStart, GapEnd;
    var a, b := GapStart(Ranges(p, lines), i), GapEnd(Ranges(p, lines), i, |lines|);
    GapFacts(p, lines, i);
    var before, gap := lines[..a], lines[a..b];
    GapLine(before, gap, k);
    assert lines[k] == (before + gap)[k] && lines[..k] == (before + gap)[..k];
  }

  /** The ranges are in order, apart, not empty and inside the text; each begins at a visible line
      outside any fence; and what they leave out is blank and outside any fence. */
  lemma RangesCoverTheText(p: Patterns, lines: seq<string>)
    ensures var rs := Ranges(p, lines);
      && (forall i :: 0 <= i < |rs| ==> rs[i].0 < rs[i].1 <= |lines|)
      && (forall i :: 0 < i < |rs| ==> rs[i - 1].1 < rs[i].0)
      && (forall i :: 0 <= i < |rs| ==> !IsBlankLine(lines[rs[i].0]) && !FenceAfter(lines[..rs[i].0], false))
      && forall i: nat, k: nat :: i <= |rs| && GapStart(rs, i) <= k < GapEnd(rs, i, |lines|) ==> Outside(lines, k)
  {
    hide IsFenceLine, IsBlankLine, FenceAfter, Ranges, Outside;
    var rs := Ranges(p, lines);
    forall i | 0 <= i < |rs|
      ensures rs[i].0 < rs[i].1 <= |lines| && (0 < i ==> rs[i - 1].1 < rs[i].0)
      ensures !IsBlankLine(lines[rs[i].0]) && !FenceAfter(lines[..rs[i].0], false)
    {
      GapFacts(p, lines, i);
      var a := GapStart(rs, i);
      var before, gap := lines[..a], lines[a..rs[i].0];
      assert lines[..rs[i].0] == before + gap;
      FenceConcat(before, gap, false);
      BlanksKeepFence(gap, false);
    }
    forall i: nat, k: nat | i <= |rs| && GapStart(rs, i) <= k < GapEnd(rs, i, |lines|) ensures Outside(lines, k) {
      GapIsOutside(p, lines, i, k);
    }
  }

  // ---------- The loops ----------

  /** The ranges that the first loop still appends, from line i on. */
  function RawFrom(lines: seq<string>, i: nat, start: Option<nat>, fence: bool): seq<(nat, nat)>
    requires i <= |lines|
    decreases |lines| - i
  {
    if i == |lines| then if start.None? then [] else [(start.value, i)]
    else
      var f := fence != IsFenceLine(lines[i]);
      if !f && IsBlankLine(lines[i])
          then (if start.None? then [] else [(start.value, i)]) + RawFrom(lines, i + 1, None, f)
      else RawFrom(lines, i + 1, if start.None? then Some(i) else start, f)
  }

  function ChunkOffsets(chunks: seq<Chunk>, pos: nat): (r: seq<(nat, nat)>)
    ensures |r| == |chunks|
  {
    if chunks == [] then []
    else
      var c := chunks[0];
      [(pos + |c.gap|, pos + |c.gap| + |c.block|)] + ChunkOffsets(chunks[1..], pos + |c.gap| + |c.block|)
  }

  lemma {:induction false} SkipBlankLines(lines: seq<string>, i: nat, j: nat)
    requires i <= j <= |lines| && AllBlank(lines[i..j])
    ensures RawFrom(lines, i, None, false) == RawFrom(lines, j, None, false)
    decreases j - i
  {
    hide IsFenceLine, IsBlankLine;
    if i < j {
      assert lines[i..j][0] == lines[i] && lines[i..j][1..] == lines[i + 1..j];
      if IsFenceLine(lines[i]) { FenceIsNotBlank(lines[i]); }
      SkipBlankLines(lines, i + 1, j);
    }
  }

  lemma {:induction false} InBlock(lines: seq<string>, i: nat, j: nat, start: nat, fence: bool)
    requires i <= j <= |lines| && Solid(lines[i..j], fence)
    ensures RawFrom(lines, i, Some(start), fence) == RawFrom(lines, j, Some(start), FenceAfter(lines[i..j], fence))
    decreases j - i
  {
    hide IsFenceLine, IsBlankLine;
    if i < j {
      assert lines[i..j][0] == lines[i] && lines[i..j][1..] == lines[i + 1..j];
      InBlock(lines, i + 1, j, start, fence != IsFenceLine(lines[i]));
    }
  }

  lemma EndOfBlock(lines: seq<string>, j: nat, start: nat, fence: bool)
    requires j <= |lines| && (j < |lines| ==> IsBlankLine(lines[j]) && !fence)
    ensures RawFrom(lines, j, Some(start), fence) == [(start, j)] + RawFrom(lines, j, None, false)
  {
    hide IsFenceLine, IsBlankLine;
    if j < |lines| && IsFenceLine(lines[j]) { FenceIsNotBlank(lines[j]); }
  }

  lemma StartOfBlock(lines: seq<string>, i: nat)
    requires i < |lines| && !IsBlankLine(lines[i])
    ensures RawFrom(lines, i, None, false) == RawFrom(lines, i, Some(i), false)
  {
    hide IsFenceLine, IsBlankLine;
  }

  lemma Slices(before: seq<string>, mid: seq<string>, after: seq<string>, lines: seq<string>)
    requires lines == before + mid + after
    ensures lines[|before|..|before| + |mid|] == mid && lines[|before| + |mid|..] == after
  {
  }

  lemma ChunkSlices(lines: seq<string>, pos: nat, c: Chunk, rest: seq<string>)
    requires pos <= |lines| && lines[pos..] == c.gap + c.block + rest && c.block != []
    ensures var a := pos + |c.gap|; var b := a + |c.block|;
      b <= |lines| && lines[pos..a] == c.gap && lines[a..b] == c.block && lines[b..] == rest
      && lines[a] == c.block[0] && (b < |lines| ==> rest != [] && lines[b] == rest[0])
  {
    var before := lines[..pos];
    assert lines == before + (c.gap + c.block + rest);
    Slices(before, c.gap, c.block + rest, lines);
    Slices(before + c.gap, c.block, rest, lines);
  }

  lemma {:induction false} RawFromIs(lines: seq<string>, pos: nat, chunks: seq<Chunk>, tail: seq<string>)
    requires pos <= |lines| && RawOk(chunks, tail) && lines[pos..] == Flat(chunks) + tail
    ensures RawFrom(lines, pos, None, false) == ChunkOffsets(chunks, pos)
    decreases |chunks|
  {
    hide IsFenceLine, IsBlankLine, Flat, RawFrom, Solid, FenceAfter;
    FlatNothing();
    if chunks == [] {
      assert lines[pos..|lines|] == lines[pos..] == tail;
      SkipBlankLines(lines, pos, |lines|);
      NothingLeft(lines);
    } else {
      var c := chunks[0];
      var rest := Flat(chunks[1..]) + tail;
      assert chunks == [c] + chunks[1..];
      FlatCons(c, chunks[1..]);
      assert lines[pos..] == c.gap + c.block + rest;
      var a := pos + |c.gap|;
      var b := a + |c.block|;
      ChunkSlices(lines, pos, c, rest);
      SkipBlankLines(lines, pos, a);
      SolidStart(c.block);
      StartOfBlock(lines, a);
      InBlock(lines, a, b, a, false);
      EndOfBlock(lines, b, a, FenceAfter(c.block, false));
      RawFromIs(lines, b, chunks[1..], tail);
    }
  }

  lemma NothingLeft(lines: seq<string>)
    ensures RawFrom(lines, |lines|, None, false) == []
  {
  }

  lemma {:induction false} ChunkOffsetAt(chunks: seq<Chunk>, pos: nat, k: nat)
    requires k < |chunks|
    ensures var a := pos + |Flat(chunks[..k])| + |chunks[k].gap|;
      ChunkOffsets(chunks, pos)[k] == (a, a + |chunks[k].block|)
    decreases k
  {
    hide Flat;
    FlatNothing();
    if k == 0 {
      assert chunks[..0] == [];
    } else {
      var c := chunks[0];
      ChunkOffsetAt(chunks[1..], pos + |c.gap| + |c.block|, k - 1);
      assert chunks[..k] == [c] + chunks[1..][..k - 1];
      FlatCons(c, chunks[1..][..k - 1]);
    }
  }

  /** The first loop: runs of lines without a blank line outside a fence. */
  method RawRanges(lines: seq<string>) returns (ranges: seq<(nat, nat)>)
    ensures ranges == ChunkOffsets(RawChunks(lines).chunks, 0)
  {
    hide IsFenceLine, IsBlankLine, RawChunks, ChunkOffsets, Flat, RawOk;
    ranges := [];
    var start: Option<nat>, inFence, i: nat := None, false, 0;
    while i < |lines|
      invariant i <= |lines|
      invariant ranges + RawFrom(lines, i, start, inFence) == RawFrom(lines, 0, None, false)
    {
      if IsFenceLine(lines[i]) {
        inFence := !inFence;
      }
      if !inFence && IsBlankLine(lines[i]) {
        if start.Some? {
          ranges := ranges + [(start.value, i)];
        }
        start := None;
      } else if start.None? {
        start := Some(i);
      }
      i := i + 1;
    }
    if start.Some? {
      ranges := ranges + [(start.value, |lines|)];
    }
    RawIsOk(lines);
    assert lines[0..] == lines;
    RawFromIs(lines, 0, RawChunks(lines).chunks, RawChunks(lines).tail);
  }

  /** How the ranges grow by one chunk. */
  lemma MergeStep(p: Patterns, chunks: seq<Chunk>, k: nat)
    requires k < |chunks|
    ensures var gs := Groups(p, chunks[..k]); var rs := Offsets(gs);
      var (a, b) := ChunkOffsets(chunks, 0)[k];
      Offsets(Groups(p, chunks[..k + 1])) ==
        if gs != [] && Joins(p, LinesOf(gs[|gs| - 1]), chunks[k].block) then rs[..|rs| - 1] + [(rs[|rs| - 1].0, b)]
            else rs + [(a, b)]
  {
    hide Flat, Concat, Joins, LinesOf, Offsets, ChunkOffsets, Groups;
    var c, gs := chunks[k], Groups(p, chunks[..k]);
    assert chunks[..k + 1] == chunks[..k] + [c];
    GroupsSnoc(p, chunks[..k], c);
    GroupsAreOk(p, chunks[..k]);
    ChunkOffsetAt(chunks, 0, k);
    if gs != [] && Joins(p, LinesOf(gs[|gs| - 1]), c.block) {
      var init, g := gs[..|gs| - 1], gs[|gs| - 1];
      assert gs == init + [g];
      OffsetsSnoc(init, g);
      OffsetsSnoc(init, g + [c]);
      LinesOfGrows(g, c);
      ConcatSnoc(init, g);
      FlatConcat(Concat(init), g);
      FlatGroup(g);
    } else {
      OffsetsSnoc(gs, [c]);
      LinesOfOne(c);
    }
  }

  lemma LinesOfGrows(g: seq<Chunk>, c: Chunk)
    requires g != []
    ensures LinesOf(g + [c]) == LinesOf(g) + c.gap + c.block
  {
    assert (g + [c])[..|g|] == g;
  }

  lemma LinesOfOne(c: Chunk)
    ensures LinesOf([c]) == c.block
  {
  }

  /** The lines of a range are the lines of its group. */
  lemma RangeIsGroup(p: Patterns, lines: seq<string>, chunks: seq<Chunk>, tail: seq<string>, k: nat)
    requires lines == Flat(chunks) + tail && k <= |chunks|
    requires Groups(p, chunks[..k]) != []
    ensures var gs := Groups(p, chunks[..k]); var r := Offsets(gs)[|gs| - 1];
      r.0 <= r.1 <= |lines| && lines[r.0..r.1] == LinesOf(gs[|gs| - 1])
  {
    hide Flat, Concat, Joins, LinesOf, Offsets, Groups;
    var gs := Groups(p, chunks[..k]);
    GroupsAreOk(p, chunks[..k]);
    RangeAt(gs, |gs| - 1);
    assert gs[..|gs| - 1 + 1] == gs && chunks == chunks[..k] + chunks[k..];
    FlatConcat(chunks[..k], chunks[k..]);
  }

  /** The chunks before and after one chunk. */
  lemma FlatAround(chunks: seq<Chunk>, k: nat) returns (after: seq<string>)
    requires k < |chunks|
    ensures Flat(chunks) == Flat(chunks[..k]) + (chunks[k].gap + chunks[k].block + after)
  {
    hide *;
    after := Flat(chunks[k + 1..]);
    assert chunks == chunks[..k] + ([chunks[k]] + chunks[k + 1..]);
    FlatConcat(chunks[..k], [chunks[k]] + chunks[k + 1..]);
    FlatCons(chunks[k], chunks[k + 1..]);
  }

  lemma InnerSlice(before: seq<string>, gap: seq<string>, block: seq<string>, after: seq<string>, tail: seq<string>,
                   lines: seq<string>, a: nat, b: nat)
    requires lines == before + (gap + block + after) + tail && a == |before| + |gap| && b == a + |block|
    ensures a <= b <= |lines| && lines[a..b] == block
  {
    assert lines == (before + gap) + block + (after + tail);
    Slices(before + gap, block, after + tail, lines);
  }

  lemma ChunkLines(lines: seq<string>, chunks: seq<Chunk>, tail: seq<string>, k: nat)
    requires lines == Flat(chunks) + tail && k < |chunks|
    ensures var r := ChunkOffsets(chunks, 0)[k]; r.0 <= r.1 <= |lines| && lines[r.0..r.1] == chunks[k].block
  {
    hide *;
    var (a, b) := ChunkOffsets(chunks, 0)[k];
    var c, before := chunks[k], Flat(chunks[..k]);
    ChunkOffsetAt(chunks, 0, k);
    var after := FlatAround(chunks, k);
    InnerSlice(before, c.gap, c.block, after, tail, lines, a, b);
  }

  /** block_ranges: the second loop joins a table to its caption and citation marks to their block. */
  method BlockRanges(p: Patterns, lines: seq<string>) returns (merged: seq<(nat, nat)>)
    ensures merged == Ranges(p, lines)
  {
    hide Flat, Concat, LinesOf, Offsets, ChunkOffsets, Groups, RawChunks, RawOk, IsTableCaption, IsRowLine;
    ghost var raw := RawChunks(lines);
    RawIsOk(lines);
    var ranges := RawRanges(lines);
    merged := [];
    NoOffsets(p, raw.chunks);
    var k := 0;
    while k < |ranges|
      invariant k <= |ranges| == |raw.chunks| && ranges == ChunkOffsets(raw.chunks, 0)
      invariant merged == Offsets(Groups(p, raw.chunks[..k]))
    {
      var a, b := ranges[k].0, ranges[k].1;
      MergeStep(p, raw.chunks, k);
      ChunkLines(lines, raw.chunks, raw.tail, k);
      var joins := false;
      if merged != [] {
        RangeIsGroup(p, lines, raw.chunks, raw.tail, k);
        var last := merged[|merged| - 1];
        joins := Joins(p, lines[last.0..last.1], lines[a..b]);
      }
      if joins {
        merged := merged[..|merged| - 1] + [(merged[|merged| - 1].0, b)];
      } else {
        merged := merged + [(a, b)];
      }
      k := k + 1;
    }
    assert raw.chunks[..k] == raw.chunks;
  }

  lemma NoOffsets(p: Patterns, chunks: seq<Chunk>)
    ensures Offsets(Groups(p, chunks[..0])) == []
  {
    assert chunks[..0] == [];
  }
}
