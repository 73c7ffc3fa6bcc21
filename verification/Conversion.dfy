/** convert_tables_to_charts (src/core/table_to_chart.py): every block that holds an accepted table is
    replaced by its chart fence; all other lines stay. */
module Conversion {
  import opened Text
  import opened Charts
  import opened Tables
  import opened Blocks
  import opened BlockRanges

  // ---------- One block ----------

  /** The chart that replaces a block, if its table is accepted. */
  function ChartFor(p: Patterns, block: seq<string>): (r: Option<ChartSpec>)
    ensures r.Some? ==> forall i :: 0 <= i < |r.value.series| ==> NormalSeries(r.value.series[i])
  {
    var text := Join(block, "\n");
    var t := TableIn(p, text);
    if t.None? then None
    else
      var v := AutoChoice(p, t.value);
      if v.Skip? then None else Some(BuildSpec(p, t.value, v.choice, text))
  }

  function Converted(p: Patterns, block: seq<string>): seq<string> {
    var spec := ChartFor(p, block);
    if spec.None? then block else ToFence(spec.value)
  }

  // ---------- The whole text ----------

  /** The groups from the k-th on, converted, each with the gap before it. */
  function ConvertGroups(p: Patterns, gs: seq<seq<Chunk>>): seq<string>
    requires forall i :: 0 <= i < |gs| ==> gs[i] != []
  {
    if gs == [] then []
    else
      var n := |gs| - 1;
      ConvertGroups(p, gs[..n]) + gs[n][0].gap + Converted(p, LinesOf(gs[n]))
  }

  /** convert_tables_to_charts */
  function ConvertLines(p: Patterns, lines: seq<string>): seq<string> {
    var raw := RawChunks(lines);
    ConvertGroups(p, Groups(p, raw.chunks)) + raw.tail
  }

  lemma ConvertGroupsSnoc(p: Patterns, gs: seq<seq<Chunk>>, g: seq<Chunk>)
    requires g != [] && forall i :: 0 <= i < |gs| ==> gs[i] != []
    ensures ConvertGroups(p, gs + [g]) == ConvertGroups(p, gs) + g[0].gap + Converted(p, LinesOf(g))
  {
    hide LinesOf, Converted;
    assert (gs + [g])[..|gs|] == gs;
  }

  /** convert_tables_to_charts, with its loop over the blocks. */
  method ConvertTables(p: Patterns, lines: seq<string>) returns (out: seq<string>)
    ensures out == ConvertLines(p, lines)
  {
    hide Ranges, Groups, RawChunks, LinesOf, TableIn, AutoChoice, BuildSpec, ToFence, Join, ConvertGroups, GapStart;
    var ranges := BlockRanges.BlockRanges(p, lines);
    ghost var raw := RawChunks(lines);
    ghost var gs := Groups(p, raw.chunks);
    out := [];
    var prevEnd, i := 0, 0;
    RangeLines(p, lines, |gs|);
    NothingConverted(p, gs);
    while i < |ranges|
      invariant i <= |ranges| == |gs| && prevEnd == GapStart(ranges, i) <= |lines|
      invariant out == ConvertGroups(p, gs[..i])
    {
      RangeLines(p, lines, i);
      var a, b := ranges[i].0, ranges[i].1;
      out := out + lines[prevEnd..a];
      prevEnd := b;
      var block := Join(lines[a..b], "\n");
      var table := FindTable(p, block);
      if table.None? {
        out := out + lines[a..b];
      } else {
        var verdict := AutoChoice(p, table.value);
        if verdict.Skip? {
          out := out + lines[a..b];
        } else {
          out := out + ToFence(BuildSpec(p, table.value, verdict.choice, block));
        }
      }
      assert gs[..i + 1] == gs[..i] + [gs[i]];
      ConvertGroupsSnoc(p, gs[..i], gs[i]);
      NextGapStart(ranges, i);
      i := i + 1;
    }
    assert gs[..i] == gs;
    RangeLines(p, lines, i);
    out := out + lines[prevEnd..];
  }

  lemma NothingConverted(p: Patterns, gs: seq<seq<Chunk>>)
    requires forall i :: 0 <= i < |gs| ==> gs[i] != []
    ensures ConvertGroups(p, gs[..0]) == [] && forall rs: seq<(nat, nat)> :: GapStart(rs, 0) == 0
  {
    assert gs[..0] == [];
  }

  lemma NextGapStart(rs: seq<(nat, nat)>, i: nat)
    requires i < |rs|
    ensures GapStart(rs, i + 1) == rs[i].1
  {
  }
}
