/** A section plan, the dependency graph its builds_on lists describe, and the execution batches
    (src/core/builds_on.py: _dep_labels, assign_levels, batches). */
module Plans {
  import opened Ordered
  import opened Text
  import opened BuildsOn
  import Levels

  datatype SectionPlan = SectionPlan(chapter: nat, section: nat, buildsOn: seq<string>) {
    function Label(): string {
      NatToString(chapter) + "." + NatToString(section)
    }
  }

  type Plan = seq<SectionPlan>

  ghost predicate DistinctLabels(plan: Plan) {
    forall i, j :: 0 <= i < j < |plan| ==> plan[i].Label() != plan[j].Label()
  }

  lemma SectionLabelIsRefLabel(s: SectionPlan)
    ensures s.Label() == Ref(s.chapter, Some(s.section), None).Label()
  {
  }

  lemma SectionLabelsInjective(s: SectionPlan, t: SectionPlan)
    requires s.Label() == t.Label()
    ensures s.chapter == t.chapter && s.section == t.section
  {
    LabelsInjective(Ref(s.chapter, Some(s.section), None), Ref(t.chapter, Some(t.section), None));
  }

  // ---------- Dependencies ----------

  function Labels(plan: Plan): (r: seq<string>)
    ensures |r| == |plan| && forall i :: 0 <= i < |plan| ==> r[i] == plan[i].Label()
  {
    seq(|plan|, i requires 0 <= i < |plan| => plan[i].Label())
  }

  /** The dictionary from labels to builds_on lists: on equal labels the later section wins. */
  function PlanLabels(plan: Plan): (m: map<string, seq<string>>)
    ensures forall l :: l in m <==> l in Labels(plan)
  {
    if plan == [] then map[]
    else
      var m := PlanLabels(plan[..|plan| - 1]);
      var last := plan[|plan| - 1];
      assert Labels(plan) == Labels(plan[..|plan| - 1]) + [last.Label()];
      m[last.Label() := last.buildsOn]
  }

  lemma {:induction false} PlanLabelsAt(plan: Plan, i: nat)
    requires i < |plan| && DistinctLabels(plan)
    ensures Labels(plan)[i] == plan[i].Label() && plan[i].Label() in PlanLabels(plan)
    ensures PlanLabels(plan)[plan[i].Label()] == plan[i].buildsOn
    decreases |plan|
  {
    var init := plan[..|plan| - 1];
    assert Labels(plan)[i] in Labels(plan);
    if i < |plan| - 1 {
      PlanLabelsAt(init, i);
      assert plan[i].Label() != plan[|plan| - 1].Label();
    }
  }

  /** other.split(".")[0] == str(chapter) */
  predicate InChapter(other: string, chapter: nat) {
    Split(other, '.')[0] == NatToString(chapter)
  }

  lemma InChapterIsChapter(s: SectionPlan, chapter: nat)
    ensures InChapter(s.Label(), chapter) <==> s.chapter == chapter
  {
    DigitsHaveNoDot(NatToString(s.chapter));
    SplitPrefix(NatToString(s.chapter), '.', NatToString(s.section));
    if InChapter(s.Label(), chapter) {
      NumeralsInjective(s.chapter, chapter);
    }
  }

  lemma DigitsHaveNoDot(s: string)
    requires AllDigits(s)
    ensures '.' !in s
  {
  }

  /** What one reference contributes to the dependencies of label. */
  function Contribution(labels: set<string>, u: string, raw: string): set<string> {
    var ref := ParseRef(raw);
    if ref.None? then {}
    else if ref.value.section.None? then set o | o in labels && o != u && InChapter(o, ref.value.chapter)
    else {Ref(ref.value.chapter, ref.value.section, None).Label()}
  }

  function Contributions(labels: set<string>, u: string, raws: seq<string>): set<string> {
    set i, o | 0 <= i < |raws| && o in Contribution(labels, u, raws[i]) :: o
  }

  function DepLabels(planLabels: map<string, seq<string>>, u: string): set<string> {
    var raws := if u in planLabels then planLabels[u] else [];
    Contributions(planLabels.Keys, u, raws) - {u}
  }

  /** _dep_labels */
  method ComputeDepLabels(planLabels: map<string, seq<string>>, u: string) returns (deps: set<string>)
    ensures deps == DepLabels(planLabels, u)
  {
    hide Contribution;
    deps := {};
    var raws := if u in planLabels then planLabels[u] else [];
    for i := 0 to |raws|
      invariant forall o :: o in deps <==> exists j :: 0 <= j < i && o in Contribution(planLabels.Keys, u, raws[j])
    {
      var more := Contribution(planLabels.Keys, u, raws[i]);
      deps := deps + more;
    }
    assert deps == Contributions(planLabels.Keys, u, raws);
    deps := deps - {u};
  }

  ghost predicate IsDepsOf(planLabels: map<string, seq<string>>, labels: seq<string>, u: string, order: seq<string>) {
    forall v :: v in order <==> v in DepLabels(planLabels, u) && v in labels
  }

  /** g holds the in-plan dependencies of every label, each iterated over in some order. */
  ghost predicate IsGraphOf(plan: Plan, g: Levels.Graph) {
    && (forall u :: u in g <==> u in Labels(plan))
    && (forall u :: u in g ==> IsDepsOf(PlanLabels(plan), Labels(plan), u, g[u]))
  }

  lemma GraphIsCovered(plan: Plan, g: Levels.Graph)
    requires IsGraphOf(plan, g)
    ensures Levels.Covers(g, Labels(plan))
  {
  }

  /** s names t in its builds_on list: by number, or through the whole chapter. */
  ghost predicate BuildsUpon(s: SectionPlan, t: SectionPlan) {
    exists i :: 0 <= i < |s.buildsOn| && Names(s.buildsOn[i], t)
  }

  predicate Names(raw: string, t: SectionPlan) {
    var ref := ParseRef(raw);
    ref.Some? && ref.value.chapter == t.chapter && (ref.value.section.None? || ref.value.section.value == t.section)
  }

  /** The string-level graph has an edge exactly where one section names another. */
  lemma EdgeIffBuildsUpon(plan: Plan, g: Levels.Graph, i: nat, j: nat)
    requires IsGraphOf(plan, g) && DistinctLabels(plan) && i < |plan| && j < |plan|
    ensures plan[i].Label() in g && plan[j].Label() in g
    ensures plan[j].Label() in g[plan[i].Label()] <==> i != j && BuildsUpon(plan[i], plan[j])
  {
    var s, t := plan[i].Label(), plan[j].Label();
    PlanLabelsAt(plan, i);
    PlanLabelsAt(plan, j);
    assert Labels(plan)[i] in Labels(plan) && Labels(plan)[j] in Labels(plan);
    assert IsDepsOf(PlanLabels(plan), Labels(plan), s, g[s]);
    assert t in g[s] <==> t in DepLabels(PlanLabels(plan), s);
    if i != j {
      assert s != t;
      ContributionsIffBuildsUpon(PlanLabels(plan).Keys, plan[i], plan[j]);
    }
  }

  lemma ContributionsIffBuildsUpon(keys: set<string>, s: SectionPlan, t: SectionPlan)
    requires t.Label() in keys && s.Label() != t.Label()
    ensures t.Label() in Contributions(keys, s.Label(), s.buildsOn) <==> BuildsUpon(s, t)
  {
    forall k | 0 <= k < |s.buildsOn|
      ensures t.Label() in Contribution(keys, s.Label(), s.buildsOn[k]) <==> Names(s.buildsOn[k], t)
    {
      ContributionIffNames(keys, s, t, s.buildsOn[k]);
    }
  }

  lemma ContributionIffNames(keys: set<string>, s: SectionPlan, t: SectionPlan, raw: string)
    requires t.Label() in keys && s.Label() != t.Label()
    ensures t.Label() in Contribution(keys, s.Label(), raw) <==> Names(raw, t)
  {
    var ref := ParseRef(raw);
    if ref.Some? {
      if ref.value.section.None? {
        InChapterIsChapter(t, ref.value.chapter);
      } else {
        var named := SectionPlan(ref.value.chapter, ref.value.section.value, []);
        SectionLabelIsRefLabel(named);
        if named.Label() == t.Label() {
          SectionLabelsInjective(named, t);
        }
      }
    }
  }

  // ---------- assign_levels and batches ----------

  /** Some order in which a set may be iterated over. */
  method IterationOrder(s: set<string>) returns (o: seq<string>)
    ensures forall x :: x in o <==> x in s
  {
    o := [];
    var rest := s;
    while rest != {}
      invariant rest <= s && forall x :: x in o <==> x in s - rest
      decreases rest
    {
      var x :| x in rest;
      rest := rest - {x};
      o := o + [x];
    }
  }

  method BuildGraph(plan: Plan) returns (g: Levels.Graph)
    ensures IsGraphOf(plan, g)
  {
    hide DepLabels, PlanLabels;
    var labels, planLabels := Labels(plan), PlanLabels(plan);
    g := map[];
    for i := 0 to |labels|
      invariant forall u :: u in g <==> exists k :: 0 <= k < i && u == labels[k]
      invariant forall u :: u in g ==> IsDepsOf(planLabels, labels, u, g[u])
    {
      var all := ComputeDepLabels(planLabels, labels[i]);
      var order := IterationOrder(set d | d in all && d in labels);
      assert IsDepsOf(planLabels, labels, labels[i], order);
      g := g[labels[i] := order];
    }
  }

  /** a is the answer of assign_levels for the plan, computed on the graph g. */
  ghost predicate IsAssignment(plan: Plan, g: Levels.Graph, a: Levels.Assignment) {
    IsGraphOf(plan, g) && Levels.Covers(g, Labels(plan)) && a == Levels.Assign(g, Labels(plan))
  }

  /** The answer for some iteration order of the dependency sets. */
  ghost predicate IsAssignmentOf(plan: Plan, a: Levels.Assignment) {
    exists g: Levels.Graph :: IsAssignment(plan, g, a)
  }

  /** assign_levels */
  method AssignLevels(plan: Plan) returns (a: Levels.Assignment, ghost g: Levels.Graph)
    ensures IsAssignment(plan, g, a)
    ensures IsAssignmentOf(plan, a)
  {
    var graph := BuildGraph(plan);
    g := graph;
    GraphIsCovered(plan, g);
    var walk := new Levels.LevelAssigner(graph);
    a := walk.Run(Labels(plan));
    assert IsAssignment(plan, g, a);
  }

  // ---------- Plan order ----------

  lemma {:induction false} DistinctSectionsOccurOnce(plan: Plan, s: SectionPlan)
    requires DistinctLabels(plan)
    ensures multiset(plan)[s] <= 1
    decreases |plan|
  {
    if plan != [] {
      var n := |plan| - 1;
      var init, last := plan[..n], plan[n];
      assert plan == init + [last];
      DistinctSectionsOccurOnce(init, s);
      if last == s {
        forall i | 0 <= i < n ensures init[i] != s { assert plan[i].Label() != plan[n].Label(); }
        assert s !in multiset(init);
      }
    }
  }

  lemma TwoOccurrences(plan: Plan, i: nat, j: nat)
    requires i < j < |plan| && plan[i] == plan[j]
    ensures multiset(plan)[plan[i]] >= 2
  {
    assert plan == plan[..j] + plan[j..];
    assert plan[i] in plan[..j] by { assert plan[..j][i] == plan[i]; }
    assert plan[j] in plan[j..] by { assert plan[j..][0] == plan[j]; }
  }

  lemma SameSections(plan: Plan, plan': Plan, i: nat) returns (j: nat)
    requires multiset(plan) == multiset(plan') && i < |plan|
    ensures j < |plan'| && plan'[j] == plan[i]
  {
    assert plan[i] in multiset(plan');
    j :| 0 <= j < |plan'| && plan'[j] == plan[i];
  }

  lemma PermutedLabelsAreDistinct(plan: Plan, plan': Plan)
    requires DistinctLabels(plan) && multiset(plan) == multiset(plan')
    ensures DistinctLabels(plan')
  {
    forall i, j | 0 <= i < j < |plan'| ensures plan'[i].Label() != plan'[j].Label() {
      var k := SameSections(plan', plan, i);
      var l := SameSections(plan', plan, j);
      DistinctSectionsOccurOnce(plan, plan'[i]);
      if plan'[i] == plan'[j] {
        TwoOccurrences(plan', i, j);
      } else {
        assert k < l || l < k;
      }
    }
  }

  lemma LabelsAreKept(plan: Plan, plan': Plan, l: string)
    requires multiset(plan) == multiset(plan') && l in Labels(plan)
    ensures l in Labels(plan')
  {
    var i :| 0 <= i < |plan| && Labels(plan)[i] == l;
    var j := SameSections(plan, plan', i);
    assert Labels(plan')[j] == l;
  }

  lemma PlanLabelsAreKept(plan: Plan, plan': Plan)
    requires DistinctLabels(plan) && multiset(plan) == multiset(plan')
    ensures PlanLabels(plan) == PlanLabels(plan') && forall l :: l in Labels(plan) <==> l in Labels(plan')
  {
    hide PlanLabels;
    PermutedLabelsAreDistinct(plan, plan');
    forall l ensures l in Labels(plan) <==> l in Labels(plan') {
      if l in Labels(plan) { LabelsAreKept(plan, plan', l); }
      if l in Labels(plan') { LabelsAreKept(plan', plan, l); }
    }
    forall l | l in PlanLabels(plan) ensures PlanLabels(plan)[l] == PlanLabels(plan')[l] {
      var i :| 0 <= i < |plan| && Labels(plan)[i] == l;
      var j := SameSections(plan, plan', i);
      PlanLabelsAt(plan, i);
      PlanLabelsAt(plan', j);
    }
  }

  lemma EdgesAreKept(plan: Plan, g: Levels.Graph, plan': Plan, g': Levels.Graph)
    requires IsGraphOf(plan, g) && IsGraphOf(plan', g')
    requires PlanLabels(plan) == PlanLabels(plan') && forall l :: l in Labels(plan) <==> l in Labels(plan')
    ensures Levels.SameEdges(g, g')
  {
    hide PlanLabels, DepLabels, Labels;
    forall u, v | u in g ensures v in g[u] <==> v in g'[u] {
      assert IsDepsOf(PlanLabels(plan), Labels(plan), u, g[u]);
      assert IsDepsOf(PlanLabels(plan'), Labels(plan'), u, g'[u]);
    }
  }

  lemma AssignmentParts(plan: Plan, g: Levels.Graph, a: Levels.Assignment)
    requires IsAssignment(plan, g, a)
    ensures IsGraphOf(plan, g) && Levels.Covers(g, Labels(plan)) && a == Levels.Assign(g, Labels(plan))
  {
    hide IsGraphOf, Levels.Covers, Levels.Assign;
  }

  /** An acyclic plan gets the same levels and warnings in whatever order its sections are listed and
      its dependency sets are iterated over. */
  lemma AssignmentIgnoresPlanOrder(plan: Plan, g: Levels.Graph, a: Levels.Assignment,
                                   plan': Plan, g': Levels.Graph, a': Levels.Assignment)
    requires DistinctLabels(plan) && multiset(plan) == multiset(plan') && Levels.Acyclic(g)
    requires IsAssignment(plan, g, a) && IsAssignment(plan', g', a')
    ensures a == a'
  {
    hide *;
    PlanLabelsAreKept(plan, plan');
    AssignmentParts(plan, g, a);
    AssignmentParts(plan', g', a');
    EdgesAreKept(plan, g, plan', g');
    Levels.AssignmentIgnoresOrder(g, g', Labels(plan), Labels(plan'));
  }

  // From here on only the level of each section matters: levels[i] is the level of plan[i].

  /** The sections (by position in the plan) of one level, in plan order. */
  function AtLevel(levels: seq<nat>, level: nat): (b: seq<nat>)
    ensures forall i: nat :: i in b <==> i < |levels| && levels[i] == level
    ensures forall j, k :: 0 <= j < k < |b| ==> b[j] < b[k]
  {
    if levels == [] then []
    else
      var n := |levels| - 1;
      var b := AtLevel(levels[..n], level);
      if levels[n] == level then assert forall k :: 0 <= k < |b| ==> b[k] in b; b + [n] else b
  }

  /** Execution batches name sections by their position in the plan. */
  type Batches = seq<seq<nat>>

  /** Batch k holds exactly the sections of level at[k], in plan order; the levels rise, no batch is
      empty and no section is forgotten. */
  ghost predicate IsBatching(levels: seq<nat>, bs: Batches, at: seq<nat>) {
    && |at| == |bs|
    && (forall k :: 0 <= k < |bs| ==> bs[k] == AtLevel(levels, at[k]) && bs[k] != [])
    && (forall j, k :: 0 <= j < k < |at| ==> at[j] < at[k])
    && (forall i :: 0 <= i < |levels| ==> levels[i] in at)
  }

  lemma BatchLevels(levels: seq<nat>, bs: Batches, at: seq<nat>)
    requires IsBatching(levels, bs, at)
    ensures Rising(at, (x: nat, y: nat) => x < y) && forall l: nat :: l in at <==> l in levels
  {
    forall l: nat | l in at ensures l in levels {
      var k :| 0 <= k < |at| && at[k] == l;
      assert bs[k][0] in AtLevel(levels, l);
    }
  }

  /** Levels have one batching only. */
  lemma BatchingIsUnique(levels: seq<nat>, bs: Batches, at: seq<nat>, bs': Batches, at': seq<nat>)
    requires IsBatching(levels, bs, at) && IsBatching(levels, bs', at')
    ensures bs == bs' && at == at'
  {
    hide AtLevel;
    BatchLevels(levels, bs, at);
    BatchLevels(levels, bs', at');
    SameRising(at, at', (x: nat, y: nat) => x < y);
  }

  ghost predicate IsBatchingOf(levels: seq<nat>, bs: Batches) {
    exists at: seq<nat> :: IsBatching(levels, bs, at)
  }

  /** The grouping loop of batches. */
  method GroupByLevel(levels: seq<nat>, nLevels: nat) returns (bs: Batches, ghost at: seq<nat>)
    requires forall i :: 0 <= i < |levels| ==> levels[i] < nLevels
    ensures IsBatching(levels, bs, at)
    ensures IsBatchingOf(levels, bs)
  {
    var out: Batches := seq(nLevels, _ => []);
    for i := 0 to |levels|
      invariant |out| == nLevels
      invariant forall l: nat :: l < nLevels ==> out[l] == AtLevel(levels[..i], l)
    {
      assert levels[..i + 1][..i] == levels[..i];
      out := out[levels[i] := out[levels[i]] + [i]];
    }
    assert levels[..|levels|] == levels;
    bs, at := [], [];
    for l := 0 to nLevels
      invariant |at| == |bs|
      invariant forall k :: 0 <= k < |bs| ==> at[k] < l && bs[k] == AtLevel(levels, at[k]) && bs[k] != []
      invariant forall j, k :: 0 <= j < k < |at| ==> at[j] < at[k]
      invariant forall m :: 0 <= m < l && out[m] != [] ==> m in at
    {
      if out[l] != [] {
        bs, at := bs + [out[l]], at + [l];
      }
    }
    forall i | 0 <= i < |levels| ensures levels[i] in at {
      assert i in AtLevel(levels, levels[i]);
    }
    assert IsBatching(levels, bs, at);
  }

  /** The level of each section of the plan. */
  function LevelSeq(plan: Plan, levels: map<string, nat>): (r: seq<nat>)
    requires forall l :: l in Labels(plan) ==> l in levels
    ensures |r| == |plan| && forall i :: 0 <= i < |plan| ==>
        Labels(plan)[i] in levels && r[i] == levels[Labels(plan)[i]]
  {
    seq(|plan|, i requires 0 <= i < |plan| => assert Labels(plan)[i] in Labels(plan); levels[Labels(plan)[i]])
  }

  lemma SectionsHaveLevels(plan: Plan, g: Levels.Graph, a: Levels.Assignment)
    requires IsAssignment(plan, g, a)
    ensures forall l :: l in Labels(plan) ==> l in a.levels
  {
    hide DepLabels, PlanLabels;
  }

  lemma EmptyBatching(levels: seq<nat>)
    requires levels == []
    ensures IsBatching(levels, [], [])
  {
  }

  /** batches */
  method ComputeBatches(plan: Plan)
      returns (bs: Batches, a: Levels.Assignment, ghost g: Levels.Graph, ghost at: seq<nat>)
    ensures forall l :: l in Labels(plan) ==> l in a.levels
    ensures IsBatching(LevelSeq(plan, a.levels), bs, at)
    ensures IsAssignment(plan, g, a)
  {
    hide *;
    a, g := AssignLevels(plan);
    SectionsHaveLevels(plan, g, a);
    if |plan| == 0 {
      bs, at := [], [];
      EmptyBatching(LevelSeq(plan, a.levels));
      return;
    }
    var levels := LevelSeq(plan, a.levels);
    var nLevels := 0;
    for i := 0 to |levels|
      invariant forall j :: 0 <= j < i ==> levels[j] < nLevels
    {
      nLevels := if nLevels <= levels[i] then levels[i] + 1 else nLevels;
    }
    bs, at := GroupByLevel(levels, nLevels);
  }

  /** Every section is in exactly one batch, at exactly one place in it. */
  lemma BatchesPartitionPlan(levels: seq<nat>, bs: Batches, at: seq<nat>, i: nat)
    requires IsBatching(levels, bs, at) && i < |levels|
    ensures exists b, k :: 0 <= b < |bs| && 0 <= k < |bs[b]| && bs[b][k] == i
    ensures forall b, k, c, l :: 0 <= b < |bs| && 0 <= k < |bs[b]| && bs[b][k] == i
                               && 0 <= c < |bs| && 0 <= l < |bs[c]| && bs[c][l] == i
              ==> b == c && k == l
  {
    var b :| 0 <= b < |at| && at[b] == levels[i];
    assert i in bs[b];
    forall b, k, c, l | 0 <= b < |bs| && 0 <= k < |bs[b]| && bs[b][k] == i && 0 <= c < |bs| && 0 <= l < |bs[c]|
        && bs[c][l] == i
      ensures b == c && k == l
    {
      assert i in bs[b] && i in bs[c];
      assert at[b] == at[c];
    }
  }

  /** When a section builds on another and carries no warning, the other is in an earlier batch. */
  lemma TargetsAreInEarlierBatches(plan: Plan, g: Levels.Graph, a: Levels.Assignment, bs: Batches, at: seq<nat>,
                                   b: nat, c: nat, i: nat, j: nat)
    requires DistinctLabels(plan) && IsAssignment(plan, g, a)
    requires forall l :: l in Labels(plan) ==> l in a.levels
    requires IsBatching(LevelSeq(plan, a.levels), bs, at)
    requires b < |bs| && c < |bs| && i in bs[b] && j in bs[c]
    requires i < |plan| && j < |plan| && i != j && BuildsUpon(plan[i], plan[j])
    requires plan[i].Label() !in a.cut && plan[i].Label() !in a.demoted
    ensures c < b
  {
    NamedIsLower(plan, g, a, i, j);
    var levels := LevelSeq(plan, a.levels);
    hide *;
    assert levels[j] < levels[i];
    BatchOfLevel(levels, bs, at, b, i);
    BatchOfLevel(levels, bs, at, c, j);
    EarlierBatchIffLower(levels, bs, at, c, b);
  }

  lemma NamedIsLower(plan: Plan, g: Levels.Graph, a: Levels.Assignment, i: nat, j: nat)
    requires DistinctLabels(plan) && IsAssignment(plan, g, a)
    requires i < |plan| && j < |plan| && i != j && BuildsUpon(plan[i], plan[j])
    requires plan[i].Label() !in a.cut && plan[i].Label() !in a.demoted
    ensures Labels(plan)[i] in a.levels && Labels(plan)[j] in a.levels
    ensures a.levels[Labels(plan)[j]] < a.levels[Labels(plan)[i]]
  {
    EdgeIffBuildsUpon(plan, g, i, j);
    Levels.EdgesAreOrdered(g, Labels(plan), plan[i].Label(), plan[j].Label());
    hide *;
  }

  lemma BatchOfLevel(levels: seq<nat>, bs: Batches, at: seq<nat>, b: nat, i: nat)
    requires IsBatching(levels, bs, at) && b < |bs| && i in bs[b]
    ensures i < |levels| && levels[i] == at[b]
  {
  }

  lemma EarlierBatchIffLower(levels: seq<nat>, bs: Batches, at: seq<nat>, b: nat, c: nat)
    requires IsBatching(levels, bs, at) && b < |bs| && c < |bs|
    ensures at[b] < at[c] <==> b < c
  {
  }
}
