/** The batch scheduler of src/workflows/write_loop.py: the sections of one execution batch run
    concurrently under a semaphore, and a batch begins when the one before it has returned. */
module BatchScheduler {
  import opened Plans
  import Levels
  import opened Slots

  datatype Phase = Pending | Running | Ended(outcome: Outcome)

  datatype State = State(batch: nat, phase: seq<Phase>, holders: set<nat>, aborting: bool)

  datatype Action =
    | Start(i: nat)
    | Finish(i: nat, outcome: Outcome)
    | NextBatch
    | Abort
    | Cancel(i: nat)

  ghost function Init(n: nat): State {
    State(0, seq(n, _ => Pending), {}, false)
  }

  predicate HasEnded(s: State, i: nat) {
    i < |s.phase| && s.phase[i].Ended?
  }

  /** gather returns only when no task of the batch raised. */
  predicate Returned(s: State, i: nat) {
    i < |s.phase| && s.phase[i].Ended? && !s.phase[i].outcome.Raised? && !s.phase[i].outcome.Cancelled?
  }

  ghost predicate Enabled(bs: Batches, slots: nat, s: State, a: Action) {
    s.batch < |bs| &&
    match a
    case Start(i) => !s.aborting && i in bs[s.batch] && i < |s.phase| && s.phase[i].Pending? && |s.holders| < slots
    case Finish(i, o) => i < |s.phase| && s.phase[i].Running? && !o.Cancelled?
    case NextBatch => !s.aborting && forall i :: i in bs[s.batch] ==> Returned(s, i)
    case Abort => !s.aborting
    case Cancel(i) => s.aborting && i in bs[s.batch] && i < |s.phase| && !s.phase[i].Ended?
  }

  ghost function Next(bs: Batches, slots: nat, s: State, a: Action): State
    requires Enabled(bs, slots, s, a)
  {
    match a
    case Start(i) => s.(phase := s.phase[i := Running], holders := s.holders + {i})
    case Finish(i, o) => s.(phase := s.phase[i := Ended(o)], holders := s.holders - {i})
    case NextBatch => s.(batch := s.batch + 1)
    case Abort => s.(aborting := true)
    case Cancel(i) => s.(phase := s.phase[i := Ended(Cancelled)], holders := s.holders - {i})
  }

  ghost predicate Reaches(bs: Batches, slots: nat, s: State, run: seq<Action>, s': State)
    decreases |run|
  {
    if run == [] then s == s'
    else Enabled(bs, slots, s, run[0]) && Reaches(bs, slots, Next(bs, slots, s, run[0]), run[1..], s')
  }

  // ---------- Invariants ----------

  /** Sections of earlier batches have returned; what runs belongs to the current batch. */
  ghost predicate BarrierInv(bs: Batches, s: State) {
    && (forall b, k :: 0 <= b < |bs| && b < s.batch && 0 <= k < |bs[b]| ==> Returned(s, bs[b][k]))
    && (forall i: nat :: i < |s.phase| && s.phase[i].Running? ==> s.batch < |bs| && i in bs[s.batch])
  }

  ghost predicate SlotsInv(slots: nat, s: State) {
    (forall i: nat :: i in s.holders <==> i < |s.phase| && s.phase[i].Running?) && |s.holders| <= slots
  }

  ghost predicate Inv(bs: Batches, slots: nat, s: State) {
    && s.batch <= |bs|
    && BarrierInv(bs, s)
    && SlotsInv(slots, s)
  }

  ghost predicate Disjoint(bs: Batches) {
    forall b, c, i: nat :: 0 <= b < c < |bs| && i in bs[b] ==> i !in bs[c]
  }

  lemma StepKeepsBarrier(bs: Batches, slots: nat, s: State, a: Action)
    requires Inv(bs, slots, s) && Enabled(bs, slots, s, a)
    requires Disjoint(bs)
    ensures BarrierInv(bs, Next(bs, slots, s, a))
  {
    var s' := Next(bs, slots, s, a);
    forall b, k | 0 <= b < |bs| && b < s'.batch && 0 <= k < |bs[b]|
      ensures Returned(s', bs[b][k])
    {
      assert bs[b][k] in bs[b];
      assert b < s.batch ==> Returned(s, bs[b][k]);
    }
    forall i: nat | i < |s'.phase| && s'.phase[i].Running?
      ensures s'.batch < |bs| && i in bs[s'.batch]
    {
      assert a.NextBatch? ==> !Returned(s, i);
    }
  }

  lemma StepKeepsSlots(bs: Batches, slots: nat, s: State, a: Action)
    requires SlotsInv(slots, s) && Enabled(bs, slots, s, a)
    ensures SlotsInv(slots, Next(bs, slots, s, a))
  {
    var i := if a.Abort? || a.NextBatch? then 0 else a.i;
    HoldersChange(s.holders, Next(bs, slots, s, a).holders, slots, i);
  }

  lemma StepKeepsInv(bs: Batches, slots: nat, s: State, a: Action)
    requires Inv(bs, slots, s) && Enabled(bs, slots, s, a)
    requires Disjoint(bs)
    ensures Inv(bs, slots, Next(bs, slots, s, a))
  {
    StepKeepsBarrier(bs, slots, s, a);
    StepKeepsSlots(bs, slots, s, a);
    hide BarrierInv, SlotsInv;
  }

  lemma {:induction false} RunKeepsInv(bs: Batches, slots: nat, s: State, run: seq<Action>, s': State)
    requires Inv(bs, slots, s) && Reaches(bs, slots, s, run, s')
    requires Disjoint(bs)
    ensures Inv(bs, slots, s') && |s'.phase| == |s.phase|
    decreases |run|
  {
    if run != [] {
      StepKeepsInv(bs, slots, s, run[0]);
      RunKeepsInv(bs, slots, Next(bs, slots, s, run[0]), run[1..], s');
    }
  }

  lemma BatchesAreDisjoint(levels: seq<nat>, bs: Batches, at: seq<nat>)
    requires IsBatching(levels, bs, at)
    ensures Disjoint(bs)
  {
    forall b, c, i: nat | 0 <= b < c < |bs| && i in bs[b] ensures i !in bs[c] {
      BatchOfLevel(levels, bs, at, b, i);
      assert bs[c] == AtLevel(levels, at[c]);
    }
  }

  lemma ReachableInv(levels: seq<nat>, bs: Batches, at: seq<nat>, slots: nat, run: seq<Action>, s: State)
    requires IsBatching(levels, bs, at) && Reaches(bs, slots, Init(|levels|), run, s)
    ensures Inv(bs, slots, s) && |s.phase| == |levels|
  {
    BatchesAreDisjoint(levels, bs, at);
    var init := Init(|levels|);
    RunKeepsInv(bs, slots, init, run, s);
  }

  // ---------- Safety of every interleaving ----------

  /** In every interleaving at most `slots` sections are in process. */
  lemma AtMostSlotsRun(levels: seq<nat>, bs: Batches, at: seq<nat>, slots: nat, run: seq<Action>, s: State)
    requires IsBatching(levels, bs, at) && Reaches(bs, slots, Init(|levels|), run, s)
    ensures |set i | 0 <= i < |s.phase| && s.phase[i].Running?| <= slots
  {
    hide IsBatching, Reaches;
    ReachableInv(levels, bs, at, slots, run, s);
    var running := set i | 0 <= i < |s.phase| && s.phase[i].Running?;
    SubsetSize(running, s.holders);
  }

  /** In every interleaving, while a section that carries no warning is in process, every section of
      the plan it builds upon has ended. */
  lemma SectionsRunAfterWhatTheyBuildOn(plan: Plan, g: Levels.Graph, a: Levels.Assignment, bs: Batches, at: seq<nat>,
                                        slots: nat, run: seq<Action>, s: State, i: nat, j: nat)
    requires DistinctLabels(plan) && IsAssignment(plan, g, a)
    requires forall l :: l in Labels(plan) ==> l in a.levels
    requires IsBatching(LevelSeq(plan, a.levels), bs, at)
    requires Reaches(bs, slots, Init(|plan|), run, s)
    requires i < |plan| && j < |plan| && i != j && BuildsUpon(plan[i], plan[j])
    requires plan[i].Label() !in a.cut && plan[i].Label() !in a.demoted
    requires i < |s.phase| && s.phase[i].Running?
    ensures HasEnded(s, j)
  {
    NamedIsLower(plan, g, a, i, j);
    var levels := LevelSeq(plan, a.levels);
    hide *;
    ReachableInv(levels, bs, at, slots, run, s);
    LowerHasEnded(levels, bs, at, slots, s, i, j);
  }

  lemma LowerHasEnded(levels: seq<nat>, bs: Batches, at: seq<nat>, slots: nat, s: State, i: nat, j: nat)
    requires IsBatching(levels, bs, at) && Inv(bs, slots, s)
    requires i < |s.phase| && s.phase[i].Running? && j < |levels| && i < |levels| && levels[j] < levels[i]
    ensures HasEnded(s, j)
  {
    var c :| 0 <= c < |at| && at[c] == levels[j];
    assert j in AtLevel(levels, levels[j]) && bs[c] == AtLevel(levels, at[c]);
    BatchOfLevel(levels, bs, at, s.batch, i);
    EarlierBatchIffLower(levels, bs, at, c, s.batch);
    var k :| 0 <= k < |bs[c]| && bs[c][k] == j;
    assert Returned(s, bs[c][k]);
  }

  /** A step the scheduler can take by itself, without an abort from outside. */
  ghost predicate CanMove(bs: Batches, slots: nat, s: State) {
    exists a: Action :: !a.Abort? && Enabled(bs, slots, s, a)
  }

  ghost predicate HasRaised(s: State) {
    exists i: nat :: i < |s.phase| && s.phase[i] == Ended(Raised)
  }

  /** While nothing raises and nobody aborts, the scheduler can always move on until the last batch
      has returned. */
  lemma NeverStuck(levels: seq<nat>, bs: Batches, at: seq<nat>, slots: nat, run: seq<Action>, s: State)
    requires IsBatching(levels, bs, at) && slots >= 1 && Reaches(bs, slots, Init(|levels|), run, s)
    ensures s.batch == |bs| || HasRaised(s) || s.aborting || CanMove(bs, slots, s)
  {
    hide *;
    ReachableInv(levels, bs, at, slots, run, s);
    if !s.aborting {
      NothingCancelled(bs, slots, |levels|, run, s);
      SomethingMoves(levels, bs, at, slots, s);
    }
  }

  lemma SomethingMoves(levels: seq<nat>, bs: Batches, at: seq<nat>, slots: nat, s: State)
    requires IsBatching(levels, bs, at) && slots >= 1 && Inv(bs, slots, s) && |s.phase| == |levels| && !s.aborting
    requires forall i: nat :: i < |s.phase| ==> s.phase[i] != Ended(Cancelled)
    ensures s.batch == |bs| || HasRaised(s) || CanMove(bs, slots, s)
  {
    hide IsBatching, BarrierInv;
    if s.batch < |bs| && !HasRaised(s) {
      if h: nat :| h in s.holders {
        assert Enabled(bs, slots, s, Finish(h, Success));
      } else if i: nat :| i in bs[s.batch] && !Returned(s, i) {
        BatchOfLevel(levels, bs, at, s.batch, i);
        assert s.holders == {} && i !in s.holders;
        assert s.phase[i].Pending?;
        assert Enabled(bs, slots, s, Start(i));
      } else {
        assert Enabled(bs, slots, s, NextBatch);
      }
    }
  }

  lemma NothingCancelled(bs: Batches, slots: nat, n: nat, run: seq<Action>, s: State)
    requires Reaches(bs, slots, Init(n), run, s) && !s.aborting && |s.phase| == n
    ensures forall i: nat :: i < |s.phase| ==> s.phase[i] != Ended(Cancelled)
  {
    forall i: nat | i < |s.phase| ensures s.phase[i] != Ended(Cancelled) {
      NotAbortingNotCancelled(bs, slots, Init(n), run, s, i);
    }
  }

  lemma {:induction false} NotAbortingNotCancelled(bs: Batches, slots: nat, s: State, run: seq<Action>, s': State,
      i: nat)
    requires Reaches(bs, slots, s, run, s') && !s'.aborting && i < |s.phase|
    requires s.phase[i] != Ended(Cancelled)
    ensures i < |s'.phase| && s'.phase[i] != Ended(Cancelled)
    decreases |run|
  {
    if run != [] {
      AbortIsForever(bs, slots, s, run, s');
      NotAbortingNotCancelled(bs, slots, Next(bs, slots, s, run[0]), run[1..], s', i);
    }
  }

  lemma {:induction false} AbortIsForever(bs: Batches, slots: nat, s: State, run: seq<Action>, s': State)
    requires Reaches(bs, slots, s, run, s') && !s'.aborting
    ensures !s.aborting
    decreases |run|
  {
    if run != [] {
      AbortIsForever(bs, slots, Next(bs, slots, s, run[0]), run[1..], s');
    }
  }

  // ---------- Every run ends, and ends with every section ----------

  function Rank(p: Phase): nat {
    match p
    case Pending => 2
    case Running => 1
    case Ended(_) => 0
  }

  function Work(phase: seq<Phase>): nat {
    if phase == [] then 0 else Work(phase[..|phase| - 1]) + Rank(phase[|phase| - 1])
  }

  /** An upper bound on the number of steps still possible. */
  function Remaining(bs: Batches, s: State): nat
    requires s.batch <= |bs|
  {
    Work(s.phase) + (|bs| - s.batch) + if s.aborting then 0 else 1
  }

  lemma {:induction false} WorkUpdate(phase: seq<Phase>, i: nat, p: Phase)
    requires i < |phase|
    ensures Work(phase[i := p]) == Work(phase) - Rank(phase[i]) + Rank(p)
    decreases |phase|
  {
    var m := |phase| - 1;
    if i == m {
      assert phase[i := p][..m] == phase[..m];
    } else {
      assert phase[i := p][..m] == phase[..m][i := p];
      WorkUpdate(phase[..m], i, p);
    }
  }

  lemma StepsConsumeWork(bs: Batches, slots: nat, s: State, a: Action)
    requires Enabled(bs, slots, s, a)
    ensures Next(bs, slots, s, a).batch <= |bs| && Remaining(bs, Next(bs, slots, s, a)) < Remaining(bs, s)
  {
    hide Work;
    if !a.Abort? && !a.NextBatch? { WorkUpdate(s.phase, a.i, Next(bs, slots, s, a).phase[a.i]); }
  }

  /** No run is longer than the work its first state holds: the scheduler always stops. */
  lemma {:induction false} RunsAreBounded(bs: Batches, slots: nat, s: State, run: seq<Action>, s': State)
    requires s.batch <= |bs| && Reaches(bs, slots, s, run, s')
    ensures s'.batch <= |bs| && |run| + Remaining(bs, s') <= Remaining(bs, s)
    decreases |run|
  {
    hide Remaining, Enabled, Next;
    if run != [] {
      StepsConsumeWork(bs, slots, s, run[0]);
      RunsAreBounded(bs, slots, Next(bs, slots, s, run[0]), run[1..], s');
    }
  }

  /** A run that cannot be continued has returned every section of the plan, unless one raised or the
      run was aborted; and after an abort every section of the current batch has ended. */
  lemma MaximalRunsEndEverySection(levels: seq<nat>, bs: Batches, at: seq<nat>, slots: nat, run: seq<Action>, s: State)
    requires IsBatching(levels, bs, at) && slots >= 1 && Reaches(bs, slots, Init(|levels|), run, s)
        && !CanMove(bs, slots, s)
    ensures !s.aborting && !HasRaised(s) ==> forall i: nat :: i < |levels| ==> Returned(s, i)
    ensures s.aborting && s.batch < |bs| ==> forall i: nat :: i in bs[s.batch] ==> HasEnded(s, i)
  {
    hide CanMove, HasRaised, Reaches;
    ReachableInv(levels, bs, at, slots, run, s);
    NeverStuck(levels, bs, at, slots, run, s);
    if !s.aborting && !HasRaised(s) {
      forall i: nat | i < |levels| ensures Returned(s, i) {
        BatchesPartitionPlan(levels, bs, at, i);
        var b, k :| 0 <= b < |bs| && 0 <= k < |bs[b]| && bs[b][k] == i;
        assert Returned(s, bs[b][k]);
      }
    } else if s.aborting && s.batch < |bs| {
      forall i: nat | i in bs[s.batch] ensures HasEnded(s, i) {
        BatchOfLevel(levels, bs, at, s.batch, i);
        CancelMoves(bs, slots, s, i);
      }
    }
  }

  lemma CancelMoves(bs: Batches, slots: nat, s: State, i: nat)
    requires s.batch < |bs| && s.aborting && i in bs[s.batch] && i < |s.phase| && !CanMove(bs, slots, s)
    ensures HasEnded(s, i)
  {
    if !s.phase[i].Ended? { assert Enabled(bs, slots, s, Cancel(i)); }
  }

  // ---------- Results ----------

  ghost predicate OnePlaceEach(bs: Batches, n: nat) {
    && (forall b, k :: 0 <= b < |bs| && 0 <= k < |bs[b]| ==> bs[b][k] < n)
    && (forall b, k, c, l :: 0 <= b < |bs| && 0 <= k < |bs[b]|
                             && 0 <= c < |bs| && 0 <= l < |bs[c]| && bs[b][k] == bs[c][l]
         ==> b == c && k == l)
    && (forall i: nat :: i < n ==> HasPlace(bs, i))
  }

  ghost predicate HasPlace(bs: Batches, i: nat) {
    exists b, k :: 0 <= b < |bs| && 0 <= k < |bs[b]| && bs[b][k] == i
  }

  lemma BatchingIsOnePlaceEach(levels: seq<nat>, bs: Batches, at: seq<nat>)
    requires IsBatching(levels, bs, at)
    ensures OnePlaceEach(bs, |levels|)
  {
    forall b, k | 0 <= b < |bs| && 0 <= k < |bs[b]| ensures bs[b][k] < |levels| {
      BatchOfLevel(levels, bs, at, b, bs[b][k]);
    }
    forall i: nat | i < |levels| ensures HasPlace(bs, i) { BatchesPartitionPlan(levels, bs, at, i); }
    forall b, k, c, l | 0 <= b < |bs| && 0 <= k < |bs[b]| && 0 <= c < |bs| && 0 <= l < |bs[c]| && bs[b][k] == bs[c][l]
      ensures b == c && k == l
    {
      BatchesPartitionPlan(levels, bs, at, bs[b][k]);
    }
  }

  ghost predicate Holds<R>(byId: map<nat, R>, batch: seq<nat>, results: seq<R>, n: nat)
    requires n <= |batch| == |results|
  {
    forall k :: 0 <= k < n ==> batch[k] in byId && byId[batch[k]] == results[k]
  }

  /** Storing one more result keeps those that are stored. */
  lemma StoreKeeps<R>(byId: map<nat, R>, bs: Batches, n: nat, b: nat, k: nat, r: R, c: nat, results: seq<R>, m: nat)
    requires OnePlaceEach(bs, n) && b < |bs| && k < |bs[b]| && c < |bs| && m <= |bs[c]| == |results|
        && (c == b ==> m <= k)
    requires Holds(byId, bs[c], results, m)
    ensures Holds(byId[bs[b][k] := r], bs[c], results, m)
  {
    forall l | 0 <= l < m ensures bs[c][l] != bs[b][k] {
    }
  }

  lemma StoreOne<R>(byId: map<nat, R>, batch: seq<nat>, results: seq<R>, k: nat)
    requires k < |batch| == |results| && Holds(byId[batch[k] := results[k]], batch, results, k)
    ensures Holds(byId[batch[k] := results[k]], batch, results, k + 1)
  {
  }

  ghost predicate HoldsAll<R>(byId: map<nat, R>, bs: Batches, results: seq<seq<R>>, n: nat)
    requires n <= |bs| == |results| && forall b :: 0 <= b < |bs| ==> |results[b]| == |bs[b]|
  {
    forall b :: 0 <= b < n ==> Holds(byId, bs[b], results[b], |bs[b]|)
  }

  /** results_by_id: every result under the number of its section. */
  method StoreResults<R>(bs: Batches, ghost n: nat, results: seq<seq<R>>) returns (byId: map<nat, R>)
    requires OnePlaceEach(bs, n)
    requires |results| == |bs| && forall b :: 0 <= b < |bs| ==> |results[b]| == |bs[b]|
    ensures HoldsAll(byId, bs, results, |bs|)
  {
    hide OnePlaceEach, Holds;
    byId := map[];
    for b := 0 to |bs|
      invariant HoldsAll(byId, bs, results, b)
    {
      NothingStored(byId, bs[b], results[b]);
      for k := 0 to |bs[b]|
        invariant HoldsAll(byId, bs, results, b)
        invariant Holds(byId, bs[b], results[b], k)
      {
        forall c | 0 <= c < b ensures Holds(byId[bs[b][k] := results[b][k]], bs[c], results[c], |bs[c]|) {
          StoreKeeps(byId, bs, n, b, k, results[b][k], c, results[c], |bs[c]|);
        }
        StoreKeeps(byId, bs, n, b, k, results[b][k], b, results[b], k);
        StoreOne(byId, bs[b], results[b], k);
        byId := byId[bs[b][k] := results[b][k]];
      }
    }
  }

  lemma NothingStored<R>(byId: map<nat, R>, batch: seq<nat>, results: seq<R>)
    requires |batch| == |results|
    ensures Holds(byId, batch, results, 0)
  {
  }

  lemma StoredAt<R>(byId: map<nat, R>, bs: Batches, results: seq<seq<R>>, b: nat, k: nat)
    requires b < |bs| == |results| && (forall b :: 0 <= b < |bs| ==> |results[b]| == |bs[b]|) && k < |bs[b]|
    requires HoldsAll(byId, bs, results, |bs|)
    ensures bs[b][k] in byId && byId[bs[b][k]] == results[b][k]
  {
  }

  /** The results of the batches, put back into plan order through the results_by_id dictionary. */
  method CollectResults<R>(levels: seq<nat>, bs: Batches, ghost at: seq<nat>, results: seq<seq<R>>)
      returns (out: seq<R>)
    requires IsBatching(levels, bs, at)
    requires |results| == |bs| && forall b :: 0 <= b < |bs| ==> |results[b]| == |bs[b]|
    ensures |out| == |levels|
    ensures forall b, k :: 0 <= b < |bs| && 0 <= k < |bs[b]| ==> bs[b][k] < |out| && out[bs[b][k]] == results[b][k]
  {
    BatchingIsOnePlaceEach(levels, bs, at);
    hide IsBatching, HoldsAll;
    var byId := StoreResults(bs, |levels|, results);
    out := [];
    for i := 0 to |levels|
      invariant |out| == i
      invariant forall j: nat :: j < i ==> j in byId && out[j] == byId[j]
    {
      assert HasPlace(bs, i);
      var b, k :| 0 <= b < |bs| && 0 <= k < |bs[b]| && bs[b][k] == i;
      StoredAt(byId, bs, results, b, k);
      out := out + [byId[i]];
    }
    forall b, k | 0 <= b < |bs| && 0 <= k < |bs[b]|
      ensures bs[b][k] < |out| && out[bs[b][k]] == results[b][k]
    {
      StoredAt(byId, bs, results, b, k);
    }
  }
}
