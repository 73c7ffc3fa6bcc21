/** The narrative-chain scheduler of src/workflows/write_loop.py: one task per section, which waits
    for the end events of its dependencies one after the other, then for a semaphore slot, then
    processes the section.  Tasks interleave arbitrarily; a task may end in any way. */
module ChainScheduler {
  import opened Slots

  /** Where a section's task is.  Waiting(k) has seen the first k of its dependencies end. */
  datatype Phase = Waiting(seen: nat) | Queued | Running | Ended(outcome: Outcome)

  /** deps[i] lists the sections that section i waits for; group[i] is the chain it belongs to. */
  datatype Config = Config(deps: seq<seq<nat>>, group: seq<nat>, slots: nat)

  /** holders are the tasks inside the semaphore; starts logs the order in which sections began;
      aborting is set once the remaining tasks are cancelled. */
  datatype State = State(phase: seq<Phase>, holders: set<nat>, starts: seq<nat>, aborting: bool)

  datatype Action =
    | See(i: nat)       // the next awaited end event is set
    | Enter(i: nat)     // all dependencies have ended: ask for a slot
    | Start(i: nat)     // get a slot
    | Finish(i: nat, outcome: Outcome)
    | Abort             // an exception or a cancellation reaches the gather
    | Cancel(i: nat)

  /** The last earlier section of the same chain. */
  function Prev(group: seq<nat>, i: nat, j: nat): (p: int)
    requires j <= i < |group|
    ensures -1 <= p < j
    ensures p >= 0 ==> group[p] == group[i]
    ensures forall k :: p < k < j ==> group[k] != group[i]
  {
    if j == 0 then -1
    else if group[j - 1] == group[i] then j - 1
    else Prev(group, i, j - 1)
  }

  /** Section i waits for earlier sections, among them its chain predecessor. */
  ghost predicate WaitsBackwards(c: Config, i: nat)
    requires i < |c.deps| == |c.group|
  {
    && (forall k :: 0 <= k < |c.deps[i]| ==> c.deps[i][k] < i)
    && (Prev(c.group, i, i) >= 0 ==> Prev(c.group, i, i) as nat in c.deps[i])
  }

  ghost predicate WellFormed(c: Config) {
    && |c.group| == |c.deps| && c.slots >= 1
    && (forall i :: 0 <= i < |c.deps| ==> WaitsBackwards(c, i))
  }

  ghost function Init(c: Config): State {
    State(seq(|c.deps|, _ => Waiting(0)), {}, [], false)
  }

  predicate HasEnded(s: State, i: nat) {
    i < |s.phase| && s.phase[i].Ended?
  }

  ghost predicate Enabled(c: Config, s: State, a: Action) {
    match a
    case See(i) => !s.aborting && i < |s.phase| && i < |c.deps| && s.phase[i].Waiting? && s.phase[i].seen < |c.deps[i]|
                   && HasEnded(s, c.deps[i][s.phase[i].seen])
    case Enter(i) => !s.aborting && i < |s.phase| && i < |c.deps| && s.phase[i] == Waiting(|c.deps[i]|)
    case Start(i) => !s.aborting && i < |s.phase| && s.phase[i].Queued? && |s.holders| < c.slots
    case Finish(i, o) => i < |s.phase| && s.phase[i].Running? && !o.Cancelled?
    case Abort => !s.aborting
    case Cancel(i) => s.aborting && i < |s.phase| && !s.phase[i].Ended?
  }

  ghost function Next(c: Config, s: State, a: Action): State
    requires Enabled(c, s, a)
  {
    match a
    case See(i) => s.(phase := s.phase[i := Waiting(s.phase[i].seen + 1)])
    case Enter(i) => s.(phase := s.phase[i := Queued])
    case Start(i) => s.(phase := s.phase[i := Running], holders := s.holders + {i}, starts := s.starts + [i])
    case Finish(i, o) => s.(phase := s.phase[i := Ended(o)], holders := s.holders - {i})
    case Abort => s.(aborting := true)
    case Cancel(i) => s.(phase := s.phase[i := Ended(Cancelled)], holders := s.holders - {i})
  }

  /** s' is reached from s by the interleaving as. */
  ghost predicate Reaches(c: Config, s: State, run: seq<Action>, s': State)
    decreases |run|
  {
    if run == [] then s == s'
    else Enabled(c, s, run[0]) && Reaches(c, Next(c, s, run[0]), run[1..], s')
  }

  // ---------- Invariants ----------

  /** The section got past its waits. */
  predicate Cleared(p: Phase) {
    p.Queued? || p.Running? || (p.Ended? && !p.outcome.Cancelled?)
  }

  /** How many of its dependencies a section has seen end. */
  function SeenOf(p: Phase, n: nat): nat {
    if Cleared(p) then n else if p.Waiting? then p.seen else 0
  }

  ghost predicate WaitsInv(c: Config, s: State, i: nat)
    requires i < |s.phase| == |c.deps|
  {
    && SeenOf(s.phase[i], |c.deps[i]|) <= |c.deps[i]|
    && forall k :: 0 <= k < SeenOf(s.phase[i], |c.deps[i]|) ==> HasEnded(s, c.deps[i][k])
  }

  ghost predicate SlotsInv(c: Config, s: State) {
    (forall i: nat :: i in s.holders <==> i < |s.phase| && s.phase[i].Running?) && |s.holders| <= c.slots
  }

  /** All earlier sections of its chain have ended before a section gets past its waits. */
  ghost predicate ChainInv(c: Config, s: State, i: nat)
    requires i < |s.phase| == |c.group|
  {
    Cleared(s.phase[i]) ==> forall j :: 0 <= j < i && c.group[j] == c.group[i] ==> HasEnded(s, j)
  }

  /** The log holds every section that has begun, once, after the earlier sections of its chain. */
  ghost predicate StartsInv(c: Config, s: State)
    requires |s.phase| == |c.group|
  {
    && (forall a :: 0 <= a < |s.starts| ==> s.starts[a] < |s.phase|)
    && (forall i: nat :: i < |s.phase| ==> Logged(s, i))
    && (forall a, b :: 0 <= a < b < |s.starts| ==> s.starts[a] != s.starts[b])
    && (forall b, j: nat :: 0 <= b < |s.starts| && j < s.starts[b] && c.group[j] == c.group[s.starts[b]] ==>
        j in s.starts[..b])
  }

  ghost predicate Logged(s: State, i: nat)
    requires i < |s.phase|
  {
    && (s.phase[i].Running? || (s.phase[i].Ended? && !s.phase[i].outcome.Cancelled?) ==> i in s.starts)
    && (i in s.starts ==> s.phase[i].Running? || s.phase[i].Ended?)
  }

  ghost predicate Inv(c: Config, s: State) {
    && |s.phase| == |c.deps| == |c.group|
    && SlotsInv(c, s)
    && (!s.aborting ==> forall i :: 0 <= i < |s.phase| ==> s.phase[i] != Ended(Cancelled))
    && (forall i :: 0 <= i < |s.phase| ==> WaitsInv(c, s, i))
    && (forall i :: 0 <= i < |s.phase| ==> ChainInv(c, s, i))
    && StartsInv(c, s)
  }

  lemma InitInv(c: Config)
    requires WellFormed(c)
    ensures Inv(c, Init(c))
  {
  }

  lemma EndedIsForever(c: Config, s: State, a: Action, j: nat)
    requires Enabled(c, s, a) && HasEnded(s, j)
    ensures HasEnded(Next(c, s, a), j)
  {
  }

  lemma StepKeepsWaits(c: Config, s: State, a: Action, i: nat)
    requires Inv(c, s) && Enabled(c, s, a) && i < |s.phase|
    ensures WaitsInv(c, Next(c, s, a), i)
  {
    assert WaitsInv(c, s, i);
    forall k | 0 <= k < SeenOf(Next(c, s, a).phase[i], |c.deps[i]|)
      ensures HasEnded(Next(c, s, a), c.deps[i][k])
    {
      EndedIsForever(c, s, a, c.deps[i][k]);
    }
  }

  lemma StepKeepsChain(c: Config, s: State, a: Action, i: nat)
    requires WellFormed(c) && Inv(c, s) && Enabled(c, s, a) && i < |s.phase|
    ensures ChainInv(c, Next(c, s, a), i)
  {
    assert ChainInv(c, s, i);
    if Cleared(Next(c, s, a).phase[i]) {
      forall j | 0 <= j < i && c.group[j] == c.group[i]
        ensures HasEnded(Next(c, s, a), j)
      {
        if a == Enter(i) {
          ChainHasEnded(c, s, i, j);
        }
        EndedIsForever(c, s, a, j);
      }
    }
  }

  /** When all dependencies of i have ended, so have all earlier sections of its chain. */
  lemma ChainHasEnded(c: Config, s: State, i: nat, j: nat)
    requires WellFormed(c) && Inv(c, s) && Enabled(c, s, Enter(i))
    requires j < i && c.group[j] == c.group[i]
    ensures HasEnded(s, j)
  {
    assert WaitsBackwards(c, i) && WaitsInv(c, s, i);
    var p := Prev(c.group, i, i);
    var k :| 0 <= k < |c.deps[i]| && c.deps[i][k] == p;
    assert HasEnded(s, p);
    assert ChainInv(c, s, p);
  }

  lemma StepKeepsSlots(c: Config, s: State, a: Action)
    requires SlotsInv(c, s) && Enabled(c, s, a)
    ensures SlotsInv(c, Next(c, s, a))
  {
    var i := if a.Abort? then 0 else a.i;
    HoldersChange(s.holders, Next(c, s, a).holders, c.slots, i);
  }

  lemma StepKeepsStarts(c: Config, s: State, a: Action)
    requires Inv(c, s) && Enabled(c, s, a)
    ensures StartsInv(c, Next(c, s, a))
  {
    var s', m := Next(c, s, a), |s.starts|;
    assert s'.starts[..m] == s.starts;
    forall i: nat | i < |s.phase| ensures Logged(s', i) {
      assert Logged(s, i);
    }
    forall b, j: nat | 0 <= b < |s'.starts| && j < s'.starts[b] && c.group[j] == c.group[s'.starts[b]]
      ensures j in s'.starts[..b]
    {
      if b < m {
        assert s'.starts[..b] == s.starts[..b];
      } else {
        assert ChainInv(c, s, a.i) && HasEnded(s, j);
        assert Logged(s, j);
      }
    }
    if a.Start? {
      assert Logged(s, a.i);
    }
  }

  lemma StepKeepsInv(c: Config, s: State, a: Action)
    requires WellFormed(c) && Inv(c, s) && Enabled(c, s, a)
    ensures Inv(c, Next(c, s, a))
  {
    var s' := Next(c, s, a);
    StepKeepsSlots(c, s, a);
    StepKeepsStarts(c, s, a);
    forall i | 0 <= i < |s.phase| ensures WaitsInv(c, s', i) && ChainInv(c, s', i) {
      StepKeepsWaits(c, s, a, i);
      StepKeepsChain(c, s, a, i);
    }
  }

  lemma {:induction false} RunKeepsInv(c: Config, s: State, run: seq<Action>, s': State)
    requires WellFormed(c) && Inv(c, s) && Reaches(c, s, run, s')
    ensures Inv(c, s')
    decreases |run|
  {
    if run != [] {
      StepKeepsInv(c, s, run[0]);
      RunKeepsInv(c, Next(c, s, run[0]), run[1..], s');
    }
  }

  // ---------- Safety of every interleaving ----------

  /** In every interleaving at most `slots` sections are in process. */
  lemma AtMostSlotsRun(c: Config, run: seq<Action>, s: State)
    requires WellFormed(c) && Reaches(c, Init(c), run, s)
    ensures |set i | 0 <= i < |s.phase| && s.phase[i].Running?| <= c.slots
  {
    InitInv(c);
    RunKeepsInv(c, Init(c), run, s);
    var running := set i | 0 <= i < |s.phase| && s.phase[i].Running?;
    SubsetSize(running, s.holders);
  }

  /** In every interleaving a section is in process only when all it waits for has ended, and no two
      sections of one chain are in process together. */
  lemma RunningAfterDependencies(c: Config, run: seq<Action>, s: State, i: nat)
    requires WellFormed(c) && Reaches(c, Init(c), run, s) && i < |s.phase| && s.phase[i].Running?
    ensures i < |c.deps| == |c.group|
    ensures forall k :: 0 <= k < |c.deps[i]| ==> HasEnded(s, c.deps[i][k])
    ensures forall j: nat :: j < |c.group| && j != i && c.group[j] == c.group[i] ==>
        j >= |s.phase| || !s.phase[j].Running?
  {
    InitInv(c);
    RunKeepsInv(c, Init(c), run, s);
    assert WaitsInv(c, s, i);
    forall j: nat | j < |c.group| && j != i && c.group[j] == c.group[i]
      ensures j >= |s.phase| || !s.phase[j].Running?
    {
      assert ChainInv(c, s, i) && ChainInv(c, s, j);
      assert j < i ==> HasEnded(s, j);
      assert i < j && s.phase[j].Running? ==> HasEnded(s, i);
    }
  }

  lemma ChainHasEndedBefore(c: Config, run: seq<Action>, s: State, i: nat, j: nat)
    requires WellFormed(c) && Reaches(c, Init(c), run, s) && j < i < |s.phase| && s.phase[i].Running?
    requires i < |c.group| && c.group[i] == c.group[j]
    ensures HasEnded(s, j)
  {
    InitInv(c);
    RunKeepsInv(c, Init(c), run, s);
    assert ChainInv(c, s, i);
  }

  /** With one chain through the whole plan, sections begin exactly in plan order. */
  lemma OneChainStartsInPlanOrder(c: Config, run: seq<Action>, s: State)
    requires WellFormed(c) && Reaches(c, Init(c), run, s)
    requires forall i, j :: 0 <= i < |c.group| && 0 <= j < |c.group| ==> c.group[i] == c.group[j]
    ensures forall b :: 0 <= b < |s.starts| ==> s.starts[b] == b
  {
    InitInv(c);
    RunKeepsInv(c, Init(c), run, s);
    LogIsPrefix(c, s, |s.starts|);
  }

  lemma {:induction false} LogIsPrefix(c: Config, s: State, m: nat)
    requires Inv(c, s) && m <= |s.starts|
    requires forall i, j :: 0 <= i < |c.group| && 0 <= j < |c.group| ==> c.group[i] == c.group[j]
    ensures forall b :: 0 <= b < m ==> s.starts[b] == b
  {
    if m > 0 {
      LogIsPrefix(c, s, m - 1);
      var i := s.starts[m - 1];
      var before := s.starts[..m - 1];
      assert i > m - 1 ==> m - 1 in before;
      forall k | 0 <= k < m - 1 ensures k in before { assert before[k] == k; }
      assert i < m - 1 ==> i in before;
      forall x | x in before ensures x < m - 1 && x != i {
        var k :| 0 <= k < m - 1 && before[k] == x;
        assert s.starts[k] == k;
      }
      assert i !in before && m - 1 !in before;
    }
  }

  // ---------- Every run ends, and ends with every section ----------

  function Rank(p: Phase, n: nat): nat {
    match p
    case Waiting(k) => 3 + if k < n then n - k else 0
    case Queued => 2
    case Running => 1
    case Ended(_) => 0
  }

  function Work(phase: seq<Phase>, deps: seq<seq<nat>>): nat
    requires |phase| == |deps|
  {
    if phase == [] then 0
    else Work(phase[..|phase| - 1], deps[..|deps| - 1]) + Rank(phase[|phase| - 1], |deps[|deps| - 1]|)
  }

  /** An upper bound on the number of steps still possible. */
  function Remaining(c: Config, s: State): nat
    requires |s.phase| == |c.deps|
  {
    Work(s.phase, c.deps) + if s.aborting then 0 else 1
  }

  lemma {:induction false} WorkUpdate(phase: seq<Phase>, deps: seq<seq<nat>>, i: nat, p: Phase)
    requires |phase| == |deps| && i < |phase|
    ensures Work(phase[i := p], deps) == Work(phase, deps) - Rank(phase[i], |deps[i]|) + Rank(p, |deps[i]|)
    decreases |phase|
  {
    var m := |phase| - 1;
    if i == m {
      assert phase[i := p][..m] == phase[..m];
    } else {
      assert phase[i := p][..m] == phase[..m][i := p];
      WorkUpdate(phase[..m], deps[..m], i, p);
    }
  }

  lemma StepsConsumeWork(c: Config, s: State, a: Action)
    requires Inv(c, s) && Enabled(c, s, a)
    ensures |Next(c, s, a).phase| == |c.deps| && Remaining(c, Next(c, s, a)) < Remaining(c, s)
  {
    if !a.Abort? {
      WorkUpdate(s.phase, c.deps, a.i, Next(c, s, a).phase[a.i]);
    }
  }

  /** No run is longer than the work the initial state holds: the scheduler always stops. */
  lemma {:induction false} RunsAreBounded(c: Config, s: State, run: seq<Action>, s': State)
    requires WellFormed(c) && Inv(c, s) && Reaches(c, s, run, s')
    ensures |s'.phase| == |c.deps| && |run| + Remaining(c, s') <= Remaining(c, s)
    decreases |run|
  {
    if run != [] {
      StepKeepsInv(c, s, run[0]);
      StepsConsumeWork(c, s, run[0]);
      RunsAreBounded(c, Next(c, s, run[0]), run[1..], s');
    }
  }

  ghost predicate AllEnded(s: State) {
    forall i :: 0 <= i < |s.phase| ==> s.phase[i].Ended?
  }

  /** A step the scheduler can take by itself, without an abort from outside. */
  ghost predicate CanMove(c: Config, s: State) {
    exists a: Action :: !a.Abort? && Enabled(c, s, a)
  }

  /** No reachable state with a section left is stuck. */
  lemma NeverStuck(c: Config, run: seq<Action>, s: State)
    requires WellFormed(c) && Reaches(c, Init(c), run, s)
    ensures AllEnded(s) || CanMove(c, s)
  {
    InitInv(c);
    RunKeepsInv(c, Init(c), run, s);
    if !AllEnded(s) {
      var i :| 0 <= i < |s.phase| && !s.phase[i].Ended?;
      var m := FirstUnfinished(s, i);
      if s.aborting {
        assert Enabled(c, s, Cancel(m));
      } else {
        assert WaitsBackwards(c, m) && WaitsInv(c, s, m);
        match s.phase[m]
        case Waiting(k) =>
          if k < |c.deps[m]| {
            assert HasEnded(s, c.deps[m][k]);
            assert Enabled(c, s, See(m));
          } else {
            assert Enabled(c, s, Enter(m));
          }
        case Queued =>
          if |s.holders| < c.slots {
            assert Enabled(c, s, Start(m));
          } else {
            var h :| h in s.holders;
            assert Enabled(c, s, Finish(h, Success));
          }
        case Running =>
          assert Enabled(c, s, Finish(m, Success));
      }
    }
  }

  lemma FirstUnfinished(s: State, i: nat) returns (m: nat)
    requires i < |s.phase| && !s.phase[i].Ended?
    ensures m < |s.phase| && !s.phase[m].Ended? && forall j :: 0 <= j < m ==> s.phase[j].Ended?
  {
    m := 0;
    while s.phase[m].Ended?
      invariant m <= i && forall j :: 0 <= j < m ==> s.phase[j].Ended?
      decreases i - m
    {
      m := m + 1;
    }
  }

  /** So a run that cannot be continued has ended every section, and unless it was aborted every
      section has been processed. */
  lemma MaximalRunsEndEverySection(c: Config, run: seq<Action>, s: State)
    requires WellFormed(c) && Reaches(c, Init(c), run, s) && !CanMove(c, s)
    ensures AllEnded(s) && |s.phase| == |c.deps|
    ensures !s.aborting ==> forall i: nat :: i < |s.phase| ==> i in s.starts && !s.phase[i].outcome.Cancelled?
  {
    NeverStuck(c, run, s);
    InitInv(c);
    RunKeepsInv(c, Init(c), run, s);
    forall i: nat | !s.aborting && i < |s.phase|
      ensures i in s.starts && !s.phase[i].outcome.Cancelled?
    {
      assert Logged(s, i);
    }
  }
}
