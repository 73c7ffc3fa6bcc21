/** Which sections a section waits for (write_loop.py: _deps_of), and what the scheduler then
    guarantees for a plan. */
module NarrativeChain {
  import opened BuildsOn
  import opened Ordered
  import opened Plans
  import opened ChainScheduler

  datatype Mode = Chapter | Full

  /** The chain a section belongs to: its chapter, or the whole document. */
  function Groups(plan: Plan, mode: Mode): (g: seq<nat>)
    ensures |g| == |plan|
  {
    seq(|plan|, i requires 0 <= i < |plan| => if mode.Full? then 0 else plan[i].chapter)
  }

  /** by_label: on equal (chapter, section) the last section of the plan wins. */
  predicate IsLabelled(plan: Plan, t: nat, chapter: nat, section: nat) {
    && t < |plan| && plan[t].chapter == chapter && plan[t].section == section
    && forall u :: t < u < |plan| ==> plan[u].chapter != chapter || plan[u].section != section
  }

  predicate IsTarget(plan: Plan, raw: string, t: nat)
    requires t < |plan|
  {
    var ref := ParseRef(raw);
    ref.Some? &&
    if ref.value.section.None? then plan[t].chapter == ref.value.chapter
    else IsLabelled(plan, t, ref.value.chapter, ref.value.section.value)
  }

  predicate Awaits(plan: Plan, mode: Mode, i: nat, t: nat)
    requires i < |plan|
  {
    t < i && (t == Prev(Groups(plan, mode), i, i)
              || exists k :: 0 <= k < |plan[i].buildsOn| && IsTarget(plan, plan[i].buildsOn[k], t))
  }

  /** The positions below n that satisfy p, in ascending order. */
  function Positions(n: nat, p: nat -> bool): (d: seq<nat>)
    ensures forall t: nat :: t in d <==> t < n && p(t)
    ensures forall j, k :: 0 <= j < k < |d| ==> d[j] < d[k]
  {
    if n == 0 then []
    else
      var d := Positions(n - 1, p);
      if p(n - 1) then assert forall k :: 0 <= k < |d| ==> d[k] in d; d + [n - 1] else d
  }

  function SortedAwaited(plan: Plan, mode: Mode, i: nat): (d: seq<nat>)
    requires i < |plan|
  {
    Positions(i, (t: nat) => Awaits(plan, mode, i, t))
  }

  /** _deps_of: the chain predecessor and the builds_on targets that come earlier, in plan order. */
  method DepsOf(plan: Plan, mode: Mode, i: nat) returns (d: seq<nat>)
    requires i < |plan|
    ensures d == SortedAwaited(plan, mode, i)
    ensures forall j, k :: 0 <= j < k < |d| ==> d[j] < d[k]
    ensures forall t: nat ::
        t in d <==> t < i && (|| (mode.Full? && t == i - 1)
                              || (mode.Chapter? && plan[t].chapter == plan[i].chapter
                                  && forall u :: t < u < i ==> plan[u].chapter != plan[i].chapter)
                              || BuildsUponLast(plan, i, t))
    ensures DistinctLabels(plan) ==> forall t: nat :: t < i ==>
        (BuildsUponLast(plan, i, t) <==> BuildsUpon(plan[i], plan[t]))
  {
    hide IsTarget, Positions, BuildsUpon, BuildsUponLast;
    var deps: set<nat> := {};
    var prev := Prev(Groups(plan, mode), i, i);
    if prev >= 0 {
      deps := deps + {prev as nat};
    }
    for k := 0 to |plan[i].buildsOn|
      invariant forall t: nat ::
          t in deps <==> t < i && (t == prev || exists l :: 0 <= l < k && IsTarget(plan, plan[i].buildsOn[l], t))
    {
      var targets := set t: nat | t < i && IsTarget(plan, plan[i].buildsOn[k], t);
      deps := deps + targets;
    }
    d := SortedSet(deps, i);
    SameRising(d, SortedAwaited(plan, mode, i), (x: nat, y: nat) => x < y);
    forall t: nat | t < i ensures t in d <==> IsDependency(plan, mode, i, t) { AwaitsIff(plan, mode, i, t); }
    forall t: nat | t < i && DistinctLabels(plan)
      ensures BuildsUponLast(plan, i, t) <==> BuildsUpon(plan[i], plan[t])
    {
      LastIsOnly(plan, i, t);
    }
  }

  /** A reference of section i names section t; of several sections with that number, t is the last. */
  ghost predicate BuildsUponLast(plan: Plan, i: nat, t: nat)
    requires i < |plan| && t < |plan|
  {
    exists k :: 0 <= k < |plan[i].buildsOn| && Names(plan[i].buildsOn[k], plan[t])
      && (ParseRef(plan[i].buildsOn[k]).value.section.None?
          || forall u :: t < u < |plan| ==> !Names(plan[i].buildsOn[k], plan[u]))
  }

  lemma LastIsOnly(plan: Plan, i: nat, t: nat)
    requires DistinctLabels(plan) && i < |plan| && t < |plan|
    ensures BuildsUponLast(plan, i, t) <==> BuildsUpon(plan[i], plan[t])
  {
    hide ParseRef;
    forall k, u | 0 <= k < |plan[i].buildsOn| && Names(plan[i].buildsOn[k], plan[t]) && t < u < |plan|
                  && ParseRef(plan[i].buildsOn[k]).value.section.Some?
      ensures !Names(plan[i].buildsOn[k], plan[u])
    {
      assert plan[t].Label() != plan[u].Label();
    }
  }

  /** What a section waits for, said of the plan itself: the section before it, of the whole document or of
      its chapter, and the earlier sections it builds upon. */
  ghost predicate IsDependency(plan: Plan, mode: Mode, i: nat, t: nat)
    requires i < |plan|
  {
    t < i && (|| (mode.Full? && t == i - 1)
              || (mode.Chapter? && plan[t].chapter == plan[i].chapter
                  && forall u :: t < u < i ==> plan[u].chapter != plan[i].chapter)
              || BuildsUponLast(plan, i, t))
  }

  lemma AwaitsIff(plan: Plan, mode: Mode, i: nat, t: nat)
    requires t < i < |plan|
    ensures Awaits(plan, mode, i, t) <==> IsDependency(plan, mode, i, t)
  {
    PredecessorIff(plan, mode, i, t);
    hide Prev, Groups, IsTarget, ParseRef, Names;
    forall k | 0 <= k < |plan[i].buildsOn| ensures IsTarget(plan, plan[i].buildsOn[k], t) <==>
      Names(plan[i].buildsOn[k], plan[t]) && (ParseRef(plan[i].buildsOn[k]).value.section.None?
        || forall u :: t < u < |plan| ==> !Names(plan[i].buildsOn[k], plan[u]))
    {
      TargetIff(plan, plan[i].buildsOn[k], t);
    }
  }

  lemma PredecessorIff(plan: Plan, mode: Mode, i: nat, t: nat)
    requires t < i < |plan|
    ensures t == Prev(Groups(plan, mode), i, i) <==>
        || (mode.Full? && t == i - 1)
        || (mode.Chapter? && plan[t].chapter == plan[i].chapter
            && forall u :: t < u < i ==> plan[u].chapter != plan[i].chapter)
  {
    var g := Groups(plan, mode);
    var p := Prev(g, i, i);
    hide Prev;
    assert forall u :: 0 <= u <= i ==> g[u] == if mode.Full? then 0 else plan[u].chapter;
  }

  lemma TargetIff(plan: Plan, raw: string, t: nat)
    requires t < |plan|
    ensures Names(raw, plan[t]) ==> ParseRef(raw).Some?
    ensures IsTarget(plan, raw, t) <==>
      Names(raw, plan[t]) && (ParseRef(raw).value.section.None? || forall u :: t < u < |plan| ==> !Names(raw, plan[u]))
  {
    hide ParseRef;
  }

  /** sorted(deps), for positions below n */
  method SortedSet(s: set<nat>, n: nat) returns (d: seq<nat>)
    requires forall t :: t in s ==> t < n
    ensures forall t: nat :: t in d <==> t in s
    ensures forall j, k :: 0 <= j < k < |d| ==> d[j] < d[k]
  {
    d := [];
    for t := 0 to n
      invariant forall u: nat :: u in d <==> u in s && u < t
      invariant forall j, k :: 0 <= j < k < |d| ==> d[j] < d[k]
    {
      if t in s {
        assert forall k :: 0 <= k < |d| ==> d[k] in d;
        d := d + [t];
      }
    }
  }

  /** The scheduler's configuration for a plan: the semaphore holds max(1, concurrency) slots. */
  function ConfigOf(plan: Plan, mode: Mode, concurrency: int): (c: Config)
    ensures |c.deps| == |plan| && c.group == Groups(plan, mode)
        && c.slots == (if concurrency < 1 then 1 else concurrency)
    ensures forall i :: 0 <= i < |plan| ==> c.deps[i] == SortedAwaited(plan, mode, i)
  {
    Config(seq(|plan|, i requires 0 <= i < |plan| => SortedAwaited(plan, mode, i)),
           Groups(plan, mode),
           if concurrency < 1 then 1 else concurrency)
  }

  /** All waits point backwards, whatever the builds_on lists say: no cycle of waits can exist. */
  lemma PlansAreWellFormed(plan: Plan, mode: Mode, concurrency: int)
    ensures WellFormed(ConfigOf(plan, mode, concurrency))
  {
    hide IsTarget, Positions;
    var c := ConfigOf(plan, mode, concurrency);
    forall i: nat | i < |plan| ensures WaitsBackwards(c, i) {
      forall k | 0 <= k < |c.deps[i]| ensures c.deps[i][k] < i { assert c.deps[i][k] in c.deps[i]; }
      var p := Prev(c.group, i, i);
      if p >= 0 { assert Awaits(plan, mode, i, p); }
    }
  }

  /** In every interleaving: while a section is in process, every earlier section it builds upon
      has ended, and so has every earlier section of its chain. */
  lemma SectionsRunAfterWhatTheyBuildOn(plan: Plan, mode: Mode, concurrency: int, run: seq<Action>, s: State, i: nat,
      j: nat)
    requires DistinctLabels(plan) && j < i < |plan|
    requires Reaches(ConfigOf(plan, mode, concurrency), Init(ConfigOf(plan, mode, concurrency)), run, s)
    requires i < |s.phase| && s.phase[i].Running?
    requires BuildsUpon(plan[i], plan[j]) || mode.Full? || plan[i].chapter == plan[j].chapter
    ensures HasEnded(s, j)
  {
    var c := ConfigOf(plan, mode, concurrency);
    PlansAreWellFormed(plan, mode, concurrency);
    if BuildsUpon(plan[i], plan[j]) {
      NamedIsDep(plan, mode, concurrency, i, j);
      hide *;
      RunningAfterDependencies(c, run, s, i);
      var k :| 0 <= k < |c.deps[i]| && c.deps[i][k] == j;
      assert HasEnded(s, c.deps[i][k]);
    } else {
      assert c.group[i] == c.group[j];
      hide *;
      ChainHasEndedBefore(c, run, s, i, j);
    }
  }

  /** In full mode the document is written serially: sections begin in plan order, and while one is in
      process every earlier one has ended and no other is in process. */
  lemma FullModeIsSerial(plan: Plan, concurrency: int, run: seq<Action>, s: State)
    requires Reaches(ConfigOf(plan, Full, concurrency), Init(ConfigOf(plan, Full, concurrency)), run, s)
    ensures forall b :: 0 <= b < |s.starts| ==> s.starts[b] == b
    ensures forall i: nat, j: nat :: i < |s.phase| && s.phase[i].Running? && j < i ==> HasEnded(s, j)
    ensures forall i: nat, j: nat :: i < |s.phase| && s.phase[i].Running? && j < |s.phase| && s.phase[j].Running? ==>
        i == j
  {
    var c := ConfigOf(plan, Full, concurrency);
    PlansAreWellFormed(plan, Full, concurrency);
    assert forall i :: 0 <= i < |c.group| ==> c.group[i] == 0;
    hide *;
    ReachedPhases(plan, Full, concurrency, run, s);
    OneChainStartsInPlanOrder(c, run, s);
    forall i: nat, j: nat | i < |s.phase| && s.phase[i].Running? && j < i
      ensures HasEnded(s, j) && !s.phase[j].Running?
    {
      ChainHasEndedBefore(c, run, s, i, j);
      EndedIsNotRunning(s, j);
    }
  }

  /** In chapter mode the same holds inside every chapter. */
  lemma ChapterModeIsSerialInChapters(plan: Plan, concurrency: int, run: seq<Action>, s: State, i: nat, j: nat)
    requires Reaches(ConfigOf(plan, Chapter, concurrency), Init(ConfigOf(plan, Chapter, concurrency)), run, s)
    requires j < i < |plan| && plan[j].chapter == plan[i].chapter
    ensures |s.phase| == |plan|
    ensures s.phase[i].Running? ==> HasEnded(s, j)
    ensures !(s.phase[i].Running? && s.phase[j].Running?)
  {
    var c := ConfigOf(plan, Chapter, concurrency);
    PlansAreWellFormed(plan, Chapter, concurrency);
    assert |c.group| == |plan| && c.group[i] == c.group[j];
    hide *;
    ReachedPhases(plan, Chapter, concurrency, run, s);
    if s.phase[i].Running? {
      ChainHasEndedBefore(c, run, s, i, j);
      EndedIsNotRunning(s, j);
    }
  }

  lemma ReachedPhases(plan: Plan, mode: Mode, concurrency: int, run: seq<Action>, s: State)
    requires Reaches(ConfigOf(plan, mode, concurrency), Init(ConfigOf(plan, mode, concurrency)), run, s)
    ensures |s.phase| == |plan| == |ConfigOf(plan, mode, concurrency).group|
  {
    hide Reaches, WellFormed, SortedAwaited, SlotsInv, WaitsInv, ChainInv, StartsInv;
    var c := ConfigOf(plan, mode, concurrency);
    PlansAreWellFormed(plan, mode, concurrency);
    InitInv(c);
    RunKeepsInv(c, Init(c), run, s);
  }

  lemma EndedIsNotRunning(s: State, j: nat)
    requires HasEnded(s, j)
    ensures j < |s.phase| && !s.phase[j].Running?
  {
  }

  /** At most max(1, concurrency) sections are in process, whatever the mode. */
  lemma AtMostConcurrencyRuns(plan: Plan, mode: Mode, concurrency: int, run: seq<Action>, s: State)
    requires Reaches(ConfigOf(plan, mode, concurrency), Init(ConfigOf(plan, mode, concurrency)), run, s)
    ensures |set i | 0 <= i < |s.phase| && s.phase[i].Running?| <= if concurrency < 1 then 1 else concurrency
  {
    PlansAreWellFormed(plan, mode, concurrency);
    AtMostSlotsRun(ConfigOf(plan, mode, concurrency), run, s);
  }

  lemma NamedIsDep(plan: Plan, mode: Mode, concurrency: int, i: nat, j: nat)
    requires DistinctLabels(plan) && j < i < |plan| && BuildsUpon(plan[i], plan[j])
    ensures j in ConfigOf(plan, mode, concurrency).deps[i]
  {
    NamedIsAwaited(plan, mode, i, j);
    hide Awaits, BuildsUpon, Positions;
  }

  lemma NamedIsAwaited(plan: Plan, mode: Mode, i: nat, j: nat)
    requires DistinctLabels(plan) && j < i < |plan| && BuildsUpon(plan[i], plan[j])
    ensures Awaits(plan, mode, i, j)
  {
    var k :| 0 <= k < |plan[i].buildsOn| && Names(plan[i].buildsOn[k], plan[j]);
    NamedIsTarget(plan, plan[i].buildsOn[k], j);
  }

  lemma NamedIsTarget(plan: Plan, raw: string, j: nat)
    requires DistinctLabels(plan) && j < |plan| && Names(raw, plan[j])
    ensures IsTarget(plan, raw, j)
  {
    hide ParseRef;
    forall u | j < u < |plan|
      ensures plan[u].chapter != plan[j].chapter || plan[u].section != plan[j].section
    {
      assert plan[j].Label() != plan[u].Label();
    }
  }
}
