/** The worst wait of the GPU queue is attained, and so the estimate is safe exactly when it covers
    that wait (gpu_service/app/gpu_queue.py). */
module GpuWorst {
  import opened GpuQueue
  import opened GpuWait

  // ---------- Runs ----------

  lemma NoSteps(s: State)
    ensures Reaches(s, [], s)
  {
  }

  lemma {:induction false} RunsJoin(s: State, a: seq<Action>, t: State, b: seq<Action>, u: State)
    requires Reaches(s, a, t) && Reaches(t, b, u)
    ensures Reaches(s, a + b, u)
    decreases |a|
  {
    hide Next, Enabled;
    if a == [] {
      assert a + b == b;
    } else {
      assert (a + b)[0] == a[0] && (a + b)[1..] == a[1..] + b;
      RunsJoin(Next(s, a[0]), a[1..], t, b, u);
    }
  }

  lemma OneStep(s: State, a: Action)
    requires Enabled(s, a)
    ensures Reaches(s, [a], Next(s, a))
  {
    hide Next, Enabled;
    NoSteps(Next(s, a));
    assert [a][1..] == [];
  }

  // ---------- A queue with k requests that need d ----------

  /** c slots; k requests arrived at time 0, of which those that found a slot have just started. */
  ghost function Fill(c: nat, d: real, avg: real, k: nat): (s: State)
    requires d >= 0.0 && k <= ABSOLUTE_CAP
    ensures s.slots == c && s.maxWait == 0.0 && s.now == 0.0 && s.inFlight == k && s.avg == avg && s.arrivals == k
    ensures |s.running| == (if k < c then k else c) && |s.waiting| == k - |s.running|
    ensures forall j :: 0 <= j < |s.running| ==> s.running[j].need == d && s.running[j].started == 0.0
    ensures forall j :: 0 <= j < |s.waiting| ==> s.waiting[j].need == d && s.waiting[j].arrived == 0.0
  {
    if k == 0 then Init(c, 0.0, avg)
    else
      var s1 := Next(Fill(c, d, avg, k - 1), Arrive(d));
      if k <= c then Next(s1, Start) else s1
  }

  lemma {:induction false} FillIsReached(c: nat, d: real, avg: real, k: nat) returns (run: seq<Action>)
    requires d >= 0.0 && k <= ABSOLUTE_CAP
    ensures Reaches(Init(c, 0.0, avg), run, Fill(c, d, avg, k))
  {
    hide Reaches;
    if k == 0 {
      run := [];
      NoSteps(Init(c, 0.0, avg));
    } else {
      var s := Fill(c, d, avg, k - 1);
      var before := FillIsReached(c, d, avg, k - 1);
      OneStep(s, Arrive(d));
      RunsJoin(Init(c, 0.0, avg), before, s, [Arrive(d)], Next(s, Arrive(d)));
      run := before + [Arrive(d)];
      if k <= c {
        OneStep(Next(s, Arrive(d)), Start);
        RunsJoin(Init(c, 0.0, avg), run, Next(s, Arrive(d)), [Start], Fill(c, d, avg, k));
        run := run + [Start];
      }
    }
  }

  // ---------- The slowest run ----------

  /** All slots are taken by requests that start now and need d; request id waits at position p behind
      requests that need d. */
  ghost predicate Aligned(s: State, id: nat, p: nat, arrived: real, d: real) {
    && s.slots > 0 && |s.running| == s.slots
    && (forall j :: 0 <= j < |s.running| ==> s.running[j].started == s.now && s.running[j].need == d)
    && p < |s.waiting| && s.waiting[p].id == id && s.waiting[p].arrived == arrived
    && forall j :: 0 <= j < p ==> s.waiting[j].need == d
  }

  /** The first running request leaves and the first waiting one takes its slot. */
  lemma Rotate(s: State) returns (s': State)
    requires s.running != [] && |s.running| == s.slots && s.waiting != []
    ensures Reaches(s, [Finish(0), Start], s')
    ensures s'.running == s.running[1..] + [s.waiting[0].(started := s.now)] && s'.waiting == s.waiting[1..]
    ensures s'.now == s.now && s'.slots == s.slots
    ensures s.waiting[0].id in s'.waits && s'.waits[s.waiting[0].id] == s.now - s.waiting[0].arrived
  {
    var s1 := Next(s, Finish(0));
    assert Without(s.running, 0) == s.running[1..];
    s' := Next(s1, Start);
    OneStep(s, Finish(0));
    OneStep(s1, Start);
    RunsJoin(s, [Finish(0)], s1, [Start], s');
    assert [Finish(0)] + [Start] == [Finish(0), Start];
  }

  /** n rotations: the last n slots hold the requests that were first in the queue, started now. */
  ghost predicate Rotated(s: State, n: nat, s': State)
    requires n <= |s.running| && n <= |s.waiting|
  {
    && s'.now == s.now && s'.slots == s.slots && s'.waiting == s.waiting[n..] && |s'.running| == |s.running|
    && (forall j :: 0 <= j < |s.running| - n ==> s'.running[j] == s.running[j + n])
    && forall j :: 0 <= j < n ==> s'.running[|s.running| - n + j] == s.waiting[j].(started := s.now)
  }

  lemma {:induction false} Rotations(s: State, n: nat) returns (run: seq<Action>, s': State)
    requires |s.running| == s.slots > 0 && n <= s.slots && n <= |s.waiting|
    ensures Reaches(s, run, s') && Rotated(s, n, s')
    ensures n > 0 ==> var j := s.waiting[n - 1]; j.id in s'.waits && s'.waits[j.id] == s.now - j.arrived
  {
    hide Reaches;
    if n == 0 {
      run, s' := [], s;
      NoSteps(s);
    } else {
      var before, t := Rotations(s, n - 1);
      s' := Rotate(t);
      RunsJoin(s, before, t, [Finish(0), Start], s');
      run := before + [Finish(0), Start];
      assert t.waiting[0] == s.waiting[n - 1];
    }
  }

  lemma TickAll(s: State, id: nat, p: nat, arrived: real, d: real)
    requires d >= 0.0 && Aligned(s, id, p, arrived, d)
    ensures Enabled(s, Tick(d)) && Reaches(s, [Tick(d)], Next(s, Tick(d)))
    ensures var s' := Next(s, Tick(d));
        s'.running == s.running && s'.waiting == s.waiting && s'.now == s.now + d && s'.slots == s.slots
  {
    OneStep(s, Tick(d));
    hide Reaches;
  }

  lemma AlignedAgain(s: State, s1: State, id: nat, p: nat, arrived: real, d: real, s': State)
    requires Aligned(s, id, p, arrived, d) && s.slots <= p
    requires s1.running == s.running && s1.waiting == s.waiting && s1.slots == s.slots && Rotated(s1, s.slots, s')
    ensures Aligned(s', id, p - s.slots, arrived, d)
  {
    var c := s.slots;
    forall j | 0 <= j < c ensures s'.running[j].started == s'.now && s'.running[j].need == d {
      assert s'.running[j] == s1.waiting[j].(started := s1.now);
    }
  }

  /** From there, every full round of slots costs d. */
  lemma {:induction false} SlowestRun(s: State, id: nat, p: nat, arrived: real, d: real)
      returns (run: seq<Action>, s': State)
    requires d >= 0.0 && Aligned(s, id, p, arrived, d)
    ensures Reaches(s, run, s') && id in s'.waits
    ensures arrived + s'.waits[id] == s.now + Times(Rounds(p, s.slots) + 1, d)
    decreases p
  {
    hide Reaches, Next, Enabled, Times;
    var c := s.slots;
    TickAll(s, id, p, arrived, d);
    var s1 := Next(s, Tick(d));
    TimesSucc(Rounds(p, c), d);
    TimesSucc(0, d);
    if p < c {
      var after, t := Rotations(s1, p + 1);
      RunsJoin(s, [Tick(d)], s1, after, t);
      run, s' := [Tick(d)] + after, t;
    } else {
      var round, t := Rotations(s1, c);
      AlignedAgain(s, s1, id, p, arrived, d, t);
      var after, u := SlowestRun(t, id, p - c, arrived, d);
      RunsJoin(s, [Tick(d)], s1, round, t);
      RunsJoin(s, [Tick(d)] + round, t, after, u);
      run, s' := [Tick(d)] + round + after, u;
    }
  }

  lemma {:induction false} RoundsAfterFirst(k: nat, c: nat)
    requires 0 < c <= k
    ensures Rounds(k, c) == Rounds(k - c, c) + 1
  {
  }

  lemma AdmittedAfterFill(c: nat, k: nat, d: real, avg: real, need: real)
    requires k < ABSOLUTE_CAP && d >= 0.0 && need >= 0.0
    ensures var s := Fill(c, d, avg, k); var s1 := Next(s, Arrive(need));
      && !Rejects(s) && s1.slots == s.slots && s1.now == s.now && s1.running == s.running
      && s1.waiting == s.waiting + [Job(k, need, 0.0, 0.0)]
  {
    hide Fill;
  }

  lemma StartAtOnce(s: State)
    requires |s.waiting| == 1 && |s.running| < s.slots
    ensures Enabled(s, Start) && Reaches(s, [Start], Next(s, Start))
    ensures var j := s.waiting[0]; j.id in Next(s, Start).waits && Next(s, Start).waits[j.id] == s.now - j.arrived
  {
    OneStep(s, Start);
    hide Reaches;
  }

  /** The last request's run, after k others were admitted. */
  lemma LastWaits(c: nat, k: nat, d: real, avg: real, need: real) returns (run: seq<Action>, s': State)
    requires c >= 1 && k < ABSOLUTE_CAP && d >= 0.0 && need >= 0.0
    ensures Reaches(Next(Fill(c, d, avg, k), Arrive(need)), run, s')
    ensures k in s'.waits && s'.waits[k] == Times(Rounds(k, c), d)
  {
    hide Reaches, Next, Times, Fill, Rejects;
    AdmittedAfterFill(c, k, d, avg, need);
    TimesSucc(0, d);
    var s := Fill(c, d, avg, k);
    var s1 := Next(s, Arrive(need));
    if k < c {
      StartAtOnce(s1);
      run, s' := [Start], Next(s1, Start);
    } else {
      assert Aligned(s1, k, k - c, 0.0, d);
      RoundsAfterFirst(k, c);
      run, s' := SlowestRun(s1, k, k - c, 0.0, d);
    }
  }

  /** The bound is attained for every number of slots and of requests in flight: from an empty queue
      there is a run that admits k requests which need d, then one more, and lets that one wait exactly
      floor(k / c) times d. */
  lemma BoundIsAttained(c: nat, k: nat, d: real, avg: real, need: real)
      returns (before: seq<Action>, run: seq<Action>, s': State)
    requires c >= 1 && k < ABSOLUTE_CAP && d >= 0.0 && need >= 0.0
    ensures var s := Fill(c, d, avg, k);
      && Reaches(Init(c, 0.0, avg), before, s) && Inv(s, avg) && !Rejects(s)
      && AtMost(s.waiting, d) && AtMost(s.running, d)
      && Reaches(Next(s, Arrive(need)), run, s')
      && s.arrivals in s'.waits && s'.waits[s.arrivals] == Times(k / c, d)
  {
    hide Reaches, Inv, Times, Fill, Next, Rejects;
    before := FillIsReached(c, d, avg, k);
    InitInv(c, 0.0, avg);
    QueueConservation(Init(c, 0.0, avg), avg, before, Fill(c, d, avg, k));
    AdmittedAfterFill(c, k, d, avg, need);
    RoundsIsQuotient(k, c);
    run, s' := LastWaits(c, k, d, avg, need);
  }

  // ---------- When the estimate is safe ----------

  /** A schedule: state s admits a request behind k requests in flight on c slots that need at most d;
      in s' that request has got its slot. */
  ghost predicate Schedule(c: nat, k: nat, d: real, avg: real, s: State, initial: real, need: real, run: seq<Action>,
      s': State) {
    && Inv(s, initial) && s.slots == c && s.inFlight == k && s.avg == avg && !Rejects(s) && need >= 0.0
    && AtMost(s.waiting, d) && AtMost(s.running, d)
    && Reaches(Next(s, Arrive(need)), run, s') && s.arrivals in s'.waits
  }

  ghost predicate AlwaysCovered(c: nat, k: nat, d: real, avg: real) {
    forall s, initial, need, run, s' :: Schedule(c, k, d, avg, s, initial, need, run, s') ==>
        s'.waits[s.arrivals] <= EstimatedWait(s)
  }

  lemma EstimateIs(s: State)
    requires s.slots >= 1 && s.inFlight >= 0
    ensures EstimatedWait(s) == (s.inFlight as real / s.slots as real) * s.avg
  {
  }

  lemma ScheduledIsBounded(c: nat, k: nat, d: real, avg: real, s: State, initial: real, need: real, run: seq<Action>,
      s': State)
    requires c >= 1 && d >= 0.0 && Schedule(c, k, d, avg, s, initial, need, run, s')
    ensures s.arrivals in s'.waits && s'.waits[s.arrivals] <= Times(k / c, d)
    ensures EstimatedWait(s) == (k as real / c as real) * avg
  {
    hide Reaches, Next, Inv, EstimatedWait, Rejects, Times;
    WaitIsBounded(s, initial, need, run, s', d);
    EstimateIs(s);
  }

  lemma WorstSchedule(c: nat, k: nat, d: real, avg: real) returns (s: State, run: seq<Action>, s': State)
    requires c >= 1 && k < ABSOLUTE_CAP && d >= 0.0
    ensures Schedule(c, k, d, avg, s, avg, 1.0, run, s') && s'.waits[s.arrivals] == Times(k / c, d)
  {
    hide Reaches, Next, Inv, Rejects, Times, AtMost;
    s := Fill(c, d, avg, k);
    var before, run', t := BoundIsAttained(c, k, d, avg, 1.0);
    run, s' := run', t;
  }

  /** Exactly when the estimate is safe: it covers the wait in all schedules whose requests ahead need
      at most d if and only if floor(k / c) times d is at most the estimate. */
  lemma EstimateIsSafeIff(c: nat, k: nat, d: real, avg: real)
    requires c >= 1 && k < ABSOLUTE_CAP && d >= 0.0
    ensures AlwaysCovered(c, k, d, avg) <==> Times(k / c, d) <= (k as real / c as real) * avg
  {
    hide Schedule, Times;
    var s, run, s' := WorstSchedule(c, k, d, avg);
    ScheduledIsBounded(c, k, d, avg, s, avg, 1.0, run, s');
    forall t, initial, need, r, t' | Schedule(c, k, d, avg, t, initial, need, r, t')
      ensures t.arrivals in t'.waits && t'.waits[t.arrivals] <= Times(k / c, d)
          && EstimatedWait(t) == (k as real / c as real) * avg
    {
      ScheduledIsBounded(c, k, d, avg, t, initial, need, r, t');
    }
  }

  lemma QuotientBelow(c: nat, k: nat, d: real, avg: real)
    requires c >= 1 && 0.0 <= d <= avg
    ensures Times(k / c, d) <= (k as real / c as real) * avg
  {
  }

  /** So when the average is not below what the requests ahead need, the true wait is at most the
      estimate on which the request was admitted, and at most the configured limit. */
  lemma EstimateIsConservative(s: State, initial: real, need: real, run: seq<Action>, s': State, d: real)
    requires Inv(s, initial) && d >= 0.0 && need >= 0.0 && !Rejects(s) && s.slots >= 1
    requires AtMost(s.waiting, d) && AtMost(s.running, d) && d <= s.avg
    requires Reaches(Next(s, Arrive(need)), run, s') && s.arrivals in s'.waits
    ensures s'.waits[s.arrivals] <= EstimatedWait(s)
    ensures s.maxWait > 0.0 ==> s'.waits[s.arrivals] <= s.maxWait
  {
    hide Reaches, Next, Inv, EstimatedWait, Times, AtMost;
    WaitIsBounded(s, initial, need, run, s', d);
    assert s.inFlight >= 0 by { InFlightIsCount(s, initial); }
    EstimateIs(s);
    QuotientBelow(s.slots, s.inFlight, d, s.avg);
  }

  lemma InFlightIsCount(s: State, initial: real)
    requires Inv(s, initial)
    ensures s.inFlight >= 0
  {
    hide JobsInv, Ewma;
  }
}
