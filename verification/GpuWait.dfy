/** How long an admitted request waits (gpu_service/app/gpu_queue.py): the exact worst case over all
    schedules, and when the estimate of the queue covers it. */
module GpuWait {
  import opened GpuQueue

  function Times(n: nat, x: real): real {
    n as real * x
  }

  lemma TimesSucc(n: nat, x: real)
    ensures Times(n + 1, x) == Times(n, x) + x && Times(0, x) == 0.0
  {
  }

  lemma TimesSign(n: nat, x: real)
    requires x >= 0.0
    ensures Times(n, x) >= 0.0
  {
  }

  /** n / c, counted in subtractions */
  function Rounds(n: nat, c: nat): nat
    requires c > 0
  {
    if n < c then 0 else 1 + Rounds(n - c, c)
  }

  lemma {:induction false} RoundsIsQuotient(n: nat, c: nat)
    requires c > 0
    ensures Rounds(n, c) == n / c
  {
    if n >= c {
      RoundsIsQuotient(n - c, c);
      QuotientStep(n, c);
    }
  }

  lemma QuotientStep(n: nat, c: nat)
    requires 0 < c <= n
    ensures n / c == 1 + (n - c) / c
  {
    var q := (n - c) / c;
    assert n - c == q * c + (n - c) % c;
    QuotientIs(n, c, 1 + q, (n - c) % c);
  }

  lemma QuotientIs(n: nat, c: nat, q: nat, r: nat)
    requires c > 0 && n == q * c + r && r < c
    ensures n / c == q
  {
    SameQuotient(c, n / c, n % c, q, r);
  }

  lemma SameQuotient(c: nat, p: nat, t: nat, q: nat, r: nat)
    requires p * c + t == q * c + r && t < c && r < c
    ensures p == q
  {
    MultipleBelow(c, p - q);
    assert (p - q) * c == p * c - q * c;
  }

  lemma MultipleBelow(c: int, x: int)
    requires c >= 0
    ensures -c < x * c < c ==> x == 0
  {
    if x >= 1 {
      assert x * c >= c;
    } else if x <= -1 {
      assert x * c <= -c;
    }
  }

  // ---------- Lanes ----------

  // A slot is a lane.  A lane is free again at most d after its last start; a lane without a request
  // counts as started now, for it takes the next waiting request at once.

  function Starts(running: seq<Job>): (r: seq<real>)
    ensures |r| == |running| && forall i :: 0 <= i < |r| ==> r[i] == running[i].started
  {
    seq(|running|, i requires 0 <= i < |running| => running[i].started)
  }

  function Idle(n: nat, now: real): (r: seq<real>)
    ensures |r| == n && forall i :: 0 <= i < n ==> r[i] == now
  {
    seq(n, i => now)
  }

  function Lanes(s: State): (r: seq<real>)
    requires |s.running| <= s.slots
    ensures |r| == s.slots
  {
    Starts(s.running) + Idle(s.slots - |s.running|, s.now)
  }

  /** When, at the latest, the n-th request after those on the lanes gets a lane. */
  function At(lanes: seq<real>, d: real, n: nat): real
    requires lanes != []
    decreases n
  {
    if n < |lanes| then lanes[n] + d else At(lanes, d, n - |lanes|) + d
  }

  /** Lanes in order of start, none started later than now or more than d ago. */
  ghost predicate LanesOk(lanes: seq<real>, now: real, d: real) {
    && (forall i, j :: 0 <= i < j < |lanes| ==> lanes[i] <= lanes[j])
    && (forall i :: 0 <= i < |lanes| ==> lanes[i] <= now <= lanes[i] + d)
  }

  lemma {:induction false} AtIsLater(lanes: seq<real>, now: real, d: real, n: nat)
    requires lanes != [] && LanesOk(lanes, now, d) && d >= 0.0
    ensures now <= At(lanes, d, n)
    decreases n
  {
    if n >= |lanes| { AtIsLater(lanes, now, d, n - |lanes|); }
  }

  lemma {:induction false} AtRises(lanes: seq<real>, now: real, d: real, n: nat)
    requires lanes != [] && LanesOk(lanes, now, d)
    ensures At(lanes, d, n) <= At(lanes, d, n + 1)
    decreases n
  {
    var c := |lanes|;
    if n >= c {
      AtRises(lanes, now, d, n - c);
    } else if n + 1 == c {
      assert At(lanes, d, n + 1) == lanes[0] + d + d;
    }
  }

  /** When lane j becomes free, everyone moves up. */
  lemma {:induction false} AtAfterFinish(lanes: seq<real>, now: real, d: real, j: nat, n: nat)
    requires j < |lanes| && LanesOk(lanes, now, d)
    ensures At(Without(lanes, j) + [now], d, n) <= At(lanes, d, n + 1)
    decreases n
  {
    var c, after := |lanes|, Without(lanes, j) + [now];
    assert |after| == c;
    if n >= c {
      AtAfterFinish(lanes, now, d, j, n - c);
    } else if n + 1 == c {
      assert At(lanes, d, n + 1) == lanes[0] + d + d && after[n] == now;
    } else {
      assert after[n] == if n < j then lanes[n] else lanes[n + 1];
    }
  }

  lemma {:induction false} AtIsBounded(lanes: seq<real>, t: real, d: real, n: nat)
    requires lanes != [] && forall i :: 0 <= i < |lanes| ==> lanes[i] <= t
    ensures At(lanes, d, n) <= t + Times(Rounds(n, |lanes|) + 1, d)
    decreases n
  {
    TimesSucc(Rounds(n, |lanes|), d);
    if n < |lanes| {
      TimesSucc(0, d);
    } else {
      AtIsBounded(lanes, t, d, n - |lanes|);
    }
  }

  // ---------- The bound along a run ----------

  ghost predicate AtMost(jobs: seq<Job>, d: real) {
    forall j :: 0 <= j < |jobs| ==> jobs[j].need <= d
  }

  /** What the argument needs of the queue. */
  ghost predicate Fair(s: State) {
    JobsInv(s) && |s.running| <= s.slots && s.slots > 0
  }

  /** Request id waits at position p, and no request ahead of it needs more than d. */
  ghost predicate QueuedAt(s: State, id: nat, p: nat, arrived: real, d: real) {
    && p < |s.waiting| && s.waiting[p].id == id && s.waiting[p].arrived == arrived
    && AtMost(s.running, d)
    && (forall j :: 0 <= j < p ==> s.waiting[j].need <= d)
  }

  /** When, at the latest, the request at position p gets its slot. */
  ghost function Latest(s: State, p: nat, d: real): real
    requires |s.running| <= s.slots && s.slots > 0
  {
    var idle := s.slots - |s.running|;
    if p < idle then s.now else At(Lanes(s), d, p - idle)
  }

  ghost predicate OnTime(s: State, id: nat, p: nat, arrived: real, d: real, limit: real)
    requires |s.running| <= s.slots && s.slots > 0
  {
    QueuedAt(s, id, p, arrived, d) && Latest(s, p, d) <= limit
  }

  ghost predicate Gone(s: State, id: nat) {
    id < s.arrivals && forall j :: 0 <= j < |s.waiting| ==> s.waiting[j].id != id
  }

  /** What is known about an admitted request at any later time. */
  ghost predicate Tracked(s: State, id: nat, arrived: real, d: real, limit: real)
    requires |s.running| <= s.slots && s.slots > 0
  {
    || (exists p :: OnTime(s, id, p, arrived, d, limit))
    || (Gone(s, id) && (id in s.waits ==> arrived + s.waits[id] <= limit))
  }

  lemma LanesAreOk(s: State, d: real)
    requires Fair(s) && d >= 0.0 && AtMost(s.running, d)
    ensures LanesOk(Lanes(s), s.now, d)
  {
    forall i | 0 <= i < |s.running| ensures s.running[i].started <= s.now <= s.running[i].started + d {
      assert s.running[i].need <= d;
    }
  }

  lemma LatestIsLater(s: State, p: nat, d: real)
    requires Fair(s) && d >= 0.0 && AtMost(s.running, d)
    ensures s.now <= Latest(s, p, d)
  {
    hide Fair, At, LanesOk, AtMost, Lanes;
    FairParts(s);
    LanesAreOk(s, d);
    var idle := s.slots - |s.running|;
    if p >= idle { AtIsLater(Lanes(s), s.now, d, p - idle); }
  }

  lemma FairParts(s: State)
    requires Fair(s)
    ensures JobsInv(s) && |s.running| <= s.slots && s.slots > 0
  {
    hide JobsInv;
  }

  // ---------- One step ----------

  lemma ArriveKeeps(s: State, need: real, id: nat, p: nat, arrived: real, d: real, limit: real)
    requires Fair(s) && Enabled(s, Arrive(need)) && OnTime(s, id, p, arrived, d, limit)
    ensures OnTime(Next(s, Arrive(need)), id, p, arrived, d, limit)
  {
    hide Rejects, At, JobsInv;
    assert Lanes(Next(s, Arrive(need))) == Lanes(s);
  }

  lemma StartKeepsLanes(s: State)
    requires Fair(s) && Enabled(s, Start)
    ensures Lanes(Next(s, Start)) == Lanes(s)
  {
  }

  lemma StartKeeps(s: State, id: nat, p: nat, arrived: real, d: real, limit: real)
    requires Fair(s) && d >= 0.0 && Enabled(s, Start) && OnTime(s, id, p, arrived, d, limit)
    ensures Tracked(Next(s, Start), id, arrived, d, limit)
  {
    var s' := Next(s, Start);
    StartKeepsLanes(s);
    hide At, Lanes;
    if p == 0 {
      assert s'.waits[id] == s.now - arrived;
      assert Gone(s', id);
    } else {
      assert QueuedAt(s', id, p - 1, arrived, d);
      assert OnTime(s', id, p - 1, arrived, d, limit);
    }
  }

  lemma TickKeeps(s: State, dt: real, id: nat, p: nat, arrived: real, d: real, limit: real)
    requires Fair(s) && Enabled(s, Tick(dt)) && OnTime(s, id, p, arrived, d, limit)
    ensures OnTime(Next(s, Tick(dt)), id, p, arrived, d, limit)
  {
    hide At, JobsInv;
    assert |s.running| == s.slots;
    assert Lanes(Next(s, Tick(dt))) == Lanes(s);
  }

  lemma FinishMovesLanes(s: State, k: nat)
    requires Fair(s) && Enabled(s, Finish(k))
    ensures Lanes(Next(s, Finish(k))) == Without(Lanes(s), k) + [s.now]
  {
    hide Learn, JobsInv;
  }

  lemma FinishIsEarly(s: State, k: nat, p: nat, d: real)
    requires Fair(s) && d >= 0.0 && AtMost(s.running, d) && Enabled(s, Finish(k))
    ensures Latest(Next(s, Finish(k)), p, d) <= Latest(s, p, d)
  {
    var idle, s' := s.slots - |s.running|, Next(s, Finish(k));
    FinishMovesLanes(s, k);
    LanesAreOk(s, d);
    LatestIsLater(s, p, d);
    assert s'.slots == s.slots && |s'.running| == |s.running| - 1 && s'.now == s.now;
    hide At, Lanes, LanesOk, AtMost, Learn, JobsInv;
    if p > idle { AtAfterFinish(Lanes(s), s.now, d, k, p - idle - 1); }
  }

  lemma FinishKeeps(s: State, k: nat, id: nat, p: nat, arrived: real, d: real, limit: real)
    requires Fair(s) && d >= 0.0 && Enabled(s, Finish(k)) && OnTime(s, id, p, arrived, d, limit)
    ensures OnTime(Next(s, Finish(k)), id, p, arrived, d, limit)
  {
    FinishIsEarly(s, k, p, d);
    hide Latest, Learn, JobsInv;
  }

  lemma AbandonKeepsLanes(s: State, k: nat, p: nat, d: real)
    requires Fair(s) && d >= 0.0 && AtMost(s.running, d) && Enabled(s, Abandon(k))
    ensures Latest(Next(s, Abandon(k)), p, d) == Latest(s, p, d)
    ensures p > 0 ==> Latest(s, p - 1, d) <= Latest(s, p, d)
  {
    assert Lanes(Next(s, Abandon(k))) == Lanes(s);
    LanesAreOk(s, d);
    LatestIsLater(s, p, d);
    hide At, Lanes, LanesOk, AtMost, JobsInv;
    var idle := s.slots - |s.running|;
    if p > idle { AtRises(Lanes(s), s.now, d, p - idle - 1); }
  }

  lemma AbandonKeeps(s: State, k: nat, id: nat, p: nat, arrived: real, d: real, limit: real)
    requires Fair(s) && d >= 0.0 && Enabled(s, Abandon(k)) && OnTime(s, id, p, arrived, d, limit)
    ensures Tracked(Next(s, Abandon(k)), id, arrived, d, limit)
  {
    var s' := Next(s, Abandon(k));
    AbandonKeepsLanes(s, k, if k < p then p - 1 else p, d);
    AbandonKeepsLanes(s, k, p, d);
    hide Latest;
    if k < p {
      assert QueuedAt(s', id, p - 1, arrived, d);
      assert OnTime(s', id, p - 1, arrived, d, limit);
    } else if k == p {
      assert Gone(s', id);
    } else {
      assert QueuedAt(s', id, p, arrived, d);
      assert OnTime(s', id, p, arrived, d, limit);
    }
  }

  lemma GoneStays(s: State, a: Action, id: nat)
    requires Fair(s) && Enabled(s, a) && Gone(s, id)
    ensures Gone(Next(s, a), id)
    ensures id in Next(s, a).waits <==> id in s.waits
    ensures id in s.waits ==> Next(s, a).waits[id] == s.waits[id]
  {
    hide Learn, Rejects;
  }

  lemma StepStaysFair(s: State, initial: real, a: Action)
    requires Inv(s, initial) && s.slots > 0 && Enabled(s, a)
    ensures Fair(s) && Fair(Next(s, a)) && Inv(Next(s, a), initial) && Next(s, a).slots == s.slots
  {
    StepKeepsInv(s, initial, a);
    hide JobsInv, Ewma, Learn, Rejects;
  }

  lemma StepKeepsTracked(s: State, initial: real, a: Action, id: nat, arrived: real, d: real, limit: real)
    requires Inv(s, initial) && s.slots > 0 && d >= 0.0 && Enabled(s, a) && Fair(s) && Tracked(s, id, arrived, d, limit)
    ensures Fair(Next(s, a)) && Tracked(Next(s, a), id, arrived, d, limit)
  {
    StepStaysFair(s, initial, a);
    hide Inv, Fair, Learn, Rejects, OnTime, Gone, Next, Enabled;
    FairParts(s);
    FairParts(Next(s, a));
    if p: nat :| OnTime(s, id, p, arrived, d, limit) {
      match a
      case Arrive(need) => ArriveKeeps(s, need, id, p, arrived, d, limit);
      case Start => StartKeeps(s, id, p, arrived, d, limit);
      case Tick(dt) => TickKeeps(s, dt, id, p, arrived, d, limit);
      case Finish(k) => FinishKeeps(s, k, id, p, arrived, d, limit);
      case Abandon(k) => AbandonKeeps(s, k, id, p, arrived, d, limit);
    } else {
      GoneStays(s, a, id);
    }
  }

  lemma {:induction false} RunKeepsTracked(s: State, initial: real, run: seq<Action>, s': State, id: nat,
      arrived: real, d: real, limit: real)
    requires Inv(s, initial) && d >= 0.0 && Reaches(s, run, s') && Fair(s) && Tracked(s, id, arrived, d, limit)
    ensures Fair(s') && Tracked(s', id, arrived, d, limit)
    decreases |run|
  {
    hide Tracked, Inv, Fair, Next, Enabled;
    FairParts(s);
    if run != [] {
      StepStaysFair(s, initial, run[0]);
      StepKeepsTracked(s, initial, run[0], id, arrived, d, limit);
      RunKeepsTracked(Next(s, run[0]), initial, run[1..], s', id, arrived, d, limit);
    }
  }

  // ---------- The exact worst wait ----------

  lemma AdmittedIsOnTime(s: State, need: real, d: real)
    requires Fair(s) && s.inFlight == |s.waiting| + |s.running| && d >= 0.0 && need >= 0.0 && !Rejects(s)
    requires AtMost(s.waiting, d) && AtMost(s.running, d)
    ensures Fair(Next(s, Arrive(need)))
    ensures OnTime(Next(s, Arrive(need)), s.arrivals, |s.waiting|, s.now, d,
        s.now + Times(Rounds(s.inFlight, s.slots), d))
  {
    var s1, p, idle := Next(s, Arrive(need)), |s.waiting|, s.slots - |s.running|;
    LanesAreOk(s, d);
    ArriveKeepsWaiting(s, need);
    TimesSign(Rounds(s.inFlight, s.slots), d);
    assert Lanes(s1) == Lanes(s);
    hide At, Rejects, Times;
    if p >= idle { AtIsBounded(Lanes(s), s.now, d, p - idle); }
  }

  lemma TrackedIsBounded(s: State, id: nat, arrived: real, d: real, limit: real)
    requires Fair(s) && d >= 0.0 && Tracked(s, id, arrived, d, limit)
    ensures id in s.waits ==> arrived + s.waits[id] <= limit
    ensures forall j :: 0 <= j < |s.waiting| && s.waiting[j].id == id ==> s.now <= limit
  {
    if p: nat :| OnTime(s, id, p, arrived, d, limit) {
      LatestIsLater(s, p, d);
      assert s.waiting[p].id !in s.waits;
    }
  }

  /** A request that is admitted behind k requests in flight on c slots waits at most floor(k / c)
      times d, in every schedule, whoever finishes early or gives up, when none of those requests
      needs more than d.  This holds for the wait of a request that got its slot and for the time
      waited so far by one that has not. */
  lemma WaitIsBounded(s: State, initial: real, need: real, run: seq<Action>, s': State, d: real)
    requires Inv(s, initial) && s.slots >= 1 && d >= 0.0 && need >= 0.0 && !Rejects(s)
    requires AtMost(s.waiting, d) && AtMost(s.running, d)
    requires Reaches(Next(s, Arrive(need)), run, s')
    ensures s.arrivals in s'.waits ==> s'.waits[s.arrivals] <= Times(s.inFlight / s.slots, d)
    ensures forall j :: 0 <= j < |s'.waiting| && s'.waiting[j].id == s.arrivals ==>
              s'.now - s.now <= Times(s.inFlight / s.slots, d)
  {
    assert Enabled(s, Arrive(need)) && s.inFlight == |s.waiting| + |s.running|;
    var s1, limit := Next(s, Arrive(need)), s.now + Times(Rounds(s.inFlight, s.slots), d);
    hide *;
    StepStaysFair(s, initial, Arrive(need));
    AdmittedIsOnTime(s, need, d);
    OnTimeIsTracked(s1, s.arrivals, |s.waiting|, s.now, d, limit);
    RunKeepsTracked(s1, initial, run, s', s.arrivals, s.now, d, limit);
    TrackedIsBounded(s', s.arrivals, s.now, d, limit);
    RoundsIsQuotient(s.inFlight, s.slots);
  }

  lemma OnTimeIsTracked(s: State, id: nat, p: nat, arrived: real, d: real, limit: real)
    requires Fair(s) && OnTime(s, id, p, arrived, d, limit)
    ensures Tracked(s, id, arrived, d, limit)
  {
    hide OnTime, JobsInv;
  }
}
