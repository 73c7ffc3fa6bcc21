/** The admission queue of gpu_service/app/gpu_queue.py: a FIFO semaphore, a moving average of the
    service time, and rejection by estimated wait.  Times are reals; time passes only while no free
    slot has somebody to wake. */
module GpuQueue {

  const EWMA_ALPHA := 0.2
  const ABSOLUTE_CAP := 256

  /** A request: how long it would occupy a slot, when it was admitted, when it got its slot. */
  datatype Job = Job(id: nat, need: real, arrived: real, started: real)

  /** The queue's counters and average, the semaphore's two sides, and what an observer records:
      the clock, the service times seen so far and the waits of the requests that got a slot. */
  datatype State = State(
    slots: nat, maxWait: real,
    inFlight: int, avg: real, completed: nat, rejected: nat, abandoned: nat, arrivals: nat,
    waiting: seq<Job>, running: seq<Job>,
    now: real, observed: seq<real>, waits: map<nat, real>)

  datatype Action =
    | Arrive(need: real)
    | Start               // the semaphore wakes its next waiter
    | Tick(dt: real)
    | Finish(k: nat)      // the k-th running request leaves its slot: done, failed or cancelled
    | Abandon(k: nat)     // the k-th waiting request is cancelled

  function Init(slots: nat, maxWait: real, initial: real): State {
    State(slots, maxWait, 0, initial, 0, 0, 0, 0, [], [], 0.0, [], map[])
  }

  function Divisor(slots: nat): nat {
    if slots < 1 then 1 else slots
  }

  /** estimated_wait_s */
  function EstimatedWait(s: State): real {
    var ahead := if s.inFlight < 0 then 0 else s.inFlight;
    (ahead as real / Divisor(s.slots) as real) * s.avg
  }

  predicate Rejects(s: State) {
    (s.maxWait > 0.0 && EstimatedWait(s) > s.maxWait) || s.inFlight >= ABSOLUTE_CAP
  }

  function Without<T>(s: seq<T>, k: nat): seq<T>
    requires k < |s|
  {
    s[..k] + s[k + 1..]
  }

  function Learn(avg: real, took: real): real {
    EWMA_ALPHA * took + (1.0 - EWMA_ALPHA) * avg
  }

  ghost predicate Enabled(s: State, a: Action) {
    match a
    case Arrive(need) => need >= 0.0
    case Start => s.waiting != [] && |s.running| < s.slots
    case Tick(dt) => dt >= 0.0 && (s.waiting == [] || |s.running| >= s.slots)
                     && forall j :: 0 <= j < |s.running| ==> s.now + dt - s.running[j].started <= s.running[j].need
    case Finish(k) => k < |s.running|
    case Abandon(k) => k < |s.waiting|
  }

  ghost function Next(s: State, a: Action): State
    requires Enabled(s, a)
  {
    match a
    case Arrive(need) =>
      if Rejects(s) then s.(rejected := s.rejected + 1, arrivals := s.arrivals + 1)
      else s.(inFlight := s.inFlight + 1, arrivals := s.arrivals + 1,
              waiting := s.waiting + [Job(s.arrivals, need, s.now, 0.0)])
    case Start =>
      var j := s.waiting[0];
      s.(waiting := s.waiting[1..], running := s.running + [j.(started := s.now)],
          waits := s.waits[j.id := s.now - j.arrived])
    case Tick(dt) => s.(now := s.now + dt)
    case Finish(k) =>
      var took := s.now - s.running[k].started;
      s.(running := Without(s.running, k), inFlight := s.inFlight - 1, completed := s.completed + 1,
         avg := Learn(s.avg, took), observed := s.observed + [took])
    case Abandon(k) =>
      s.(waiting := Without(s.waiting, k), inFlight := s.inFlight - 1, abandoned := s.abandoned + 1)
  }

  ghost predicate Reaches(s: State, run: seq<Action>, s': State)
    decreases |run|
  {
    if run == [] then s == s'
    else Enabled(s, run[0]) && Reaches(Next(s, run[0]), run[1..], s')
  }

  // ---------- Conservation ----------

  /** The moving average of a sequence of service times. */
  function Ewma(initial: real, observed: seq<real>): real {
    if observed == [] then initial
    else Learn(Ewma(initial, observed[..|observed| - 1]), observed[|observed| - 1])
  }

  /** Requests run for no longer than they need, and stand in the order in which they got their slots. */
  ghost predicate RunningInv(s: State) {
    && (forall j :: 0 <= j < |s.running| ==> 0.0 <= s.now - s.running[j].started <= s.running[j].need)
    && (forall i, j :: 0 <= i < j < |s.running| ==> s.running[i].started <= s.running[j].started)
  }

  /** Requests queue up in order of arrival. */
  ghost predicate WaitingInv(s: State) {
    && (forall j :: 0 <= j < |s.waiting| ==>
        s.waiting[j].need >= 0.0 && s.waiting[j].id < s.arrivals && s.waiting[j].id !in s.waits)
    && (forall i, j :: 0 <= i < j < |s.waiting| ==> s.waiting[i].id < s.waiting[j].id)
    && (forall i :: i in s.waits ==> i < s.arrivals)
  }

  ghost predicate JobsInv(s: State) {
    RunningInv(s) && WaitingInv(s)
  }

  ghost predicate Inv(s: State, initial: real) {
    && s.inFlight == |s.waiting| + |s.running|
    && |s.running| <= s.slots
    && s.inFlight <= ABSOLUTE_CAP
    && s.arrivals == s.rejected + s.inFlight + s.completed + s.abandoned
    && s.completed == |s.observed|
    && s.avg == Ewma(initial, s.observed)
    && JobsInv(s)
  }

  lemma StepKeepsRunning(s: State, a: Action)
    requires JobsInv(s) && Enabled(s, a)
    ensures RunningInv(Next(s, a))
  {
    hide Rejects, Learn;
    if a.Start? {
      assert s.waiting[0].need >= 0.0;
    }
  }

  lemma ArriveKeepsWaiting(s: State, need: real)
    requires WaitingInv(s) && Enabled(s, Arrive(need))
    ensures WaitingInv(Next(s, Arrive(need)))
  {
    hide Rejects;
  }

  lemma StartKeepsWaiting(s: State)
    requires WaitingInv(s) && Enabled(s, Start)
    ensures WaitingInv(Next(s, Start))
  {
    var s' := Next(s, Start);
    assert forall j :: 0 <= j < |s'.waiting| ==> s'.waiting[j] == s.waiting[j + 1];
  }

  lemma AbandonKeepsWaiting(s: State, k: nat)
    requires WaitingInv(s) && Enabled(s, Abandon(k))
    ensures WaitingInv(Next(s, Abandon(k)))
  {
    var s' := Next(s, Abandon(k));
    assert forall j :: 0 <= j < |s'.waiting| ==> s'.waiting[j] == s.waiting[if j < k then j else j + 1];
  }

  lemma OtherKeepsWaiting(s: State, a: Action)
    requires WaitingInv(s) && Enabled(s, a) && (a.Tick? || a.Finish?)
    ensures WaitingInv(Next(s, a))
  {
    hide Learn;
  }

  lemma StepKeepsWaiting(s: State, a: Action)
    requires WaitingInv(s) && Enabled(s, a)
    ensures WaitingInv(Next(s, a))
  {
    hide WaitingInv, Enabled, Next;
    match a
    case Arrive(need) => ArriveKeepsWaiting(s, need);
    case Start => StartKeepsWaiting(s);
    case Abandon(k) => AbandonKeepsWaiting(s, k);
    case _ => OtherKeepsWaiting(s, a);
  }

  lemma StepKeepsInv(s: State, initial: real, a: Action)
    requires Inv(s, initial) && Enabled(s, a)
    ensures Inv(Next(s, a), initial)
  {
    var s' := Next(s, a);
    StepKeepsRunning(s, a);
    StepKeepsWaiting(s, a);
    if a.Finish? {
      assert s'.observed[..|s'.observed| - 1] == s.observed;
    }
  }

  /** In every run: the in-flight count is exactly the waiting and the running requests, slots and
      cap are respected, every arrival is accounted for, and the average is that of the service
      times observed. */
  lemma {:induction false} QueueConservation(s: State, initial: real, run: seq<Action>, s': State)
    requires Inv(s, initial) && Reaches(s, run, s')
    ensures Inv(s', initial) && s'.slots == s.slots && s'.maxWait == s.maxWait
    decreases |run|
  {
    if run != [] {
      StepKeepsInv(s, initial, run[0]);
      QueueConservation(Next(s, run[0]), initial, run[1..], s');
    }
  }

  lemma InitInv(slots: nat, maxWait: real, initial: real)
    ensures Inv(Init(slots, maxWait, initial), initial)
  {
  }

  /** The average stays between the bounds of the initial estimate and all observed times. */
  lemma {:induction false} EwmaStaysBetween(initial: real, observed: seq<real>, lo: real, hi: real)
    requires lo <= initial <= hi && forall i :: 0 <= i < |observed| ==> lo <= observed[i] <= hi
    ensures lo <= Ewma(initial, observed) <= hi
  {
    if observed != [] {
      EwmaStaysBetween(initial, observed[..|observed| - 1], lo, hi);
    }
  }

  /** 0.8 to the power n. */
  function Faded(n: nat): real {
    if n == 0 then 1.0 else 0.8 * Faded(n - 1)
  }

  /** The observations from the k-th on, the latest with weight 1/5 and each earlier one with 4/5 of the
      weight of the one after it. */
  function WeightedFrom(observed: seq<real>, k: nat): real
    requires k <= |observed|
    decreases |observed| - k
  {
    if k == |observed| then 0.0
    else 0.2 * (Faded(|observed| - 1 - k) * observed[k]) + WeightedFrom(observed, k + 1)
  }

  lemma {:induction false} OlderWeighsLess(observed: seq<real>, last: real, k: nat)
    requires k <= |observed|
    ensures WeightedFrom(observed + [last], k) == 0.8 * WeightedFrom(observed, k) + 0.2 * last
    decreases |observed| - k
  {
    var all, n := observed + [last], |observed|;
    assert Faded(0) == 1.0;
    if k == n {
      assert WeightedFrom(all, n + 1) == 0.0;
    } else {
      OlderWeighsLess(observed, last, k + 1);
      assert all[k] == observed[k] && Faded(n - k) == 0.8 * Faded(n - 1 - k);
      ScaleInside(Faded(n - 1 - k), observed[k]);
    }
  }

  lemma ScaleInside(a: real, b: real)
    ensures (0.8 * a) * b == 0.8 * (a * b)
  {
  }

  /** The closed form of the average: the initial estimate with weight 0.8^n, the k-th of n observations
      with weight 0.2 * 0.8^(n - 1 - k). */
  lemma {:induction false} EwmaIsWeightedSum(initial: real, observed: seq<real>)
    ensures Ewma(initial, observed) == Faded(|observed|) * initial + WeightedFrom(observed, 0)
  {
    if observed != [] {
      var n := |observed| - 1;
      var before, last := observed[..n], observed[n];
      EwmaIsWeightedSum(initial, before);
      assert before + [last] == observed;
      OlderWeighsLess(before, last, 0);
      ScaleInside(Faded(n), initial);
    }
  }

  /** With equal service times t the average moves towards t by a fifth of the distance each time. */
  lemma {:induction false} EwmaApproaches(initial: real, observed: seq<real>, t: real)
    requires forall k :: 0 <= k < |observed| ==> observed[k] == t
    ensures Ewma(initial, observed) - t == Faded(|observed|) * (initial - t)
  {
    if observed != [] {
      EwmaApproaches(initial, observed[..|observed| - 1], t);
      ScaleInside(Faded(|observed| - 1), initial - t);
    }
  }

  // ---------- No slot ----------

  /** A queue configured with no slot admits its first request on an estimate of zero, and that
      request can wait for any time: a positive concurrency is needed. */
  lemma NoSlotNoService(t: real, average: real)
    requires t >= 0.0
    ensures var s := Init(0, 1.0, average);
      && !Rejects(s) && EstimatedWait(s) == 0.0
      && exists s' :: Reaches(Next(s, Arrive(1.0)), [Tick(t)], s') && |s'.waiting| == 1
          && s'.now - s'.waiting[0].arrived == t
  {
    var s := Init(0, 1.0, average);
    var s1 := Next(s, Arrive(1.0));
    var s2 := Next(s1, Tick(t));
    assert [Tick(t)][1..] == [];
    assert Reaches(s1, [Tick(t)], s2);
  }

  // ---------- The queue object ----------

  datatype Admission = Admitted | GpuBusy(inFlight: int, estimatedWaitS: real, limitS: real)

  /** GpuQueue.  acquire is cut at its awaits: Enter runs up to the semaphore, Woken when the
      semaphore lets the request in, Leave in the inner finally, GiveUp when the wait is cancelled.
      `clock` is what the performance counter returns; the time a request needs is unknown to the
      queue and recorded for the specification. */
  class GpuQueue {
    const slots: nat
    const maxWaitS: real
    var inFlight: int
    var avgTaskS: real
    var completed: nat
    var rejected: nat
    var lastWaitS: real
    var waiting: seq<Job>
    var running: seq<Job>
    ghost var abandoned: nat
    ghost var arrivals: nat
    ghost var now: real
    ghost var observed: seq<real>
    ghost var waits: map<nat, real>
    var nextId: nat

    ghost function View(): State
      reads this
    {
      State(slots, maxWaitS, inFlight, avgTaskS, completed, rejected, abandoned, arrivals, waiting, running, now,
          observed, waits)
    }

    ghost predicate Valid()
      reads this
    {
      nextId == arrivals
    }

    constructor (concurrency: nat, maxWaitS: real, initialTaskS: real)
      ensures Valid() && View() == Init(concurrency, maxWaitS, initialTaskS)
    {
      slots, this.maxWaitS := concurrency, maxWaitS;
      inFlight, avgTaskS, completed, rejected, lastWaitS := 0, initialTaskS, 0, 0, 0.0;
      waiting, running, nextId := [], [], 0;
      abandoned, arrivals, now, observed, waits := 0, 0, 0.0, [], map[];
    }

    function EstimatedWaitS(): (w: real)
      reads this
      ensures w == EstimatedWait(View())
    {
      var ahead := if inFlight < 0 then 0 else inFlight;
      (ahead as real / Divisor(slots) as real) * avgTaskS
    }

    method Enter(need: real, clock: real) returns (r: Admission)
      requires Valid() && need >= 0.0 && clock == now
      modifies this
      ensures Valid() && View() == Next(old(View()), Arrive(need))
      ensures r.GpuBusy? <==> Rejects(old(View()))
      ensures var ahead := (if old(inFlight) < 0 then 0 else old(inFlight)) as real;
        r.GpuBusy? <==> (maxWaitS > 0.0 && ahead / (if slots < 1 then 1 else slots) as real * old(avgTaskS) > maxWaitS)
                        || old(inFlight) >= 256
      ensures inFlight == old(inFlight) + (if r.GpuBusy? then 0 else 1)
      ensures rejected == old(rejected) + (if r.GpuBusy? then 1 else 0)
      ensures avgTaskS == old(avgTaskS) && running == old(running) && completed == old(completed)
      ensures r.GpuBusy? ==> r == GpuBusy(old(inFlight), EstimatedWait(old(View())), maxWaitS)
    {
      var waitS := EstimatedWaitS();
      var tooLong := maxWaitS > 0.0 && waitS > maxWaitS;
      nextId, arrivals := nextId + 1, arrivals + 1;
      if tooLong || inFlight >= ABSOLUTE_CAP {
        rejected := rejected + 1;
        return GpuBusy(inFlight, waitS, maxWaitS);
      }
      inFlight := inFlight + 1;
      waiting := waiting + [Job(nextId - 1, need, clock, 0.0)];
      r := Admitted;
    }

    method Woken(clock: real)
      requires Valid() && Enabled(View(), Start) && clock == now
      modifies this
      ensures Valid() && View() == Next(old(View()), Start)
      ensures lastWaitS == clock - old(waiting)[0].arrived
    {
      var job := waiting[0];
      lastWaitS := clock - job.arrived;
      waiting, running := waiting[1..], running + [job.(started := clock)];
      waits := waits[job.id := clock - job.arrived];
    }

    method Leave(k: nat, clock: real)
      requires Valid() && Enabled(View(), Finish(k)) && clock == now
      modifies this
      ensures Valid() && View() == Next(old(View()), Finish(k))
      ensures var took := clock - old(running)[k].started;
        avgTaskS == old(avgTaskS) + (took - old(avgTaskS)) / 5.0
      ensures inFlight == old(inFlight) - 1 && completed == old(completed) + 1 && waiting == old(waiting)
    {
      var took := clock - running[k].started;
      avgTaskS := EWMA_ALPHA * took + (1.0 - EWMA_ALPHA) * avgTaskS;
      completed := completed + 1;
      running := Without(running, k);
      inFlight := inFlight - 1;
      observed := observed + [took];
    }

    method GiveUp(k: nat)
      requires Valid() && Enabled(View(), Abandon(k))
      modifies this
      ensures Valid() && View() == Next(old(View()), Abandon(k))
    {
      waiting := Without(waiting, k);
      inFlight := inFlight - 1;
      abandoned := abandoned + 1;
    }

    ghost method Elapse(dt: real)
      requires Valid() && Enabled(View(), Tick(dt))
      modifies this
      ensures Valid() && View() == Next(old(View()), Tick(dt))
    {
      now := now + dt;
    }
  }
}
