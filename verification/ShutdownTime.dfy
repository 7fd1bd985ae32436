/** The time from the end of the main context to the shutdown of the HTTP server. Drain has to wait for the mutex first,
    which a `create` may hold for as long as its probe takes; the grace period only begins after that. */
module ShutdownTime {
  import opened Protocol
  import opened Invariant
  import opened Shutdown
  import Probe

  /** The assumption on time: from the signal on it passes only during a probe, which is over `hold` after its start,
      and while Wait is waiting in the grace period. Everything else, the shutdown goroutine included, is immediate. */
  ghost predicate Swift(y: System, e: Event, hold: nat) {
    e.Supervisor? && e.step.Tick? && e.step.d > 0 ==>
      match y.phase
      case Signalled(_) =>
        && y.sup.lock.Probing? && y.sup.lock.h < |y.sup.ctxs|
        && y.sup.now + e.step.d <= y.sup.ctxs[y.sup.lock.h].startedAt + hold
      case Drained(_, _) => false
      case Waiting(_, _, expires) => y.sup.wg != 0 && y.sup.now + e.step.d <= expires
      case _ => true
  }

  ghost predicate SwiftRun(y: System, es: seq<Event>, hold: nat)
    requires Shutdown.Possible(y, es)
    decreases |es|
  {
    es == [] || (Swift(y, es[0], hold) && SwiftRun(After(y, es[0]), es[1..], hold))
  }

  // A create that gets the mutex between the signal and Drain.
  predicate Overtakes(y: System, e: Event) {
    y.phase.Signalled? && e.Supervisor? && e.step.Start?
  }

  function Overtakers(y: System, es: seq<Event>): nat
    requires Shutdown.Possible(y, es)
    decreases |es|
  {
    if es == [] then 0 else (if Overtakes(y, es[0]) then 1 else 0) + Overtakers(After(y, es[0]), es[1..])
  }

  // The longest that they can take.
  function Queue(y: System, es: seq<Event>, hold: nat): nat
    requires Shutdown.Possible(y, es)
    decreases |es|
  {
    if es == [] then 0 else (if Overtakes(y, es[0]) then hold else 0) + Queue(After(y, es[0]), es[1..], hold)
  }

  lemma {:induction false} QueueOfOvertakers(y: System, es: seq<Event>, hold: nat)
    requires Shutdown.Possible(y, es)
    ensures Queue(y, es, hold) == Overtakers(y, es) * hold
    decreases |es|
  {
    if es != [] {
      QueueOfOvertakers(After(y, es[0]), es[1..], hold);
    }
  }

  // ---- The bound

  ghost predicate StartedBy(s: State, t: nat) {
    forall h :: 0 <= h < |s.ctxs| ==> s.ctxs[h].startedAt <= t
  }

  // What the phases say about time, when `before` is the longest that the creates before Drain can have taken.
  ghost predicate TimeInv(y: System, before: nat, hold: nat) {
    match y.phase
    case Serving => true
    case Signalled(since) => y.sup.now <= since + before + hold && StartedBy(y.sup, since + before)
    case Drained(since, at) => y.sup.now == at <= since + before + hold && StartedBy(y.sup, since + before)
    case Waiting(since, at, expires) =>
      && at <= since + before + hold && StartedBy(y.sup, since + before)
      && y.sup.now <= expires == at + y.sup.timeout + MARGIN
    case ShuttingDown(since, at, expires, stopped, _) =>
      at <= since + before + hold && stopped <= expires == at + y.sup.timeout + MARGIN
  }

  lemma StartsStay(s: State, step: Step, t: nat)
    requires Enabled(s, step) && StartedBy(s, t)
    ensures StartedBy(Apply(s, step), if step.Start? && t < s.now then s.now else t)
  {
    var s' := Apply(s, step);
    StepFrame(s, step);
    forall h | 0 <= h < |s.ctxs|
      ensures s'.ctxs[h].startedAt <= t
    {
      StepMoves(s, step, h);
    }
  }

  lemma OnlyTicksTakeTime(s: State, step: Step)
    requires Enabled(s, step) && (step.Tick? ==> step.d == 0)
    ensures Apply(s, step).now == s.now && Apply(s, step).timeout == s.timeout
  {
  }

  lemma EventKeepsTime(y: System, e: Event, before: nat, hold: nat)
    requires SystemInv(y) && Can(y, e) && Swift(y, e, hold) && TimeInv(y, before, hold)
    ensures TimeInv(After(y, e), before + if Overtakes(y, e) then hold else 0, hold)
  {
    match e
    case Supervisor(step) =>
      if !y.phase.Serving? {
        if step.Tick? && step.d > 0 {
        } else {
          OnlyTicksTakeTime(y.sup, step);
        }
        if !y.phase.ShuttingDown? {
          StartsStay(y.sup, step, y.phase.since + before);
          if y.sup.draining {
            DrainBlocksStart(y.sup, step);
          }
        }
      }
    case Signal =>
      forall h | 0 <= h < |y.sup.ctxs|
        ensures y.sup.ctxs[h].startedAt <= y.sup.now
      {
        assert Sound(y.sup, y.sup.ctxs[h]);
      }
    case _ =>
  }

  lemma {:induction false} RunKeepsTime(y: System, es: seq<Event>, before: nat, hold: nat)
    requires SystemInv(y) && Shutdown.Possible(y, es) && SwiftRun(y, es, hold) && TimeInv(y, before, hold)
    ensures TimeInv(End(y, es), before + Queue(y, es, hold), hold)
    decreases |es|
  {
    if es != [] {
      EventKeepsTime(y, es[0], before, hold);
      EventKeepsInv(y, es[0]);
      RunKeepsTime(After(y, es[0]), es[1..], before + if Overtakes(y, es[0]) then hold else 0, hold);
    }
  }

  /** Whatever the sessions do, the HTTP server is shut down no later after the signal than the creates take that have
      the mutex before Drain does, and then the grace period. */
  lemma SignalToShutdown(timeout: nat, es: seq<Event>, hold: nat)
    requires Shutdown.Possible(Shutdown.Start(timeout), es) && SwiftRun(Shutdown.Start(timeout), es, hold)
    ensures var y := End(Shutdown.Start(timeout), es);
            y.phase.ShuttingDown? ==>
              y.phase.stopped <=
              y.phase.since + Overtakers(Shutdown.Start(timeout), es) * hold + hold + y.sup.timeout
              + 10_000_000_000
  {
    InitialInv(timeout);
    RunKeepsTime(Shutdown.Start(timeout), es, 0, hold);
    QueueOfOvertakers(Shutdown.Start(timeout), es, hold);
  }

  // The event with which the HTTP server is shut down.
  predicate Stops(e: Event) {
    e.WaitReturns? || e.GraceExpires?
  }

  // The same at that event, by the clock.
  lemma StopsInTime(timeout: nat, es: seq<Event>, e: Event, hold: nat)
    requires Shutdown.Possible(Shutdown.Start(timeout), es) && SwiftRun(Shutdown.Start(timeout), es, hold)
    requires Can(End(Shutdown.Start(timeout), es), e) && Stops(e)
    ensures var y := End(Shutdown.Start(timeout), es);
            && y.sup.now <= y.phase.since + Overtakers(Shutdown.Start(timeout), es) * hold + hold
                            + timeout + 10_000_000_000
            && After(y, e).phase.stopped == y.sup.now
  {
    InitialInv(timeout);
    RunKeepsTime(Shutdown.Start(timeout), es, 0, hold);
    QueueOfOvertakers(Shutdown.Start(timeout), es, hold);
    TimeoutStays(Shutdown.Start(timeout), es);
  }

  // ---- When launches return in time

  ghost predicate TimelyInv(y: System, before: nat, hold: nat, rest: nat) {
    match y.phase
    case Waiting(since, _, _) => y.sup.now <= since + before + hold || y.sup.now <= since + before + rest
    case ShuttingDown(since, _, _, stopped, _) =>
      stopped <= since + before + hold || stopped <= since + before + rest
    case _ => true
  }

  lemma EventKeepsTimely(y: System, e: Event, before: nat, hold: nat, latency: nat, teardown: nat)
    requires SystemInv(y) && Can(y, e) && Swift(y, e, hold) && TimeInv(y, before, hold)
    requires EndedOnTime(y.sup, latency) && OnTime(y.sup, latency, teardown)
    requires OnTime(After(y, e).sup, latency, teardown)
    requires TimelyInv(y, before, hold, y.sup.timeout + latency + teardown)
    ensures TimelyInv(After(y, e), before + if Overtakes(y, e) then hold else 0, hold,
                      After(y, e).sup.timeout + latency + teardown)
  {
    var y' := After(y, e);
    if e.Supervisor? {
      StepFrame(y.sup, e.step);
    }
    if e.Supervisor? && y.phase.Waiting? {
      if e.step.Tick? && e.step.d > 0 {
        EventKeepsTime(y, e, before, hold);
        EventKeepsInv(y, e);
        EventKeepsEnded(y, e, latency, teardown);
        var bound := y.phase.since + before + y.sup.timeout;
        forall h | 0 <= h < |y'.sup.ctxs|
          ensures y'.sup.ctxs[h].deadline <= bound
        {
          assert Sound(y'.sup, y'.sup.ctxs[h]);
        }
        RunningBoundsTime(y'.sup, latency, teardown, bound);
      } else {
        OnlyTicksTakeTime(y.sup, e.step);
      }
    }
  }

  ghost predicate AllInv(y: System, before: nat, hold: nat, latency: nat, teardown: nat) {
    && SystemInv(y) && TimeInv(y, before, hold) && EndedOnTime(y.sup, latency)
    && TimelyInv(y, before, hold, y.sup.timeout + latency + teardown)
  }

  lemma EventKeepsAll(y: System, e: Event, before: nat, hold: nat, latency: nat, teardown: nat)
    requires AllInv(y, before, hold, latency, teardown) && Can(y, e) && Swift(y, e, hold)
    requires OnTime(y.sup, latency, teardown) && OnTime(After(y, e).sup, latency, teardown)
    ensures AllInv(After(y, e), before + if Overtakes(y, e) then hold else 0, hold, latency, teardown)
  {
    EventKeepsTime(y, e, before, hold);
    EventKeepsInv(y, e);
    EventKeepsEnded(y, e, latency, teardown);
    EventKeepsTimely(y, e, before, hold, latency, teardown);
  }

  lemma {:induction false} RunKeepsTimely(y: System, es: seq<Event>, before: nat, hold: nat,
                                             latency: nat, teardown: nat)
    requires AllInv(y, before, hold, latency, teardown) && Shutdown.Possible(y, es) && SwiftRun(y, es, hold)
    requires OnTimeRun(y, es, latency, teardown)
    ensures TimelyInv(End(y, es), before + Queue(y, es, hold), hold, End(y, es).sup.timeout + latency + teardown)
    decreases |es|
  {
    if es != [] {
      var before' := before + if Overtakes(y, es[0]) then hold else 0;
      var y' := After(y, es[0]);
      assert OnTimeRun(y', es[1..], latency, teardown) && SwiftRun(y', es[1..], hold);
      assert OnTime(y'.sup, latency, teardown);
      EventKeepsAll(y, es[0], before, hold, latency, teardown);
      RunKeepsTimely(y', es[1..], before', hold, latency, teardown);
    }
  }

  /** If sessions end in time, the session timeout runs from the signal and not from Drain, since every session was
      started before the last create got the mutex. So without overtakers, and with latency and teardown within the
      margin, the grace time counted from the signal is enough. */
  lemma SignalToShutdownOnTime(timeout: nat, es: seq<Event>, hold: nat, latency: nat, teardown: nat)
    requires Shutdown.Possible(Shutdown.Start(timeout), es) && SwiftRun(Shutdown.Start(timeout), es, hold)
    requires OnTimeRun(Shutdown.Start(timeout), es, latency, teardown)
    ensures var y := End(Shutdown.Start(timeout), es);
            var rest := timeout + latency + teardown;
            y.phase.ShuttingDown? ==>
              y.phase.stopped <=
              y.phase.since + Overtakers(Shutdown.Start(timeout), es) * hold + if hold < rest then rest else hold
    ensures var y := End(Shutdown.Start(timeout), es);
            && Overtakers(Shutdown.Start(timeout), es) == 0
            && hold <= timeout + 10_000_000_000 && latency + teardown <= 10_000_000_000 ==>
              StopsWithin(y, timeout + 10_000_000_000)
  {
    InitialInv(timeout);
    RunKeepsTimely(Shutdown.Start(timeout), es, 0, hold, latency, teardown);
    QueueOfOvertakers(Shutdown.Start(timeout), es, hold);
    TimeoutStays(Shutdown.Start(timeout), es);
  }

  // ---- The bound is reached

  ghost predicate SwiftlyLeads(timeout: nat, es: seq<Event>, hold: nat, k: nat, y: System) {
    && Shutdown.Possible(Shutdown.Start(timeout), es) && SwiftRun(Shutdown.Start(timeout), es, hold)
    && Overtakers(Shutdown.Start(timeout), es) == k && End(Shutdown.Start(timeout), es) == y
  }

  // Some run with k overtakers leads to y.
  ghost predicate SwiftlyArrives(timeout: nat, hold: nat, k: nat, y: System) {
    exists es :: SwiftlyLeads(timeout, es, hold, k, y)
  }

  lemma {:induction false} OneMore(y: System, es: seq<Event>, e: Event, hold: nat)
    requires Shutdown.Possible(y, es) && SwiftRun(y, es, hold) && Can(End(y, es), e) && Swift(End(y, es), e, hold)
    ensures Shutdown.Possible(y, es + [e]) && SwiftRun(y, es + [e], hold) && End(y, es + [e]) == After(End(y, es), e)
    ensures Overtakers(y, es + [e]) == Overtakers(y, es) + if Overtakes(End(y, es), e) then 1 else 0
    decreases |es|
  {
    if es == [] {
      assert es + [e] == [e] && [e][1..] == [];
    } else {
      OneMore(After(y, es[0]), es[1..], e, hold);
      assert (es + [e])[1..] == es[1..] + [e];
    }
  }

  lemma ArrivesNext(timeout: nat, hold: nat, k: nat, y: System, e: Event)
    requires SwiftlyArrives(timeout, hold, k, y) && Can(y, e) && Swift(y, e, hold)
    ensures SwiftlyArrives(timeout, hold, k + if Overtakes(y, e) then 1 else 0, After(y, e))
  {
    var es :| SwiftlyLeads(timeout, es, hold, k, y);
    OneMore(Shutdown.Start(timeout), es, e, hold);
    assert SwiftlyLeads(timeout, es + [e], hold, k + if Overtakes(y, e) then 1 else 0, After(y, e));
  }

  // The k-th overtaker has just started its launch, and none of the earlier ones has returned.
  ghost predicate JustStarted(y: System, timeout: nat, hold: nat, k: nat) {
    var n := |y.sup.ctxs| - 1;
    && y.phase == Signalled(0) && y.sup.now == k * hold && y.sup.timeout == timeout
    && !y.sup.draining && y.sup.sessions == map[] && y.sup.wg == k + 1
    && n >= 0 && y.sup.lock.Probing? && y.sup.lock.h == n
    && y.sup.ctxs[n].startedAt == y.sup.now && y.sup.ctxs[n].cause.None? && !y.sup.ctxs[n].reaped
    && forall h :: 0 <= h < n ==> y.sup.ctxs[h].reaped
  }

  // The signal comes during a probe.
  lemma FirstProbe(timeout: nat, hold: nat) returns (y: System)
    ensures JustStarted(y, timeout, hold, 0) && SwiftlyArrives(timeout, hold, 0, y)
  {
    y := Shutdown.Start(timeout);
    assert SwiftlyLeads(timeout, [], hold, 0, y);
    ArrivesNext(timeout, hold, 0, y, Supervisor(CreateEnter(false)));
    y := After(y, Supervisor(CreateEnter(false)));
    ArrivesNext(timeout, hold, 0, y, Supervisor(Step.Start("a")));
    y := After(y, Supervisor(Step.Start("a")));
    ArrivesNext(timeout, hold, 0, y, Signal);
    y := After(y, Signal);
  }

  // The probe takes its time and fails.
  lemma ProbeEnds(timeout: nat, hold: nat, k: nat, y0: System) returns (y: System)
    requires JustStarted(y0, timeout, hold, k) && SwiftlyArrives(timeout, hold, k, y0)
    ensures SwiftlyArrives(timeout, hold, k, y)
    ensures y.phase == Signalled(0) && y.sup.now == k * hold + hold && y.sup.timeout == timeout
    ensures !y.sup.draining && y.sup.sessions == map[] && y.sup.wg == k + 1 && y.sup.lock.Free?
    ensures forall h :: 0 <= h < |y.sup.ctxs| ==> y.sup.ctxs[h].reaped
  {
    y := y0;
    var n := |y.sup.ctxs| - 1;
    ArrivesNext(timeout, hold, k, y, Supervisor(Tick(hold)));
    y := After(y, Supervisor(Tick(hold)));
    ArrivesNext(timeout, hold, k, y, Supervisor(ProbeFailed));
    y := After(y, Supervisor(ProbeFailed));
    ArrivesNext(timeout, hold, k, y, Supervisor(ReapEnter(n)));
    y := After(y, Supervisor(ReapEnter(n)));
  }

  // Then another create gets the mutex, k times.
  lemma {:induction false} ManyProbes(timeout: nat, hold: nat, k: nat) returns (y: System)
    ensures JustStarted(y, timeout, hold, k) && SwiftlyArrives(timeout, hold, k, y)
  {
    if k == 0 {
      y := FirstProbe(timeout, hold);
    } else {
      y := ManyProbes(timeout, hold, k - 1);
      y := ProbeEnds(timeout, hold, k - 1, y);
      ArrivesNext(timeout, hold, k - 1, y, Supervisor(CreateEnter(false)));
      y := After(y, Supervisor(CreateEnter(false)));
      ArrivesNext(timeout, hold, k - 1, y, Supervisor(Step.Start("a")));
      y := After(y, Supervisor(Step.Start("a")));
    }
  }

  // Drain gets the mutex, and the grace period passes with a launch that does not return.
  lemma GracePasses(timeout: nat, hold: nat, k: nat, y0: System) returns (y: System)
    requires SwiftlyArrives(timeout, hold, k, y0)
    requires y0.phase.Signalled? && y0.sup.timeout == timeout && y0.sup.wg > 0 && y0.sup.lock.Free?
    ensures SwiftlyArrives(timeout, hold, k, y) && y.phase.ShuttingDown?
    ensures y.phase.since == y0.phase.since && y.phase.stopped == y0.sup.now + timeout + MARGIN
  {
    ArrivesNext(timeout, hold, k, y0, CallDrain);
    y := After(y0, CallDrain);
    ArrivesNext(timeout, hold, k, y, MakeGrace);
    y := After(y, MakeGrace);
    ArrivesNext(timeout, hold, k, y, Supervisor(Tick(timeout + MARGIN)));
    y := After(y, Supervisor(Tick(timeout + MARGIN)));
    ArrivesNext(timeout, hold, k, y, GraceExpires);
    y := After(y, GraceExpires);
  }

  lemma SlowestShutdown(timeout: nat, hold: nat, k: nat) returns (y: System)
    ensures SwiftlyArrives(timeout, hold, k, y) && y.phase.ShuttingDown?
    ensures y.phase.stopped == y.phase.since + k * hold + hold + timeout + MARGIN
  {
    y := ManyProbes(timeout, hold, k);
    y := ProbeEnds(timeout, hold, k, y);
    y := GracePasses(timeout, hold, k, y);
  }

  lemma ArrivalIsBounded(timeout: nat, hold: nat, k: nat, y: System)
    requires SwiftlyArrives(timeout, hold, k, y) && y.phase.ShuttingDown?
    ensures y.phase.stopped <= y.phase.since + k * hold + hold + timeout + MARGIN
  {
    var es :| SwiftlyLeads(timeout, es, hold, k, y);
    SignalToShutdown(timeout, es, hold);
    TimeoutStays(Shutdown.Start(timeout), es);
  }

  lemma {:induction false} TimeoutStays(y: System, es: seq<Event>)
    requires Shutdown.Possible(y, es)
    ensures End(y, es).sup.timeout == y.sup.timeout
    decreases |es|
  {
    if es != [] {
      if es[0].Supervisor? {
        StepFrame(y.sup, es[0].step);
      }
      TimeoutStays(After(y, es[0]), es[1..]);
    }
  }

  ghost predicate StopsWithin(y: System, budget: nat) {
    y.phase.ShuttingDown? ==> y.phase.stopped <= y.phase.since + budget
  }

  /** What the environment has to allow between the signal and the shutdown of the HTTP server, exactly: a budget is
      enough for all runs with k overtakers if and only if it covers k + 1 probes and the grace time. The grace time
      alone, counted from the signal, is not enough as soon as a probe takes time. */
  lemma SignalToShutdownIsExact(timeout: nat, hold: nat, k: nat, budget: nat)
    ensures k * hold + hold + timeout + 10_000_000_000 <= budget <==>
            forall y :: SwiftlyArrives(timeout, hold, k, y) ==> StopsWithin(y, budget)
  {
    if k * hold + hold + timeout + MARGIN <= budget {
      forall y | SwiftlyArrives(timeout, hold, k, y)
        ensures StopsWithin(y, budget)
      {
        if y.phase.ShuttingDown? {
          ArrivalIsBounded(timeout, hold, k, y);
        }
      }
    } else {
      var y := SlowestShutdown(timeout, hold, k);
      assert !StopsWithin(y, budget);
    }
  }

  // With the longest probe of create, the grace time counted from the signal is short by 2.759375 s and the lateness.
  lemma GraceFromSignalIsShort(timeout: nat, late: nat)
    ensures exists y :: SwiftlyArrives(timeout, Probe.LongestProbe(late), 0, y) && y.phase.ShuttingDown?
                        && y.phase.stopped == y.phase.since + timeout + 12_759_375_000 + 2 * late
  {
    var y := SlowestShutdown(timeout, Probe.LongestProbe(late), 0);
  }
}
