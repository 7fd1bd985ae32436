/** Graceful shutdown: the goroutine of `run` that drains the supervisor, waits for its sessions under a grace period
    derived from the session timeout, and then shuts the HTTP server down. Times are in nanoseconds. */
module Shutdown {
  import opened Options
  import opened Protocol
  import opened Invariant
  import opened Sums

  // What graceTime adds to the session timeout: ten seconds.
  const MARGIN: nat := 10_000_000_000

  /** Where the shutdown goroutine is. `since` is when the main context ended, `at` when Drain returned, `expires` when
      the grace context ends, `stopped` when the HTTP server is shut down; `waited` says which of the two cases of the
      select was taken. */
  datatype Phase =
    | Serving
    | Signalled(since: nat)
    | Drained(since: nat, at: nat)
    | Waiting(since: nat, at: nat, expires: nat)
    | ShuttingDown(since: nat, at: nat, expires: nat, stopped: nat, waited: bool)

  datatype System = System(sup: State, phase: Phase)

  datatype Event =
    | Supervisor(step: Step)
    | Signal
    | CallDrain
    | MakeGrace
    | WaitReturns
    | GraceExpires

  // Only the shutdown goroutine calls Drain.
  predicate Can(y: System, e: Event) {
    match e
    case Supervisor(step) => !step.DrainSet? && Enabled(y.sup, step) && Fresh(y.sup, step)
    case Signal => y.phase.Serving?
    case CallDrain => y.phase.Signalled? && Enabled(y.sup, DrainSet)
    case MakeGrace => y.phase.Drained?
    case WaitReturns => y.phase.Waiting? && y.sup.wg == 0
    case GraceExpires => y.phase.Waiting? && y.phase.expires <= y.sup.now
  }

  function After(y: System, e: Event): System
    requires Can(y, e)
  {
    match e
    case Supervisor(step) => y.(sup := Apply(y.sup, step))
    case Signal => y.(phase := Signalled(y.sup.now))
    case CallDrain => System(Apply(y.sup, DrainSet), Drained(y.phase.since, y.sup.now))
    case MakeGrace => y.(phase := Waiting(y.phase.since, y.phase.at, y.sup.now + y.sup.timeout + MARGIN))
    case WaitReturns => y.(phase := ShuttingDown(y.phase.since, y.phase.at, y.phase.expires, y.sup.now, true))
    case GraceExpires => y.(phase := ShuttingDown(y.phase.since, y.phase.at, y.phase.expires, y.sup.now, false))
  }

  // What the shutdown goroutine writes down: each time is that of the event, and what was written before stays.
  lemma EventsAreDated(y: System, e: Event)
    requires Can(y, e)
    ensures var y' := After(y, e);
            match e
            case Supervisor(step) => y' == System(Apply(y.sup, step), y.phase)
            case Signal => y' == System(y.sup, Signalled(y.sup.now))
            case CallDrain => y' == System(y.sup.(draining := true), Drained(y.phase.since, y.sup.now))
            case MakeGrace =>
              y' == System(y.sup, Waiting(y.phase.since, y.phase.at, y.sup.now + y.sup.timeout + 10_000_000_000))
            case WaitReturns =>
              && y.sup.wg == 0
              && y' == System(y.sup, ShuttingDown(y.phase.since, y.phase.at, y.phase.expires, y.sup.now, true))
            case GraceExpires =>
              && y.phase.expires <= y.sup.now
              && y' == System(y.sup, ShuttingDown(y.phase.since, y.phase.at, y.phase.expires, y.sup.now, false))
  {
  }

  predicate Possible(y: System, es: seq<Event>)
    decreases |es|
  {
    es == [] || (Can(y, es[0]) && Possible(After(y, es[0]), es[1..]))
  }

  function End(y: System, es: seq<Event>): System
    requires Possible(y, es)
    decreases |es|
  {
    if es == [] then y else End(After(y, es[0]), es[1..])
  }

  function Start(timeout: nat): System {
    System(Initial(timeout), Serving)
  }

  // ---- What holds without any assumption on time

  ghost predicate DeadlinesBy(s: State, t: nat) {
    forall h :: 0 <= h < |s.ctxs| ==> s.ctxs[h].deadline <= t
  }

  ghost predicate DrainedAt(s: State, at: nat) {
    s.draining && at <= s.now && DeadlinesBy(s, at + s.timeout)
  }

  ghost predicate PhaseInv(y: System) {
    match y.phase
    case Serving => !y.sup.draining
    case Signalled(_) => !y.sup.draining
    case Drained(_, at) => DrainedAt(y.sup, at)
    case Waiting(_, at, expires) => DrainedAt(y.sup, at) && at + y.sup.timeout + MARGIN <= expires
    case ShuttingDown(_, at, expires, _, waited) =>
      && DrainedAt(y.sup, at) && at + y.sup.timeout + MARGIN <= expires
      && (if waited then y.sup.wg == 0 else expires <= y.sup.now)
  }

  ghost predicate SystemInv(y: System) {
    Inv(y.sup) && PhaseInv(y)
  }

  lemma DrainedStep(s: State, step: Step, at: nat)
    requires Inv(s) && Enabled(s, step) && Fresh(s, step) && DrainedAt(s, at)
    ensures DrainedAt(Apply(s, step), at) && Apply(s, step).wg <= s.wg
    ensures Apply(s, step).timeout == s.timeout && s.now <= Apply(s, step).now
  {
    var s' := Apply(s, step);
    StepFrame(s, step);
    DrainBlocksStart(s, step);
    forall h | 0 <= h < |s'.ctxs|
      ensures s'.ctxs[h].deadline <= at + s.timeout
    {
      StepMoves(s, step, h);
    }
  }

  lemma DrainBlocksStart(s: State, step: Step)
    requires LockInv(s) && Enabled(s, step) && s.draining
    ensures !step.Start? && Apply(s, step).wg <= s.wg && Apply(s, step).draining
  {
  }

  lemma OnlyDrainDrains(s: State, step: Step)
    requires Enabled(s, step) && !step.DrainSet?
    ensures Apply(s, step).draining == s.draining
  {
  }

  lemma EventKeepsInv(y: System, e: Event)
    requires SystemInv(y) && Can(y, e)
    ensures SystemInv(After(y, e))
  {
    match e
    case Supervisor(step) =>
      StepInv(y.sup, step);
      OnlyDrainDrains(y.sup, step);
      SumZero(After(y, e).sup.ctxs, Unreturned);
      if !y.phase.Serving? && !y.phase.Signalled? {
        DrainedStep(y.sup, step, y.phase.at);
      }
    case CallDrain =>
      StepInv(y.sup, DrainSet);
      var s' := After(y, e).sup;
      forall h | 0 <= h < |s'.ctxs|
        ensures s'.ctxs[h].deadline <= s'.now + s'.timeout
      {
        assert Sound(s', s'.ctxs[h]);
      }
    case _ =>
  }

  lemma {:induction false} RunKeepsInv(y: System, es: seq<Event>)
    requires SystemInv(y) && Possible(y, es)
    ensures SystemInv(End(y, es))
    decreases |es|
  {
    if es != [] {
      EventKeepsInv(y, es[0]);
      RunKeepsInv(After(y, es[0]), es[1..]);
    }
  }

  /** Over every run: from Drain on, every deadline that was ever set is at most the session timeout away from the
      moment Drain returned, and the HTTP server is shut down only after Drain, and only with the WaitGroup at zero
      or the grace period over. */
  lemma ShutdownOrder(timeout: nat, es: seq<Event>)
    requires Possible(Start(timeout), es)
    ensures var y := End(Start(timeout), es);
            && (y.phase.Drained? || y.phase.Waiting? || y.phase.ShuttingDown? ==>
                  y.sup.draining && DeadlinesBy(y.sup, y.phase.at + y.sup.timeout))
            && (y.phase.ShuttingDown? ==>
                  y.sup.wg == 0 || y.phase.at + y.sup.timeout + 10_000_000_000 <= y.phase.expires <= y.sup.now)
  {
    InitialInv(timeout);
    RunKeepsInv(Start(timeout), es);
  }

  // ---- What a bound on latencies adds

  /** The assumption on the environment: a context ends at most `latency` after its deadline, and a launch returns at
      most `teardown` after its context has ended. */
  ghost predicate OnTime(s: State, latency: nat, teardown: nat) {
    forall h :: 0 <= h < |s.ctxs| ==>
      && (s.ctxs[h].cause.None? ==> s.now <= s.ctxs[h].deadline + latency)
      && (s.ctxs[h].cause.Some? && !s.ctxs[h].launch.Returned? ==> s.now <= s.ctxs[h].endedAt + teardown)
  }

  ghost predicate OnTimeRun(y: System, es: seq<Event>, latency: nat, teardown: nat)
    requires Possible(y, es)
    decreases |es|
  {
    OnTime(y.sup, latency, teardown) && (es != [] ==> OnTimeRun(After(y, es[0]), es[1..], latency, teardown))
  }

  ghost predicate EndedOnTime(s: State, latency: nat) {
    forall h :: 0 <= h < |s.ctxs| && s.ctxs[h].cause.Some? ==> s.ctxs[h].endedAt <= s.ctxs[h].deadline + latency
  }

  // A context that ends in a step ends now, and it had not ended before.
  lemma EndsNow(c: Context, c': Context, now: nat, latency: nat)
    requires Moves(now, c, c') && c'.cause.Some?
    requires if c.cause.None? then now <= c.deadline + latency else c.endedAt <= c.deadline + latency
    ensures c'.endedAt <= c'.deadline + latency
  {
  }

  lemma EventKeepsEnded(y: System, e: Event, latency: nat, teardown: nat)
    requires Inv(y.sup) && Can(y, e) && EndedOnTime(y.sup, latency) && OnTime(y.sup, latency, teardown)
    ensures EndedOnTime(After(y, e).sup, latency)
  {
    if e.Supervisor? {
      var s, s' := y.sup, After(y, e).sup;
      StepFrame(s, e.step);
      forall h | 0 <= h < |s'.ctxs| && s'.ctxs[h].cause.Some?
        ensures s'.ctxs[h].endedAt <= s'.ctxs[h].deadline + latency
      {
        if h < |s.ctxs| {
          StepMoves(s, e.step, h);
          EndsNow(s.ctxs[h], s'.ctxs[h], s.now, latency);
        }
      }
    }
  }

  lemma {:induction false} RunKeepsEnded(y: System, es: seq<Event>, latency: nat, teardown: nat)
    requires SystemInv(y) && Possible(y, es) && OnTimeRun(y, es, latency, teardown) && EndedOnTime(y.sup, latency)
    ensures var y' := End(y, es); EndedOnTime(y'.sup, latency) && OnTime(y'.sup, latency, teardown)
    decreases |es|
  {
    if es != [] {
      EventKeepsInv(y, es[0]);
      EventKeepsEnded(y, es[0], latency, teardown);
      RunKeepsEnded(After(y, es[0]), es[1..], latency, teardown);
    }
  }

  // A launch that is still running bounds the time.
  lemma RunningBoundsTime(s: State, latency: nat, teardown: nat, bound: nat)
    requires Inv(s) && EndedOnTime(s, latency) && OnTime(s, latency, teardown) && DeadlinesBy(s, bound)
    ensures s.wg != 0 ==> s.now <= bound + latency + teardown
  {
    SumZero(s.ctxs, Unreturned);
    if s.wg != 0 {
      var h :| 0 <= h < |s.ctxs| && Unreturned(s.ctxs[h]) != 0;
      assert Sound(s, s.ctxs[h]);
      assert s.ctxs[h].cause.Some? ==> s.ctxs[h].endedAt <= s.ctxs[h].deadline + latency;
    }
  }

  ghost predicate Graceful(y: System) {
    && (y.phase.Waiting? && y.phase.expires <= y.sup.now ==> y.sup.wg == 0)
    && (y.phase.ShuttingDown? ==> y.sup.wg == 0)
  }

  /** If timers and teardowns together stay below the ten seconds of margin, then by the time the grace period is
      over no launch is running, so `Wait` has returned, and the HTTP server never goes down before the sessions. */
  lemma GraceIsEnough(timeout: nat, es: seq<Event>, latency: nat, teardown: nat)
    requires Possible(Start(timeout), es) && OnTimeRun(Start(timeout), es, latency, teardown)
    requires latency + teardown < 10_000_000_000
    ensures Graceful(End(Start(timeout), es))
  {
    InitialInv(timeout);
    RunKeepsInv(Start(timeout), es);
    RunKeepsEnded(Start(timeout), es, latency, teardown);
    var y := End(Start(timeout), es);
    if y.phase.Waiting? || y.phase.ShuttingDown? {
      RunningBoundsTime(y.sup, latency, teardown, y.phase.at + y.sup.timeout);
    }
  }

  // ---- Runs with one session, created at time zero and followed by an immediate signal

  lemma Prepend(y: System, e: Event, es: seq<Event>, latency: nat, teardown: nat)
    requires Can(y, e) && OnTime(y.sup, latency, teardown)
    requires Possible(After(y, e), es) && OnTimeRun(After(y, e), es, latency, teardown)
    ensures Possible(y, [e] + es) && OnTimeRun(y, [e] + es, latency, teardown)
    ensures End(y, [e] + es) == End(After(y, e), es)
  {
  }

  // One session, just created.
  function OneSession(timeout: nat, draining: bool): State {
    var c := Context("a", 0, timeout, None, 0, false, Running, true, None, None, None);
    State(timeout, 0, map["a" := 0], draining, Free, [c], 1, 1, 1, 0, 0, 0, 0, 0, 0)
  }

  function Creation(): seq<Event> {
    [Supervisor(CreateEnter(true)), Supervisor(Step.Start("a")), Supervisor(ProbeSucceeded), Supervisor(Activate)]
  }

  function Stop(): seq<Event> {
    [Signal, CallDrain, MakeGrace]
  }

  lemma CreationRun(timeout: nat, es: seq<Event>, latency: nat, teardown: nat)
    requires var y := System(OneSession(timeout, false), Serving);
             Possible(y, es) && OnTimeRun(y, es, latency, teardown)
    ensures Possible(Start(timeout), Creation() + es)
    ensures OnTimeRun(Start(timeout), Creation() + es, latency, teardown)
    ensures End(Start(timeout), Creation() + es) == End(System(OneSession(timeout, false), Serving), es)
  {
    var o := Creation();
    var y0 := Start(timeout);
    var y1 := After(y0, o[0]);
    var y2 := After(y1, o[1]);
    var y3 := After(y2, o[2]);
    assert After(y3, o[3]) == System(OneSession(timeout, false), Serving);
    Prepend(y3, o[3], es, latency, teardown);
    Prepend(y2, o[2], [o[3]] + es, latency, teardown);
    Prepend(y1, o[1], [o[2]] + ([o[3]] + es), latency, teardown);
    Prepend(y0, o[0], [o[1]] + ([o[2]] + ([o[3]] + es)), latency, teardown);
    assert o + es == [o[0]] + ([o[1]] + ([o[2]] + ([o[3]] + es)));
  }

  lemma StopRun(timeout: nat, es: seq<Event>, latency: nat, teardown: nat)
    requires var y := System(OneSession(timeout, true), Waiting(0, 0, timeout + MARGIN));
             Possible(y, es) && OnTimeRun(y, es, latency, teardown)
    ensures var y := System(OneSession(timeout, false), Serving);
            && Possible(y, Stop() + es) && OnTimeRun(y, Stop() + es, latency, teardown)
            && End(y, Stop() + es) == End(System(OneSession(timeout, true), Waiting(0, 0, timeout + MARGIN)), es)
  {
    var o := Stop();
    var y0 := System(OneSession(timeout, false), Serving);
    var y1 := After(y0, o[0]);
    var y2 := After(y1, o[1]);
    assert After(y2, o[2]) == System(OneSession(timeout, true), Waiting(0, 0, timeout + MARGIN));
    Prepend(y2, o[2], es, latency, teardown);
    Prepend(y1, o[1], [o[2]] + es, latency, teardown);
    Prepend(y0, o[0], [o[1]] + ([o[2]] + es), latency, teardown);
    assert o + es == [o[0]] + ([o[1]] + ([o[2]] + es));
  }

  // ---- How long Wait takes after Drain

  // Since m after the session timeout is over, counted from the return of Drain, no launch is running.
  ghost predicate DoneBy(y: System, m: nat) {
    (y.phase.Drained? || y.phase.Waiting? || y.phase.ShuttingDown?) && y.phase.at + y.sup.timeout + m < y.sup.now ==>
      y.sup.wg == 0
  }

  // If the run is possible and on time, its launches end by then.
  ghost predicate EndsDoneBy(timeout: nat, es: seq<Event>, latency: nat, teardown: nat, m: nat) {
    Possible(Start(timeout), es) && OnTimeRun(Start(timeout), es, latency, teardown) ==>
      DoneBy(End(Start(timeout), es), m)
  }

  lemma BoundedIsDone(timeout: nat, es: seq<Event>, latency: nat, teardown: nat, m: nat)
    requires Possible(Start(timeout), es) && OnTimeRun(Start(timeout), es, latency, teardown)
    requires latency + teardown <= m
    ensures DoneBy(End(Start(timeout), es), m)
  {
    InitialInv(timeout);
    RunKeepsInv(Start(timeout), es);
    RunKeepsEnded(Start(timeout), es, latency, teardown);
    var y := End(Start(timeout), es);
    if y.phase.Drained? || y.phase.Waiting? || y.phase.ShuttingDown? {
      RunningBoundsTime(y.sup, latency, teardown, y.phase.at + y.sup.timeout);
    }
  }

  // The deadline fires as late as it may, and the launch takes as long as it may.
  function Dragging(timeout: nat, latency: nat, teardown: nat): seq<Event> {
    [Supervisor(Tick(timeout + latency)), Supervisor(DeadlineFires(0)), Supervisor(Tick(teardown))]
  }

  lemma DraggingRun(timeout: nat, latency: nat, teardown: nat)
    ensures var y := System(OneSession(timeout, true), Waiting(0, 0, timeout + MARGIN));
            var es := Dragging(timeout, latency, teardown);
            && Possible(y, es) && OnTimeRun(y, es, latency, teardown)
            && End(y, es).sup.wg == 1 && End(y, es).sup.now == timeout + latency + teardown
            && End(y, es).phase == y.phase && End(y, es).sup.timeout == timeout
  {
    var c := Dragging(timeout, latency, teardown);
    var y := System(OneSession(timeout, true), Waiting(0, 0, timeout + MARGIN));
    var y1 := After(y, c[0]);
    var y2 := After(y1, c[1]);
    Prepend(y2, c[2], [], latency, teardown);
    assert [c[2]] + [] == [c[2]];
    Prepend(y1, c[1], [c[2]], latency, teardown);
    Prepend(y, c[0], [c[1]] + [c[2]], latency, teardown);
    assert c == [c[0]] + ([c[1]] + [c[2]]);
  }

  /** How long `Wait` can take after Drain, exactly: m more than the session timeout, on all timely runs, if and only if
      the bounds on timers and teardowns together are at most m. So it takes at most the session timeout itself, as the
      comment on Drain says, only if timers and teardowns take no time at all. */
  lemma WaitIsExact(timeout: nat, latency: nat, teardown: nat, m: nat)
    ensures latency + teardown <= m <==> forall es :: EndsDoneBy(timeout, es, latency, teardown, m)
  {
    if latency + teardown <= m {
      forall es
        ensures EndsDoneBy(timeout, es, latency, teardown, m)
      {
        if Possible(Start(timeout), es) && OnTimeRun(Start(timeout), es, latency, teardown) {
          BoundedIsDone(timeout, es, latency, teardown, m);
        }
      }
    } else {
      var es := Dragging(timeout, latency, teardown);
      DraggingRun(timeout, latency, teardown);
      StopRun(timeout, es, latency, teardown);
      CreationRun(timeout, Stop() + es, latency, teardown);
      assert !EndsDoneBy(timeout, Creation() + (Stop() + es), latency, teardown, m);
    }
  }

  // ---- What the grace period needs

  // The deadline fires as late as it may, and the launch takes its time.
  function Closing(timeout: nat, late: nat): seq<Event>
    requires late <= MARGIN
  {
    [Supervisor(Tick(timeout + late)), Supervisor(DeadlineFires(0)), Supervisor(Tick(MARGIN - late)), GraceExpires]
  }

  lemma ClosingRun(timeout: nat, late: nat, latency: nat, teardown: nat)
    requires late <= latency && late <= MARGIN <= late + teardown
    ensures var y := System(OneSession(timeout, true), Waiting(0, 0, timeout + MARGIN));
            && Possible(y, Closing(timeout, late)) && OnTimeRun(y, Closing(timeout, late), latency, teardown)
            && !Graceful(End(y, Closing(timeout, late)))
  {
    var c := Closing(timeout, late);
    var y := System(OneSession(timeout, true), Waiting(0, 0, timeout + MARGIN));
    var y1 := After(y, c[0]);
    var y2 := After(y1, c[1]);
    var y3 := After(y2, c[2]);
    assert !Graceful(After(y3, c[3]));
    Prepend(y3, c[3], [], latency, teardown);
    assert [c[3]] + [] == [c[3]];
    Prepend(y2, c[2], [c[3]], latency, teardown);
    Prepend(y1, c[1], [c[2]] + [c[3]], latency, teardown);
    Prepend(y, c[0], [c[1]] + ([c[2]] + [c[3]]), latency, teardown);
    assert c == [c[0]] + ([c[1]] + ([c[2]] + [c[3]]));
  }

  // If the run is possible and on time, it ends gracefully.
  ghost predicate EndsGracefully(timeout: nat, es: seq<Event>, latency: nat, teardown: nat) {
    Possible(Start(timeout), es) && OnTimeRun(Start(timeout), es, latency, teardown) ==>
      Graceful(End(Start(timeout), es))
  }

  /** The grace period suffices exactly when the bounds on timers and teardowns stay below the margin: with larger
      ones there is a run, on time by those bounds, in which the grace period expires and the HTTP server is shut
      down while a launch is still running. */
  lemma GraceIsExact(timeout: nat, latency: nat, teardown: nat)
    ensures latency + teardown < 10_000_000_000 <==> forall es :: EndsGracefully(timeout, es, latency, teardown)
  {
    if latency + teardown < MARGIN {
      forall es
        ensures EndsGracefully(timeout, es, latency, teardown)
      {
        if Possible(Start(timeout), es) && OnTimeRun(Start(timeout), es, latency, teardown) {
          GraceIsEnough(timeout, es, latency, teardown);
        }
      }
    } else {
      var late := if latency <= MARGIN then latency else MARGIN;
      ClosingRun(timeout, late, latency, teardown);
      StopRun(timeout, Closing(timeout, late), latency, teardown);
      CreationRun(timeout, Stop() + Closing(timeout, late), latency, teardown);
      assert !EndsGracefully(timeout, Creation() + (Stop() + Closing(timeout, late)), latency, teardown);
    }
  }
}
