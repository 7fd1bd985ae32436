/** The supervisor's session protocol, one shared-memory action at a time.

    A State is everything the goroutines of the supervisor share: the session map and the draining flag that the
    mutex guards, who holds the mutex and how far it has got, the WaitGroup, the metrics, the clock, and one Context
    per call of `context.WithTimeout`. A Step is one action of one goroutine or of the environment. Steps inside a
    critical section need the mutex; the clock, the deadline timers and the launch goroutines do not, so they can
    come between any two of them. */
module Protocol {
  import opened Options

  type Id = string

  // Why a context ended (`ctx.Err()`).
  datatype Cause = Canceled | DeadlineExceeded

  // The termination reasons of the `sessions_terminated_total` metric.
  datatype Reason = Deleted | TimedOut | Replaced

  datatype Execution = Finished | Failed

  // How the `launch` goroutine got on: the temporary directory could not be made, or chromium ran and exited.
  datatype Outcome = NoTempDir | Exited(ok: bool)

  // The launch goroutine runs, has recorded its metrics, or has called `wg.Done()`.
  datatype Launch = Running | Measured | Returned

  /** One session context and what hangs on it. `reaped` says that the function registered with `context.AfterFunc`
      has entered its critical section; `created` and `termination` record under which counters the session has
      been counted, `exit` and `execution` how its launch ended and was counted. */
  datatype Context = Context(
    id: Id,
    startedAt: nat,
    deadline: nat,
    cause: Option<Cause>,
    endedAt: nat,
    reaped: bool,
    launch: Launch,
    created: bool,
    termination: Option<Reason>,
    exit: Option<Outcome>,
    execution: Option<Execution>)

  // A call of `create` that got past its two guards, with the IDs that were in the map when it took the mutex.
  datatype Call = Call(ifFree: bool, before: set<Id>)

  // Who holds the mutex, and which part of the critical section is behind it.
  datatype Holder =
    | Free
    | Killing(call: Call)                          // create: in the loop of killExisting
    | KillCancelled(call: Call, id: Id, h: nat)    // delete: sess.cancel() has been called
    | KillRemoved(call: Call, h: nat)              // delete: the map entry is gone
    | Probing(call: Call, h: nat)                  // create: launch started, Version being retried
    | Inserted(call: Call, h: nat)                 // create: the map entry is in
    | Removed(h: nat, reason: Reason)              // takeSession: the map entry is gone
    | Recorded(h: nat)                             // takeSession: the metrics are updated

  datatype State = State(
    timeout: nat,
    now: nat,
    sessions: map<Id, nat>,
    draining: bool,
    lock: Holder,
    ctxs: seq<Context>,
    wg: int,
    gauge: nat,
    created: nat,
    deleted: nat,
    timedOut: nat,
    replaced: nat,
    durations: nat,
    finished: nat,
    failed: nat)

  datatype Step =
    // create, with ifFree false for Create and true for CreateIfFree
    | CreateEnter(ifFree: bool)
    | KillCancel(id: Id)
    | KillRemove
    | KillRecord
    | Start(id: Id)
    | ProbeFailed
    | ProbeSucceeded
    | Activate
    // takeSession, called by Delete or by the AfterFunc of context h
    | DeleteEnter(id: Id)
    | ReapEnter(h: nat)
    | Record
    | Cancel
    // the other methods
    | DrainSet
    | SessionRead(id: Id)
    | SessionsRead
    // no mutex needed
    | Tick(d: nat)
    | DeadlineFires(h: nat)
    | LaunchExits(h: nat, outcome: Outcome)
    | LaunchReturns(h: nat)

  // What a method of the supervisor tells its caller.
  datatype Response =
    | ErrDraining
    | ErrSessionExists
    | ErrProbe
    | Created(id: Id)
    | Found(found: bool)
    | Reaped(found: bool)
    | DrainDone
    | Ids(ids: set<Id>)

  function Initial(timeout: nat): State {
    State(timeout, 0, map[], false, Free, [], 0, 0, 0, 0, 0, 0, 0, 0, 0)
  }

  // Ends a context. A context that has ended keeps its first cause.
  function EndedBy(c: Context, cause: Cause, now: nat): Context {
    if c.cause.Some? then c else c.(cause := Some(cause), endedAt := now)
  }

  // A nonzero exit counts as failed, unless the context was cancelled.
  function Classify(ok: bool, cause: Option<Cause>): Execution {
    if !ok && cause != Some(Canceled) then Failed else Finished
  }

  predicate Enabled(s: State, step: Step) {
    match step
    case CreateEnter(_) => s.lock.Free?
    case KillCancel(id) => s.lock.Killing? && id in s.sessions && s.sessions[id] < |s.ctxs|
    case KillRemove => s.lock.KillCancelled?
    case KillRecord => s.lock.KillRemoved? && s.lock.h < |s.ctxs|
    case Start(_) => s.lock.Killing? && s.sessions == map[]
    case ProbeFailed => s.lock.Probing? && s.lock.h < |s.ctxs|
    case ProbeSucceeded => s.lock.Probing? && s.lock.h < |s.ctxs|
    case Activate => s.lock.Inserted? && s.lock.h < |s.ctxs|
    case DeleteEnter(_) => s.lock.Free?
    case ReapEnter(h) => s.lock.Free? && h < |s.ctxs| && s.ctxs[h].cause.Some? && !s.ctxs[h].reaped
    case Record => s.lock.Removed? && s.lock.h < |s.ctxs|
    case Cancel => s.lock.Recorded? && s.lock.h < |s.ctxs|
    case DrainSet => s.lock.Free?
    case SessionRead(_) => s.lock.Free?
    case SessionsRead => s.lock.Free?
    case Tick(_) => true
    case DeadlineFires(h) => h < |s.ctxs| && s.ctxs[h].cause.None? && s.ctxs[h].deadline <= s.now
    case LaunchExits(h, _) => h < |s.ctxs| && s.ctxs[h].launch.Running?
    case LaunchReturns(h) => h < |s.ctxs| && s.ctxs[h].launch.Measured?
  }

  // The result of a `takeSession` that has just taken the mutex.
  function Take(s: State, id: Id, reason: Reason): State {
    if id in s.sessions then
      s.(sessions := s.sessions - {id}, lock := Removed(s.sessions[id], reason))
    else
      s
  }

  function Measure(s: State, h: nat, outcome: Outcome): State
    requires h < |s.ctxs|
  {
    var c := s.ctxs[h];
    match outcome
    case NoTempDir =>
      s.(ctxs := s.ctxs[h := c.(launch := Measured, exit := Some(outcome))])
    case Exited(ok) =>
      var e := Classify(ok, c.cause);
      s.(ctxs := s.ctxs[h := c.(launch := Measured, exit := Some(outcome), execution := Some(e))],
         durations := s.durations + 1,
         finished := if e.Finished? then s.finished + 1 else s.finished,
         failed := if e.Failed? then s.failed + 1 else s.failed)
  }

  function Apply(s: State, step: Step): State
    requires Enabled(s, step)
  {
    match step
    case CreateEnter(ifFree) =>
      if s.draining || (ifFree && |s.sessions| > 0) then s
      else s.(lock := Killing(Call(ifFree, s.sessions.Keys)))
    case KillCancel(id) =>
      var h := s.sessions[id];
      s.(ctxs := s.ctxs[h := EndedBy(s.ctxs[h], Canceled, s.now)], lock := KillCancelled(s.lock.call, id, h))
    case KillRemove =>
      s.(sessions := s.sessions - {s.lock.id}, lock := KillRemoved(s.lock.call, s.lock.h))
    case KillRecord =>
      s.(gauge := 0, replaced := s.replaced + 1, lock := Killing(s.lock.call),
         ctxs := s.ctxs[s.lock.h := s.ctxs[s.lock.h].(termination := Some(Replaced))])
    case Start(id) =>
      s.(ctxs := s.ctxs + [Context(id, s.now, s.now + s.timeout, None, 0, false, Running, false, None, None, None)],
         wg := s.wg + 1, lock := Probing(s.lock.call, |s.ctxs|))
    case ProbeFailed =>
      s.(ctxs := s.ctxs[s.lock.h := EndedBy(s.ctxs[s.lock.h], Canceled, s.now)], lock := Free)
    case ProbeSucceeded =>
      s.(sessions := s.sessions[s.ctxs[s.lock.h].id := s.lock.h], lock := Inserted(s.lock.call, s.lock.h))
    case Activate =>
      s.(gauge := 1, created := s.created + 1, lock := Free,
         ctxs := s.ctxs[s.lock.h := s.ctxs[s.lock.h].(created := true)])
    case DeleteEnter(id) => Take(s, id, Deleted)
    case ReapEnter(h) =>
      Take(s.(ctxs := s.ctxs[h := s.ctxs[h].(reaped := true)]), s.ctxs[h].id, TimedOut)
    case Record =>
      var r := s.lock.reason;
      s.(gauge := 0, lock := Recorded(s.lock.h),
         deleted := if r.Deleted? then s.deleted + 1 else s.deleted,
         timedOut := if r.TimedOut? then s.timedOut + 1 else s.timedOut,
         replaced := if r.Replaced? then s.replaced + 1 else s.replaced,
         ctxs := s.ctxs[s.lock.h := s.ctxs[s.lock.h].(termination := Some(r))])
    case Cancel =>
      s.(ctxs := s.ctxs[s.lock.h := EndedBy(s.ctxs[s.lock.h], Canceled, s.now)], lock := Free)
    case DrainSet => s.(draining := true)
    case SessionRead(_) => s
    case SessionsRead => s
    case Tick(d) => s.(now := s.now + d)
    case DeadlineFires(h) => s.(ctxs := s.ctxs[h := EndedBy(s.ctxs[h], DeadlineExceeded, s.now)])
    case LaunchExits(h, outcome) => Measure(s, h, outcome)
    case LaunchReturns(h) => s.(ctxs := s.ctxs[h := s.ctxs[h].(launch := Returned)], wg := s.wg - 1)
  }

  // The answer a step settles, if it settles one.
  function Respond(s: State, step: Step): Option<Response>
    requires Enabled(s, step)
  {
    match step
    case CreateEnter(ifFree) =>
      if s.draining then Some(ErrDraining)
      else if ifFree && |s.sessions| > 0 then Some(ErrSessionExists)
      else None
    case ProbeFailed => Some(ErrProbe)
    case Activate => Some(Created(s.ctxs[s.lock.h].id))
    case DeleteEnter(id) => Some(Found(id in s.sessions))
    case ReapEnter(h) => Some(Reaped(s.ctxs[h].id in s.sessions))
    case DrainSet => Some(DrainDone)
    case SessionRead(id) => Some(Found(id in s.sessions))
    case SessionsRead => Some(Ids(s.sessions.Keys))
    case _ => None
  }

  /** The assumption on `randString`, which checks nothing itself: a new ID is not that of a context whose AfterFunc
      is still to come. IDs of contexts whose AfterFunc has run may come back. */
  predicate Fresh(s: State, step: Step) {
    step.Start? ==> forall h :: 0 <= h < |s.ctxs| && !s.ctxs[h].reaped ==> s.ctxs[h].id != step.id
  }

  // Any interleaving of any number of callers: a list of steps, each possible in the state the ones before it left.
  predicate Possible(s: State, steps: seq<Step>)
    decreases |steps|
  {
    steps == [] || (Enabled(s, steps[0]) && Possible(Apply(s, steps[0]), steps[1..]))
  }

  function Exec(s: State, steps: seq<Step>): State
    requires Possible(s, steps)
    decreases |steps|
  {
    if steps == [] then s else Exec(Apply(s, steps[0]), steps[1..])
  }

  // A run in which every new ID is fresh.
  predicate FreshRun(s: State, steps: seq<Step>)
    requires Possible(s, steps)
    decreases |steps|
  {
    steps == [] || (Fresh(s, steps[0]) && FreshRun(Apply(s, steps[0]), steps[1..]))
  }

  predicate Run(s: State, steps: seq<Step>) {
    Possible(s, steps) && FreshRun(s, steps)
  }
}
