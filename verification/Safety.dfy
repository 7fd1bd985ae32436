/** What callers and operators can rely on in every reachable state and over every run. */
module Safety {
  import opened Options
  import opened Protocol
  import opened Invariant
  import opened Sums

  ghost predicate Reaches(timeout: nat, steps: seq<Step>, s: State) {
    Run(Initial(timeout), steps) && Exec(Initial(timeout), steps) == s
  }

  // Some interleaving of any length, with fresh IDs, leads from the start to s.
  ghost predicate Reachable(s: State) {
    exists timeout: nat, steps :: Reaches(timeout, steps, s)
  }

  lemma ReachableInv(s: State)
    requires Reachable(s)
    ensures Inv(s)
  {
    var timeout: nat, steps :| Reaches(timeout, steps, s);
    InitialInv(timeout);
    RunInv(Initial(timeout), steps);
  }

  ghost predicate InMap(s: State, h: nat) {
    h < |s.ctxs| && s.ctxs[h].id in s.sessions && s.sessions[s.ctxs[h].id] == h
  }

  // The context that the holder of the mutex is setting up or tearing down.
  ghost predicate InHand(s: State, h: nat) {
    match s.lock
    case Probing(_, i) => i == h
    case Removed(i, _) => i == h
    case Recorded(i) => i == h
    case _ => false
  }

  /** At any moment at most one session is in the map and every context but the newest has ended; a context that has
      not ended is in the map or in the hands of the holder of the mutex; and whatever is in the map still has its
      AfterFunc to come, even if its deadline passed during the probe. */
  lemma OneSession(s: State)
    requires Reachable(s)
    ensures |s.sessions| <= 1
    ensures forall h :: 0 <= h < |s.ctxs| - 1 ==> s.ctxs[h].cause.Some?
    ensures forall h: nat :: h < |s.ctxs| ==> s.ctxs[h].cause.Some? || InMap(s, h) || InHand(s, h)
    ensures forall id :: id in s.sessions ==> InMap(s, s.sessions[id]) && s.ctxs[s.sessions[id]].id == id
    ensures forall h: nat :: InMap(s, h) ==> !s.ctxs[h].reaped && s.ctxs[h].termination.None?
  {
    ReachableInv(s);
    forall h | 0 <= h < |s.ctxs| - 1
      ensures s.ctxs[h].cause.Some?
    {
      assert Settled(s.ctxs[h]);
    }
    forall h: nat | h < |s.ctxs|
      ensures s.ctxs[h].cause.Some? || InMap(s, h) || InHand(s, h)
    {
      assert Settled(s.ctxs[h]) || h == |s.ctxs| - 1;
    }
  }

  /** With the mutex free: a session that is not in the map has been killed, the gauge is the number of sessions,
      every session counted in is in the map or counted out under one reason, and so is every single session. */
  lemma WhenTheMutexIsFree(s: State)
    requires Reachable(s) && s.lock.Free?
    ensures forall h: nat :: h < |s.ctxs| && !InMap(s, h) ==> s.ctxs[h].cause.Some?
    ensures s.gauge == |s.sessions|
    ensures s.created == |s.sessions| + s.deleted + s.timedOut + s.replaced
    ensures forall h: nat :: h < |s.ctxs| && s.ctxs[h].created ==> (InMap(s, h) <==> s.ctxs[h].termination.None?)
  {
    ReachableInv(s);
    OneSession(s);
    forall h: nat | h < |s.ctxs| && s.ctxs[h].created
      ensures InMap(s, h) <==> s.ctxs[h].termination.None?
    {
      assert Settled(s.ctxs[h]) || h == |s.ctxs| - 1;
    }
  }

  // The counters are the numbers of contexts that were counted, so no session is counted twice under any reason.
  lemma CountersAreExact(s: State)
    requires Reachable(s)
    ensures s.created == Sum(s.ctxs, CountedIn)
    ensures s.deleted == Sum(s.ctxs, OutAsDeleted)
    ensures s.timedOut == Sum(s.ctxs, OutAsTimedOut)
    ensures s.replaced == Sum(s.ctxs, OutAsReplaced)
  {
    ReachableInv(s);
  }

  /** The WaitGroup counts the launches that have not returned, and `Wait` can return exactly when all have. Every
      launch that got as far as running chromium is one duration and one of finished or failed; a nonzero exit in a
      session that its deadline ended is failed. */
  lemma LaunchAccounting(s: State)
    requires Reachable(s)
    ensures s.wg == Sum(s.ctxs, Unreturned) >= 0
    ensures s.wg == 0 <==> forall h :: 0 <= h < |s.ctxs| ==> s.ctxs[h].launch.Returned?
    ensures s.durations == s.finished + s.failed
    ensures s.finished == Sum(s.ctxs, RanFinished) && s.failed == Sum(s.ctxs, RanFailed)
    ensures forall h :: 0 <= h < |s.ctxs| ==>
              (s.ctxs[h].execution.Some? <==> s.ctxs[h].exit.Some? && s.ctxs[h].exit.value.Exited?)
    ensures forall h ::
              0 <= h < |s.ctxs| && s.ctxs[h].exit == Some(Exited(false)) && s.ctxs[h].cause == Some(DeadlineExceeded)
              ==> s.ctxs[h].execution == Some(Failed)
  {
    ReachableInv(s);
    SumZero(s.ctxs, Unreturned);
    forall h | 0 <= h < |s.ctxs|
      ensures Sound(s, s.ctxs[h])
    {
    }
  }

  // The launch has been counted: a nonzero exit as failed unless the session had been cancelled.
  ghost predicate Counted(s: State, h: nat, outcome: Outcome, s': State)
    requires h < |s.ctxs|
  {
    && |s'.ctxs| == |s.ctxs| && s'.ctxs[h].exit == Some(outcome) && s'.ctxs[h].launch == Measured
    && (forall i :: 0 <= i < |s.ctxs| && i != h ==> s'.ctxs[i] == s.ctxs[i])
    && match outcome
       case NoTempDir =>
         && s'.durations == s.durations && s'.finished == s.finished && s'.failed == s.failed
         && s'.ctxs[h].execution == s.ctxs[h].execution
       case Exited(ok) =>
         var failure := !ok && s.ctxs[h].cause != Some(Canceled);
         && s'.durations == s.durations + 1
         && s'.failed == s.failed + (if failure then 1 else 0)
         && s'.finished == s.finished + (if failure then 0 else 1)
         && s'.ctxs[h].execution == Some(if failure then Failed else Finished)
  }

  // So an exit is recorded and counted by its own status, and by what had ended the session when it came.
  lemma ExitIsCounted(s: State, h: nat, outcome: Outcome)
    requires Enabled(s, LaunchExits(h, outcome))
    ensures Counted(s, h, outcome, Apply(s, LaunchExits(h, outcome)))
  {
  }

  // ---- Permanence

  // c' is a later state of c: what has been settled about a context stays settled.
  ghost predicate Later(c: Context, c': Context) {
    && c'.id == c.id && c'.startedAt == c.startedAt && c'.deadline == c.deadline
    && (c.cause.Some? ==> c'.cause == c.cause && c'.endedAt == c.endedAt)
    && (c.reaped ==> c'.reaped)
    && (c.created ==> c'.created)
    && (c.termination.Some? ==> c'.termination == c.termination)
    && (c.exit.Some? ==> c'.exit == c.exit)
    && (c.execution.Some? ==> c'.execution == c.execution)
  }

  lemma MovesAreLater(s: State, step: Step, h: nat)
    requires Inv(s) && Enabled(s, step) && h < |s.ctxs|
    ensures h < |Apply(s, step).ctxs| && Later(s.ctxs[h], Apply(s, step).ctxs[h])
  {
    StepMoves(s, step, h);
    assert Sound(s, s.ctxs[h]);
    if Apply(s, step).ctxs[h].termination != s.ctxs[h].termination {
      StepTerminates(s, step, h);
    }
  }

  /** The first cause that ends a context is the one it keeps, a session keeps the one reason it was counted out
      under, and a launch the one execution state, whatever happens afterwards. */
  lemma {:induction false} FateIsPermanent(s: State, steps: seq<Step>, h: nat)
    requires Inv(s) && Run(s, steps) && h < |s.ctxs|
    ensures h < |Exec(s, steps).ctxs| && Later(s.ctxs[h], Exec(s, steps).ctxs[h])
    decreases |steps|
  {
    if steps != [] {
      StepInv(s, steps[0]);
      MovesAreLater(s, steps[0], h);
      FateIsPermanent(Apply(s, steps[0]), steps[1..], h);
    }
  }

  // The launch of a session that was cancelled first: it is still running, or was counted as finished.
  ghost predicate NotFailed(c: Context) {
    c.cause == Some(Canceled) && c.execution != Some(Failed)
  }

  /** A launch that is still running when its session is cancelled is never counted as failed, whatever its exit
      status: killing chromium on purpose is not a failure. */
  lemma {:induction false} CancelledNeverFails(s: State, steps: seq<Step>, h: nat)
    requires Inv(s) && Run(s, steps) && h < |s.ctxs| && NotFailed(s.ctxs[h])
    ensures h < |Exec(s, steps).ctxs| && NotFailed(Exec(s, steps).ctxs[h])
    decreases |steps|
  {
    if steps != [] {
      StepInv(s, steps[0]);
      StepMoves(s, steps[0], h);
      MovesAreLater(s, steps[0], h);
      CancelledNeverFails(Apply(s, steps[0]), steps[1..], h);
    }
  }

  // ---- Attribution

  ghost predicate Attributed(s: State) {
    forall h :: 0 <= h < |s.ctxs| && s.ctxs[h].termination == Some(TimedOut) ==>
      s.ctxs[h].cause == Some(DeadlineExceeded)
  }

  // A session counted as timed out was ended by its deadline, after the full session timeout.
  lemma TimeoutsAreDeadlines(s: State)
    requires Reachable(s)
    ensures Attributed(s)
    ensures forall h :: 0 <= h < |s.ctxs| && s.ctxs[h].termination == Some(TimedOut) ==>
              s.ctxs[h].startedAt + s.timeout <= s.ctxs[h].endedAt <= s.now
  {
    ReachableInv(s);
    forall h | 0 <= h < |s.ctxs| && s.ctxs[h].termination == Some(TimedOut)
      ensures s.ctxs[h].cause == Some(DeadlineExceeded) && s.ctxs[h].startedAt + s.timeout <= s.ctxs[h].endedAt <= s.now
    {
      assert Sound(s, s.ctxs[h]);
    }
  }

  lemma DeletedStep(s: State, step: Step)
    requires Enabled(s, step) && !step.DeleteEnter? && !(s.lock.Removed? && s.lock.reason.Deleted?)
    ensures var s' := Apply(s, step);
            s'.deleted == s.deleted && !(s'.lock.Removed? && s'.lock.reason.Deleted?)
  {
  }

  lemma TimedOutStep(s: State, step: Step)
    requires Enabled(s, step) && !step.ReapEnter? && !(s.lock.Removed? && s.lock.reason.TimedOut?)
    ensures var s' := Apply(s, step);
            s'.timedOut == s.timedOut && !(s'.lock.Removed? && s'.lock.reason.TimedOut?)
  {
  }

  // Only calls of Delete move the deleted counter.
  lemma {:induction false} DeletedNeedsDelete(s: State, steps: seq<Step>)
    requires Possible(s, steps) && !(s.lock.Removed? && s.lock.reason.Deleted?)
    requires forall step :: step in steps ==> !step.DeleteEnter?
    ensures Exec(s, steps).deleted == s.deleted
    decreases |steps|
  {
    if steps != [] {
      assert steps[0] in steps;
      DeletedStep(s, steps[0]);
      DeletedNeedsDelete(Apply(s, steps[0]), steps[1..]);
    }
  }

  // Only AfterFuncs move the timeout counter.
  lemma {:induction false} TimedOutNeedsReaper(s: State, steps: seq<Step>)
    requires Possible(s, steps) && !(s.lock.Removed? && s.lock.reason.TimedOut?)
    requires forall step :: step in steps ==> !step.ReapEnter?
    ensures Exec(s, steps).timedOut == s.timedOut
    decreases |steps|
  {
    if steps != [] {
      assert steps[0] in steps;
      TimedOutStep(s, steps[0]);
      TimedOutNeedsReaper(Apply(s, steps[0]), steps[1..]);
    }
  }

  // A session is counted as replaced only inside a plain Create, as deleted or timed out only inside takeSession.
  lemma ReplacedOnlyByCreate(s: State, step: Step, h: nat)
    requires Reachable(s) && Enabled(s, step) && h < |s.ctxs|
    requires s.ctxs[h].termination != Apply(s, step).ctxs[h].termination
    ensures var r := Apply(s, step).ctxs[h].termination;
            && (r == Some(Replaced) ==> s.lock.KillRemoved? && s.lock.h == h && !s.lock.call.ifFree)
            && (r != Some(Replaced) ==> s.lock.Removed? && s.lock.h == h && r == Some(s.lock.reason))
  {
    ReachableInv(s);
    TerminatingSteps(s, step, h);
  }

  /** The AfterFunc of a session that has been counted out runs as well, and finds nothing: it marks itself as run
      and changes nothing else. */
  lemma LateReaperChangesNothing(s: State, h: nat)
    requires Reachable(s) && Enabled(s, ReapEnter(h)) && s.ctxs[h].termination.Some?
    ensures Respond(s, ReapEnter(h)) == Some(Reaped(false))
    ensures Apply(s, ReapEnter(h)) == s.(ctxs := s.ctxs[h := s.ctxs[h].(reaped := true)])
  {
    ReachableInv(s);
    if s.ctxs[h].id in s.sessions {
      ReaperFindsOwn(s, h);
    }
  }

  // ---- What the freshness of IDs is needed for

  // The stale AfterFunc of h removes the new session that got the same ID.
  function Misfire(h: nat): seq<Step> {
    [ProbeSucceeded, Activate, ReapEnter(h), Record, Cancel]
  }

  lemma LastStep(s: State, step: Step)
    requires Enabled(s, step) && Fresh(s, step)
    ensures Run(s, [step]) && Exec(s, [step]) == Apply(s, step)
  {
  }

  lemma FirstStep(s: State, steps: seq<Step>)
    requires steps != [] && Enabled(s, steps[0]) && Fresh(s, steps[0]) && Run(Apply(s, steps[0]), steps[1..])
    ensures Run(s, steps) && Exec(s, steps) == Exec(Apply(s, steps[0]), steps[1..])
  {
  }

  lemma MisfireOnTheWay(s: State, n: nat, h: nat)
    requires s.lock.Probing? && s.lock.h == n == |s.ctxs| - 1 && s.sessions == map[]
    requires h < n && s.ctxs[h].id == s.ctxs[n].id && s.ctxs[h].cause.Some? && !s.ctxs[h].reaped
    requires s.ctxs[n].cause.None?
    ensures Run(s, Misfire(h)) && Misfired(Exec(s, Misfire(h)), n)
  {
    var s1 := Apply(s, ProbeSucceeded);
    var s2 := Apply(s1, Activate);
    var m := Misfire(h);
    assert m[1..] == [Activate] + MisfireTail(h) && m[1..][1..] == MisfireTail(h);
    MisfireAtTheEnd(s2, n, h);
    FirstStep(s1, m[1..]);
    FirstStep(s, m);
  }

  function MisfireTail(h: nat): seq<Step> {
    [ReapEnter(h), Record, Cancel]
  }

  // The newest context was cancelled, by an AfterFunc that counted its session as timed out.
  ghost predicate Misfired(s: State, n: nat) {
    n < |s.ctxs| && s.ctxs[n].termination == Some(TimedOut) && s.ctxs[n].cause == Some(Canceled)
  }

  lemma MisfireAtTheEnd(s: State, n: nat, h: nat)
    requires s.lock.Free? && h < n == |s.ctxs| - 1 && MapHolds(s, n)
    requires s.ctxs[h].id == s.ctxs[n].id && s.ctxs[h].cause.Some? && !s.ctxs[h].reaped
    requires s.ctxs[n].cause.None?
    ensures Run(s, MisfireTail(h)) && Misfired(Exec(s, MisfireTail(h)), n)
  {
    var s1 := Apply(s, ReapEnter(h));
    var s2 := Apply(s1, Record);
    var m := MisfireTail(h);
    assert m[1..] == [Record, Cancel] && m[1..][1..] == [Cancel];
    LastStep(s2, Cancel);
    FirstStep(s1, m[1..]);
    FirstStep(s, m);
  }

  /** Terminations are attributed correctly after a new session starts, however the run goes on, if and only if its
      ID is not that of a context whose AfterFunc is still to come. */
  lemma FreshnessIsExact(s: State, id: Id)
    requires Reachable(s) && Enabled(s, Start(id))
    ensures Fresh(s, Start(id)) <==>
            forall rest {:trigger Run(Apply(s, Start(id)), rest)} ::
              Run(Apply(s, Start(id)), rest) ==> Attributed(Exec(Apply(s, Start(id)), rest))
  {
    ReachableInv(s);
    var s1 := Apply(s, Start(id));
    if Fresh(s, Start(id)) {
      StepInv(s, Start(id));
      forall rest | Run(s1, rest)
        ensures Attributed(Exec(s1, rest))
      {
        RunInv(s1, rest);
        var s2 := Exec(s1, rest);
        forall h | 0 <= h < |s2.ctxs| && s2.ctxs[h].termination == Some(TimedOut)
          ensures s2.ctxs[h].cause == Some(DeadlineExceeded)
        {
          assert Sound(s2, s2.ctxs[h]);
        }
      }
    } else {
      var h :| 0 <= h < |s.ctxs| && !s.ctxs[h].reaped && s.ctxs[h].id == id;
      assert Settled(s.ctxs[h]);
      MisfireOnTheWay(s1, |s.ctxs|, h);
      var s2 := Exec(s1, Misfire(h));
      assert Misfired(s2, |s.ctxs|) && !Attributed(s2);
    }
  }

  // ---- Exclusivity

  // Of two sessions that were ever created, the earlier one has been terminated, and for one reason.
  lemma EarlierSessionIsTerminated(s: State, a: nat, b: nat)
    requires Reachable(s) && a < b < |s.ctxs| && s.ctxs[a].created && s.ctxs[b].created
    ensures s.ctxs[a].termination.Some? && s.ctxs[a].cause.Some? && !InMap(s, a)
  {
    ReachableInv(s);
    OneSession(s);
    assert Settled(s.ctxs[a]);
  }

  // The holder of the mutex, if it is a create, is a CreateIfFree.
  ghost predicate OnlyAcquiring(s: State) {
    match s.lock
    case Killing(call) => call.ifFree
    case KillCancelled(call, _, _) => call.ifFree
    case KillRemoved(call, _) => call.ifFree
    case Probing(call, _) => call.ifFree
    case Inserted(call, _) => call.ifFree
    case _ => true
  }

  lemma AcquiringStep(s: State, step: Step)
    requires LockInv(s) && Enabled(s, step) && OnlyAcquiring(s) && step != CreateEnter(false)
    ensures OnlyAcquiring(Apply(s, step)) && Apply(s, step).replaced == s.replaced
  {
  }

  // CreateIfFree never terminates a session: without a plain Create, the replaced counter does not move.
  lemma {:induction false} AcquireNeverReplaces(s: State, steps: seq<Step>)
    requires Inv(s) && Run(s, steps) && OnlyAcquiring(s)
    requires CreateEnter(false) !in steps
    ensures Exec(s, steps).replaced == s.replaced
    decreases |steps|
  {
    if steps != [] {
      assert steps[0] in steps;
      StepInv(s, steps[0]);
      AcquiringStep(s, steps[0]);
      AcquireNeverReplaces(Apply(s, steps[0]), steps[1..]);
    }
  }

  // ---- Draining

  lemma DrainingStep(s: State, step: Step)
    requires LockInv(s) && Enabled(s, step) && s.draining
    ensures Apply(s, step).draining && |Apply(s, step).ctxs| == |s.ctxs|
    ensures Apply(s, step).wg <= s.wg && Apply(s, step).sessions.Keys <= s.sessions.Keys
    ensures step.CreateEnter? ==> Respond(s, step) == Some(ErrDraining) && Apply(s, step) == s
  {
  }

  /** After Drain, over any run: no context is made, the WaitGroup only goes down, no session enters the map. */
  lemma {:induction false} DrainingOnlyShrinks(s: State, steps: seq<Step>)
    requires Inv(s) && Run(s, steps) && s.draining
    ensures var s' := Exec(s, steps);
            s'.draining && |s'.ctxs| == |s.ctxs| && s'.wg <= s.wg && s'.sessions.Keys <= s.sessions.Keys
    decreases |steps|
  {
    if steps != [] {
      StepInv(s, steps[0]);
      DrainingStep(s, steps[0]);
      DrainingOnlyShrinks(Apply(s, steps[0]), steps[1..]);
    }
  }

  // ---- What the WaitGroup does not count

  // A session that has been counted in and not out.
  predicate IsOpen(c: Context) { c.created && c.termination.None? }

  function OpenOne(c: Context): nat { if IsOpen(c) then 1 else 0 }

  // A launch that runs on without an open session: of a probe that failed, or of a session taken out of the map.
  function Lingering(c: Context): nat { if !IsOpen(c) && !c.launch.Returned? then 1 else 0 }

  // An open session whose launch has returned: chromium exited by itself.
  function Deserted(c: Context): nat { if IsOpen(c) && c.launch.Returned? then 1 else 0 }

  lemma {:induction false} OpenAreTheUncounted(cs: seq<Context>)
    requires forall h :: 0 <= h < |cs| && cs[h].termination.Some? ==> cs[h].created
    ensures Sum(cs, CountedIn)
            == Sum(cs, OpenOne) + Sum(cs, OutAsDeleted) + Sum(cs, OutAsTimedOut) + Sum(cs, OutAsReplaced)
  {
    if cs != [] {
      var n := |cs| - 1;
      assert forall h :: 0 <= h < n ==> cs[..n][h] == cs[h];
      OpenAreTheUncounted(cs[..n]);
      if cs[n].termination.Some? {
        assert cs[n].created && (cs[n].termination.value.Deleted? || !cs[n].termination.value.Deleted?);
      }
    }
  }

  lemma {:induction false} RunningOrDeserted(cs: seq<Context>)
    ensures Sum(cs, Unreturned) + Sum(cs, Deserted) == Sum(cs, OpenOne) + Sum(cs, Lingering)
  {
    if cs != [] {
      RunningOrDeserted(cs[..|cs| - 1]);
    }
  }

  /** With the mutex free, the WaitGroup is the number of open sessions exactly when as many launches linger without an
      open session as open sessions are deserted by their launch; and when `Wait` returns, no session is open exactly
      when none is deserted. */
  lemma WaitGroupAgainstSessions(s: State)
    requires Reachable(s) && s.lock.Free?
    ensures forall h: nat :: h < |s.ctxs| ==> (InMap(s, h) <==> IsOpen(s.ctxs[h]))
    ensures s.wg + Sum(s.ctxs, Deserted) == |s.sessions| + Sum(s.ctxs, Lingering)
    ensures s.wg == |s.sessions| <==> Sum(s.ctxs, Lingering) == Sum(s.ctxs, Deserted)
    ensures s.wg == 0 ==> (s.sessions == map[] <==> Sum(s.ctxs, Deserted) == 0)
  {
    ReachableInv(s);
    WhenTheMutexIsFree(s);
    forall h: nat | h < |s.ctxs|
      ensures Sound(s, s.ctxs[h]) && (InMap(s, h) <==> IsOpen(s.ctxs[h]))
    {
      assert InMap(s, h) ==> Occupied(s) && h == |s.ctxs| - 1;
    }
    OpenAreTheUncounted(s.ctxs);
    RunningOrDeserted(s.ctxs);
    SumZero(s.ctxs, Unreturned);
    SumZero(s.ctxs, Lingering);
  }

  // A failed create, and another one before the first browser is gone.
  function TwoCreates(): seq<Step> {
    [CreateEnter(false), Start("a"), ProbeFailed, CreateEnter(false), Start("b")]
  }

  /** A context that has ended is not a launch that has returned: two launches can be running at once, so the
      WaitGroup can be ahead of the number of sessions, which never exceeds one. */
  lemma LaunchesCanOverlap(timeout: nat)
    ensures Run(Initial(timeout), TwoCreates())
    ensures var s := Exec(Initial(timeout), TwoCreates()); s.wg == 2 && s.sessions == map[]
  {
  }

  // A session whose browser exits by itself.
  function Desertion(): seq<Step> {
    [CreateEnter(true), Start("a"), ProbeSucceeded, Activate, LaunchExits(0, Exited(false)), LaunchReturns(0)]
  }

  lemma BrowserExits(s: State)
    requires |s.ctxs| == 1 && IsOpen(s.ctxs[0]) && s.ctxs[0].launch.Running?
    ensures Run(s, Desertion()[4..])
    ensures var s' := Exec(s, Desertion()[4..]);
            s'.lock == s.lock && s'.wg == s.wg - 1 && s'.sessions == s.sessions && Sum(s'.ctxs, Deserted) == 1
  {
    var s1 := Apply(s, LaunchExits(0, Exited(false)));
    assert Desertion()[4..] == [LaunchExits(0, Exited(false)), LaunchReturns(0)];
    LastStep(s1, LaunchReturns(0));
    FirstStep(s, Desertion()[4..]);
  }

  // And it can be behind: `Wait` can return with a session open.
  lemma WaitCanReturnEarly(timeout: nat)
    ensures Run(Initial(timeout), Desertion())
    ensures var s := Exec(Initial(timeout), Desertion());
            s.lock.Free? && s.wg == 0 && s.sessions == map["a" := 0] && Sum(s.ctxs, Deserted) == 1
  {
    var o := Desertion();
    var s1 := Apply(Initial(timeout), o[0]);
    var s2 := Apply(s1, o[1]);
    var s3 := Apply(s2, o[2]);
    BrowserExits(Apply(s3, o[3]));
    FirstStep(s3, o[3..]);
    FirstStep(s2, o[2..]);
    FirstStep(s1, o[1..]);
    FirstStep(Initial(timeout), o);
  }
}
