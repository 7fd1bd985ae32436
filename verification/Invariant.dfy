/** What every interleaving keeps. The whole argument turns on one fact about the newest context: all older ones
    have ended, are out of the map, and have been counted out exactly once if they were counted in. */
module Invariant {
  import opened Options
  import opened Protocol
  import opened Sums

  // ---- Facts about one context, whoever holds the mutex

  ghost predicate Sound(s: State, c: Context) {
    && c.startedAt <= s.now && c.deadline == c.startedAt + s.timeout
    && (c.cause.Some? ==> c.endedAt <= s.now)
    && (c.cause == Some(DeadlineExceeded) ==> c.deadline <= c.endedAt)
    && (c.reaped ==> c.cause.Some?)
    && (c.termination.Some? ==> c.created)
    && (c.termination == Some(TimedOut) ==> c.cause == Some(DeadlineExceeded))
    && (c.launch.Running? <==> c.exit.None?)
    && (c.execution.Some? <==> c.exit.Some? && c.exit.value.Exited?)
    && (c.execution == Some(Failed) ==> c.exit == Some(Exited(false)))
    && (c.exit == Some(Exited(false)) && c.cause != Some(Canceled) ==> c.execution == Some(Failed))
  }

  ghost predicate AllSound(s: State) {
    forall h :: 0 <= h < |s.ctxs| ==> Sound(s, s.ctxs[h])
  }

  // The AfterFuncs still to come belong to different IDs.
  ghost predicate DistinctIds(s: State) {
    forall a, b :: 0 <= a < b < |s.ctxs| && !s.ctxs[a].reaped && !s.ctxs[b].reaped ==> s.ctxs[a].id != s.ctxs[b].id
  }

  // ---- The map, the mutex and the newest context

  // The context has ended, and its session has been counted out if it was counted in.
  ghost predicate Settled(c: Context) {
    c.cause.Some? && (c.created <==> c.termination.Some?)
  }

  ghost predicate SettledBelow(s: State, n: int) {
    forall h :: 0 <= h < n && h < |s.ctxs| ==> Settled(s.ctxs[h])
  }

  // h is the newest context, and the older ones are settled.
  ghost predicate Newest(s: State, h: nat) {
    h == |s.ctxs| - 1 && SettledBelow(s, h)
  }

  ghost predicate MapHolds(s: State, h: nat) {
    h < |s.ctxs| && s.sessions == map[s.ctxs[h].id := h]
  }

  // A session that clients can use or that is waiting for its AfterFunc.
  ghost predicate Live(c: Context) {
    c.created && c.termination.None? && !c.reaped && c.cause != Some(Canceled)
  }

  ghost predicate Vacant(s: State) {
    s.sessions == map[] && SettledBelow(s, |s.ctxs|)
  }

  ghost predicate Occupied(s: State) {
    var h := |s.ctxs| - 1;
    h >= 0 && Newest(s, h) && MapHolds(s, h) && Live(s.ctxs[h])
  }

  // Past the guards of create: not draining, and the map was empty if the call was CreateIfFree.
  ghost predicate Admitted(s: State, call: Call) {
    !s.draining && (call.ifFree ==> call.before == {}) && |call.before| <= 1
  }

  ghost predicate LockInv(s: State) {
    match s.lock
    case Free => Vacant(s) || Occupied(s)
    case Killing(call) =>
      && Admitted(s, call)
      && (Vacant(s) || (Occupied(s) && call.before == s.sessions.Keys))
    case KillCancelled(call, id, h) =>
      && Admitted(s, call) && call.before == s.sessions.Keys
      && Newest(s, h) && MapHolds(s, h) && s.ctxs[h].id == id
      && s.ctxs[h].created && s.ctxs[h].termination.None? && s.ctxs[h].cause.Some? && !s.ctxs[h].reaped
    case KillRemoved(call, h) =>
      && Admitted(s, call) && call.before != {}
      && Newest(s, h) && s.sessions == map[]
      && s.ctxs[h].created && s.ctxs[h].termination.None? && s.ctxs[h].cause.Some?
    case Probing(call, h) =>
      && Admitted(s, call)
      && Newest(s, h) && s.sessions == map[]
      && !s.ctxs[h].created && s.ctxs[h].termination.None? && !s.ctxs[h].reaped
      && s.ctxs[h].cause != Some(Canceled)
    case Inserted(call, h) =>
      && Admitted(s, call)
      && Newest(s, h) && MapHolds(s, h)
      && !s.ctxs[h].created && s.ctxs[h].termination.None? && !s.ctxs[h].reaped
      && s.ctxs[h].cause != Some(Canceled)
    case Removed(h, reason) =>
      && Newest(s, h) && s.sessions == map[]
      && s.ctxs[h].created && s.ctxs[h].termination.None? && !reason.Replaced?
      && (reason.TimedOut? ==> s.ctxs[h].cause == Some(DeadlineExceeded))
    case Recorded(h) =>
      && Newest(s, h) && s.sessions == map[]
      && s.ctxs[h].created && s.ctxs[h].termination.Some?
  }

  // ---- The WaitGroup and the metrics

  function Unreturned(c: Context): nat { if c.launch.Returned? then 0 else 1 }
  function CountedIn(c: Context): nat { if c.created then 1 else 0 }
  function OutAsDeleted(c: Context): nat { if c.termination == Some(Deleted) then 1 else 0 }
  function OutAsTimedOut(c: Context): nat { if c.termination == Some(TimedOut) then 1 else 0 }
  function OutAsReplaced(c: Context): nat { if c.termination == Some(Replaced) then 1 else 0 }
  function RanFinished(c: Context): nat { if c.execution == Some(Finished) then 1 else 0 }
  function RanFailed(c: Context): nat { if c.execution == Some(Failed) then 1 else 0 }

  ghost predicate CountInv(s: State) {
    && s.wg == Sum(s.ctxs, Unreturned)
    && s.created == Sum(s.ctxs, CountedIn)
    && s.deleted == Sum(s.ctxs, OutAsDeleted)
    && s.timedOut == Sum(s.ctxs, OutAsTimedOut)
    && s.replaced == Sum(s.ctxs, OutAsReplaced)
    && s.finished == Sum(s.ctxs, RanFinished)
    && s.failed == Sum(s.ctxs, RanFailed)
    && s.durations == s.finished + s.failed
  }

  // Sessions in the map that the metrics do not know yet, and sessions they know that have left the map.
  function Ahead(s: State): int { if s.lock.Inserted? then 1 else 0 }
  function Behind(s: State): int { if s.lock.Removed? || s.lock.KillRemoved? then 1 else 0 }

  ghost predicate BalanceInv(s: State) {
    && s.created + Ahead(s) == |s.sessions| + s.deleted + s.timedOut + s.replaced + Behind(s)
    && s.gauge + Ahead(s) == |s.sessions| + Behind(s)
  }

  ghost predicate Inv(s: State) {
    AllSound(s) && DistinctIds(s) && LockInv(s) && CountInv(s) && BalanceInv(s)
  }

  // ---- Every step keeps it

  lemma InitialInv(timeout: nat)
    ensures Inv(Initial(timeout)) && Vacant(Initial(timeout))
  {
  }

  // What one step can do to one context. A cause, once set, stays.
  ghost predicate Moves(now: nat, c: Context, c': Context) {
    || c' == c
    || (c.cause.None? && c' == c.(cause := Some(Canceled), endedAt := now))
    || (c.cause.None? && c.deadline <= now && c' == c.(cause := Some(DeadlineExceeded), endedAt := now))
    || (c.cause.Some? && !c.reaped && c' == c.(reaped := true))
    || c' == c.(created := true)
    || (c'.termination.Some? && c' == c.(termination := c'.termination))
    || (c.launch.Running? && c' == c.(launch := Measured, exit := Some(NoTempDir)))
    || (c.launch.Running? && exists ok :: c' == Ran(c, ok))
    || (c.launch.Measured? && c' == c.(launch := Returned))
  }

  function Ran(c: Context, ok: bool): Context {
    c.(launch := Measured, exit := Some(Exited(ok)), execution := Some(Classify(ok, c.cause)))
  }

  lemma StepMoves(s: State, step: Step, h: nat)
    requires Enabled(s, step) && h < |s.ctxs|
    ensures h < |Apply(s, step).ctxs| && Moves(s.now, s.ctxs[h], Apply(s, step).ctxs[h])
  {
    match step
    case LaunchExits(i, outcome) =>
      if i == h && outcome.Exited? {
        assert Apply(s, step).ctxs[h] == Ran(s.ctxs[h], outcome.ok);
      }
    case _ =>
  }

  lemma MovesKeepSound(s: State, s': State, c: Context, c': Context)
    requires Sound(s, c) && Moves(s.now, c, c') && s.now <= s'.now && s.timeout == s'.timeout
    requires c'.termination != c.termination ==>
               c.created && (c'.termination == Some(TimedOut) ==> c.cause == Some(DeadlineExceeded))
    ensures Sound(s', c')
  {
  }

  lemma StepFrame(s: State, step: Step)
    requires Enabled(s, step)
    ensures Apply(s, step).timeout == s.timeout && s.now <= Apply(s, step).now
    ensures |Apply(s, step).ctxs| == |s.ctxs| + if step.Start? then 1 else 0
  {
  }

  lemma TerminatingSteps(s: State, step: Step, h: nat)
    requires Enabled(s, step) && h < |s.ctxs|
    requires s.ctxs[h].termination != Apply(s, step).ctxs[h].termination
    ensures var r := Apply(s, step).ctxs[h].termination;
            || (step.KillRecord? && s.lock.h == h && r == Some(Replaced))
            || (step.Record? && s.lock.h == h && r == Some(s.lock.reason))
  {
  }

  // Only sessions that were counted in are counted out, and as timed out only if their deadline ended them.
  lemma StepTerminates(s: State, step: Step, h: nat)
    requires LockInv(s) && Enabled(s, step) && h < |s.ctxs|
    requires Apply(s, step).ctxs[h].termination != s.ctxs[h].termination
    ensures s.ctxs[h].created && s.ctxs[h].termination.None?
    ensures Apply(s, step).ctxs[h].termination == Some(TimedOut) ==> s.ctxs[h].cause == Some(DeadlineExceeded)
  {
    TerminatingSteps(s, step, h);
  }

  lemma StepSound(s: State, step: Step)
    requires AllSound(s) && LockInv(s) && Enabled(s, step)
    ensures AllSound(Apply(s, step))
  {
    var s' := Apply(s, step);
    StepFrame(s, step);
    forall h | 0 <= h < |s'.ctxs|
      ensures Sound(s', s'.ctxs[h])
    {
      if h < |s.ctxs| {
        StepMoves(s, step, h);
        if s'.ctxs[h].termination != s.ctxs[h].termination {
          StepTerminates(s, step, h);
        }
        MovesKeepSound(s, s', s.ctxs[h], s'.ctxs[h]);
      } else {
        assert step.Start?;
      }
    }
  }

  lemma StepDistinct(s: State, step: Step)
    requires DistinctIds(s) && Enabled(s, step) && Fresh(s, step)
    ensures DistinctIds(Apply(s, step))
  {
    var s' := Apply(s, step);
    StepFrame(s, step);
    forall a, b | 0 <= a < b < |s'.ctxs| && !s'.ctxs[a].reaped && !s'.ctxs[b].reaped
      ensures s'.ctxs[a].id != s'.ctxs[b].id
    {
      StepMoves(s, step, a);
      if b < |s.ctxs| {
        StepMoves(s, step, b);
      } else {
        assert step.Start? && s'.ctxs[b].id == step.id;
      }
    }
  }

  // The AfterFunc of a context finds its own session or none.
  lemma ReaperFindsOwn(s: State, h: nat)
    requires DistinctIds(s) && LockInv(s) && Enabled(s, ReapEnter(h)) && s.ctxs[h].id in s.sessions
    ensures h == |s.ctxs| - 1 && s.ctxs[h].cause == Some(DeadlineExceeded) && Occupied(s)
  {
    var n := |s.ctxs| - 1;
    assert Occupied(s);
    assert s.ctxs[n].id == s.ctxs[h].id && !s.ctxs[n].reaped;
    assert h == n;
    assert s.ctxs[h].cause.value.DeadlineExceeded?;
  }

  // A context that is not written to by the holder of the mutex: its deadline may fire, its launch may go on.
  ghost predicate Drifts(c: Context, c': Context) {
    && c'.id == c.id && c'.created == c.created && c'.termination == c.termination && c'.reaped == c.reaped
    && (c'.cause == c.cause || (c.cause.None? && c'.cause == Some(DeadlineExceeded)))
  }

  lemma DriftKeepsLock(s: State, s': State)
    requires LockInv(s) && s'.lock == s.lock && s'.sessions == s.sessions && |s'.ctxs| == |s.ctxs|
    requires s'.draining == s.draining || s.lock.Free?
    requires forall h :: 0 <= h < |s.ctxs| ==> Drifts(s.ctxs[h], s'.ctxs[h])
    ensures LockInv(s')
  {
    forall h | 0 <= h < |s.ctxs| && Settled(s.ctxs[h])
      ensures Settled(s'.ctxs[h])
    {
      assert Drifts(s.ctxs[h], s'.ctxs[h]);
    }
    if |s.ctxs| > 0 {
      assert Drifts(s.ctxs[|s.ctxs| - 1], s'.ctxs[|s.ctxs| - 1]);
    }
  }

  lemma ReapKeepsLock(s: State, h: nat)
    requires DistinctIds(s) && LockInv(s) && Enabled(s, ReapEnter(h))
    ensures LockInv(Apply(s, ReapEnter(h)))
  {
    var s' := Apply(s, ReapEnter(h));
    if s.ctxs[h].id in s.sessions {
      ReaperFindsOwn(s, h);
      assert s.sessions - {s.ctxs[h].id} == map[];
    } else if Occupied(s) {
      assert h != |s.ctxs| - 1;
    }
  }

  lemma KillKeepsLock(s: State, step: Step)
    requires LockInv(s) && Enabled(s, step)
    requires step.KillCancel? || step.KillRemove? || step.KillRecord?
    ensures LockInv(Apply(s, step))
  {
  }

  lemma ProbeKeepsLock(s: State, step: Step)
    requires LockInv(s) && Enabled(s, step)
    requires step.Start? || step.ProbeFailed? || step.ProbeSucceeded? || step.Activate?
    ensures LockInv(Apply(s, step))
  {
  }

  lemma TeardownKeepsLock(s: State, step: Step)
    requires LockInv(s) && Enabled(s, step)
    requires step.Record? || step.Cancel?
    ensures LockInv(Apply(s, step))
  {
  }

  lemma EnterKeepsLock(s: State, step: Step)
    requires LockInv(s) && Enabled(s, step)
    requires step.CreateEnter? || step.DeleteEnter?
    ensures LockInv(Apply(s, step))
  {
  }

  ghost predicate Outside(step: Step) {
    || step.DrainSet? || step.SessionRead? || step.SessionsRead?
    || step.Tick? || step.DeadlineFires? || step.LaunchExits? || step.LaunchReturns?
  }

  lemma OutsideDrifts(s: State, step: Step)
    requires Enabled(s, step) && Outside(step)
    ensures var s' := Apply(s, step);
            && s'.lock == s.lock && s'.sessions == s.sessions && |s'.ctxs| == |s.ctxs|
            && (s'.draining == s.draining || s.lock.Free?)
            && forall h :: 0 <= h < |s.ctxs| ==> Drifts(s.ctxs[h], s'.ctxs[h])
  {
  }

  lemma StepLock(s: State, step: Step)
    requires LockInv(s) && DistinctIds(s) && Enabled(s, step)
    ensures LockInv(Apply(s, step))
  {
    if Outside(step) {
      OutsideDrifts(s, step);
      DriftKeepsLock(s, Apply(s, step));
    } else {
      match step
      case ReapEnter(h) => ReapKeepsLock(s, h);
      case CreateEnter(_) => EnterKeepsLock(s, step);
      case DeleteEnter(_) => EnterKeepsLock(s, step);
      case KillCancel(_) => KillKeepsLock(s, step);
      case KillRemove => KillKeepsLock(s, step);
      case KillRecord => KillKeepsLock(s, step);
      case Record => TeardownKeepsLock(s, step);
      case Cancel => TeardownKeepsLock(s, step);
      case _ => ProbeKeepsLock(s, step);
    }
  }

  // The counters of s' differ from those of s as the totals do when one context changes from c to c'.
  ghost predicate CountsMove(s: State, s': State, c: Context, c': Context) {
    && s'.wg == s.wg - Unreturned(c) + Unreturned(c')
    && s'.created == s.created - CountedIn(c) + CountedIn(c')
    && s'.deleted == s.deleted - OutAsDeleted(c) + OutAsDeleted(c')
    && s'.timedOut == s.timedOut - OutAsTimedOut(c) + OutAsTimedOut(c')
    && s'.replaced == s.replaced - OutAsReplaced(c) + OutAsReplaced(c')
    && s'.finished == s.finished - RanFinished(c) + RanFinished(c')
    && s'.failed == s.failed - RanFailed(c) + RanFailed(c')
    && s'.durations == s'.finished + s'.failed
  }

  lemma CountsFollow(s: State, s': State, h: nat)
    requires CountInv(s) && h < |s.ctxs| && |s'.ctxs| == |s.ctxs|
    requires s'.ctxs == s.ctxs[h := s'.ctxs[h]] && CountsMove(s, s', s.ctxs[h], s'.ctxs[h])
    ensures CountInv(s')
  {
    SumUpdate(s.ctxs, h, s'.ctxs[h], Unreturned);
    SumUpdate(s.ctxs, h, s'.ctxs[h], CountedIn);
    SumUpdate(s.ctxs, h, s'.ctxs[h], OutAsDeleted);
    SumUpdate(s.ctxs, h, s'.ctxs[h], OutAsTimedOut);
    SumUpdate(s.ctxs, h, s'.ctxs[h], OutAsReplaced);
    SumUpdate(s.ctxs, h, s'.ctxs[h], RanFinished);
    SumUpdate(s.ctxs, h, s'.ctxs[h], RanFailed);
  }

  // A new context that nothing has happened to yet adds one running launch and nothing else.
  lemma CountsOfAppend(s: State, s': State, c: Context)
    requires CountInv(s) && s'.ctxs == s.ctxs + [c] && s'.wg == s.wg + 1
    requires Unreturned(c) == 1 && CountedIn(c) == OutAsDeleted(c) == OutAsTimedOut(c) == OutAsReplaced(c) == 0
    requires RanFinished(c) == RanFailed(c) == 0
    requires s'.created == s.created && s'.deleted == s.deleted && s'.timedOut == s.timedOut
    requires s'.replaced == s.replaced && s'.finished == s.finished && s'.failed == s.failed
    requires s'.durations == s.durations
    ensures CountInv(s')
  {
    SumAppend(s.ctxs, c, Unreturned);
    SumAppend(s.ctxs, c, CountedIn);
    SumAppend(s.ctxs, c, OutAsDeleted);
    SumAppend(s.ctxs, c, OutAsTimedOut);
    SumAppend(s.ctxs, c, OutAsReplaced);
    SumAppend(s.ctxs, c, RanFinished);
    SumAppend(s.ctxs, c, RanFailed);
  }

  lemma StartKeepsCount(s: State, id: Id)
    requires CountInv(s) && Enabled(s, Start(id))
    ensures CountInv(Apply(s, Start(id)))
  {
    var s' := Apply(s, Start(id));
    CountsOfAppend(s, s', s'.ctxs[|s.ctxs|]);
  }

  // The context a step writes to, if there is one.
  function Touched(s: State, step: Step): Option<nat>
    requires Enabled(s, step)
  {
    match step
    case KillCancel(id) => Some(s.sessions[id])
    case KillRecord => Some(s.lock.h)
    case ProbeFailed => Some(s.lock.h)
    case Activate => Some(s.lock.h)
    case ReapEnter(h) => Some(h)
    case Record => Some(s.lock.h)
    case Cancel => Some(s.lock.h)
    case DeadlineFires(h) => Some(h)
    case LaunchExits(h, _) => Some(h)
    case LaunchReturns(h) => Some(h)
    case _ => None
  }

  lemma TouchedOnly(s: State, step: Step)
    requires Enabled(s, step) && !step.Start?
    ensures var s' := Apply(s, step);
            match Touched(s, step)
            case None => s'.ctxs == s.ctxs && s'.wg == s.wg && s'.created == s.created && s'.deleted == s.deleted
                         && s'.timedOut == s.timedOut && s'.replaced == s.replaced && s'.durations == s.durations
                         && s'.finished == s.finished && s'.failed == s.failed
            case Some(h) => h < |s.ctxs| == |s'.ctxs| && s'.ctxs == s.ctxs[h := s'.ctxs[h]]
  {
  }

  lemma LaunchCountsMove(s: State, step: Step, h: nat)
    requires AllSound(s) && CountInv(s) && Enabled(s, step) && Touched(s, step) == Some(h)
    requires step.DeadlineFires? || step.LaunchExits? || step.LaunchReturns?
    ensures CountsMove(s, Apply(s, step), s.ctxs[h], Apply(s, step).ctxs[h])
  {
    assert Sound(s, s.ctxs[h]);
  }

  lemma CreateCountsMove(s: State, step: Step, h: nat)
    requires LockInv(s) && CountInv(s) && Enabled(s, step) && Touched(s, step) == Some(h)
    requires step.KillCancel? || step.KillRecord? || step.ProbeFailed? || step.Activate?
    ensures CountsMove(s, Apply(s, step), s.ctxs[h], Apply(s, step).ctxs[h])
  {
  }

  lemma TakeCountsMove(s: State, step: Step, h: nat)
    requires LockInv(s) && CountInv(s) && Enabled(s, step) && Touched(s, step) == Some(h)
    requires step.ReapEnter? || step.Record? || step.Cancel?
    ensures CountsMove(s, Apply(s, step), s.ctxs[h], Apply(s, step).ctxs[h])
  {
  }

  lemma StepCount(s: State, step: Step)
    requires AllSound(s) && LockInv(s) && CountInv(s) && Enabled(s, step)
    ensures CountInv(Apply(s, step))
  {
    if step.Start? {
      StartKeepsCount(s, step.id);
    } else {
      TouchedOnly(s, step);
      match Touched(s, step)
      case Some(h) =>
        if step.DeadlineFires? || step.LaunchExits? || step.LaunchReturns? {
          LaunchCountsMove(s, step, h);
        } else if step.ReapEnter? || step.Record? || step.Cancel? {
          TakeCountsMove(s, step, h);
        } else {
          CreateCountsMove(s, step, h);
        }
        CountsFollow(s, Apply(s, step), h);
      case None =>
    }
  }

  lemma CreateKeepsBalance(s: State, step: Step)
    requires LockInv(s) && BalanceInv(s) && Enabled(s, step)
    requires step.CreateEnter? || step.Start? || step.ProbeFailed? || step.ProbeSucceeded? || step.Activate?
    ensures BalanceInv(Apply(s, step))
  {
  }

  lemma KillKeepsBalance(s: State, step: Step)
    requires LockInv(s) && BalanceInv(s) && Enabled(s, step)
    requires step.KillCancel? || step.KillRemove? || step.KillRecord?
    ensures BalanceInv(Apply(s, step))
  {
  }

  lemma TakeKeepsBalance(s: State, step: Step)
    requires LockInv(s) && BalanceInv(s) && Enabled(s, step)
    requires step.DeleteEnter? || step.ReapEnter? || step.Record? || step.Cancel?
    ensures BalanceInv(Apply(s, step))
  {
    var id := if step.DeleteEnter? then step.id else if step.ReapEnter? then s.ctxs[step.h].id else "";
    if (step.DeleteEnter? || step.ReapEnter?) && id in s.sessions {
      assert Occupied(s) && s.sessions - {id} == map[];
    }
  }

  lemma OutsideKeepsMetrics(s: State, step: Step)
    requires Enabled(s, step) && Outside(step)
    ensures var s' := Apply(s, step);
            && s'.gauge == s.gauge && s'.created == s.created
            && s'.deleted == s.deleted && s'.timedOut == s.timedOut && s'.replaced == s.replaced
  {
  }

  lemma StepBalance(s: State, step: Step)
    requires LockInv(s) && BalanceInv(s) && Enabled(s, step)
    ensures BalanceInv(Apply(s, step))
  {
    if Outside(step) {
      OutsideDrifts(s, step);
      OutsideKeepsMetrics(s, step);
    } else if step.KillCancel? || step.KillRemove? || step.KillRecord? {
      KillKeepsBalance(s, step);
    } else if step.DeleteEnter? || step.ReapEnter? || step.Record? || step.Cancel? {
      TakeKeepsBalance(s, step);
    } else {
      CreateKeepsBalance(s, step);
    }
  }

  lemma StepInv(s: State, step: Step)
    requires Inv(s) && Enabled(s, step) && Fresh(s, step)
    ensures Inv(Apply(s, step))
  {
    StepSound(s, step);
    StepDistinct(s, step);
    StepLock(s, step);
    StepCount(s, step);
    StepBalance(s, step);
  }

  lemma {:induction false} RunInv(s: State, steps: seq<Step>)
    requires Inv(s) && Run(s, steps)
    ensures Inv(Exec(s, steps))
    decreases |steps|
  {
    if steps != [] {
      StepInv(s, steps[0]);
      RunInv(Apply(s, steps[0]), steps[1..]);
    }
  }
}
