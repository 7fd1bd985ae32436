/** No session is leaked: once no caller asks for anything new, the steps that are still to come are finitely many,
    and when the last one has been made, nothing is left in the map. */
module Quiescence {
  import opened Options
  import opened Protocol
  import opened Invariant
  import opened Safety
  import opened Sums

  // Steps that finish what has been started. They are not calls by clients, and not the passing of time.
  ghost predicate Finishing(step: Step) {
    match step
    case CreateEnter(_) => false
    case DeleteEnter(_) => false
    case DrainSet => false
    case SessionRead(_) => false
    case SessionsRead => false
    case Tick(_) => false
    case _ => true
  }

  // What is still to come for one context: its end, its AfterFunc, and the two steps of its launch.
  function ContextWork(c: Context): nat {
    (if c.cause.None? then 1 else 0)
    + (if c.reaped then 0 else 1)
    + (match c.launch case Running => 2 case Measured => 1 case Returned => 0)
  }

  function HolderWork(lock: Holder): nat {
    match lock
    case Free => 0
    case Killing(_) => 11
    case KillCancelled(_, _, _) => 10
    case KillRemoved(_, _) => 13
    case Probing(_, _) => 6
    case Inserted(_, _) => 1
    case Removed(_, _) => 2
    case Recorded(_) => 1
  }

  // An upper bound on the number of finishing steps.
  function Work(s: State): nat {
    Sum(s.ctxs, ContextWork) + 4 * |s.sessions| + HolderWork(s.lock)
  }

  lemma StartWorks(s: State, id: Id)
    requires Enabled(s, Start(id))
    ensures Work(Apply(s, Start(id))) < Work(s)
  {
  }

  // The rest of the work shrinks by more than the context a step writes to gains.
  lemma TouchedWorks(s: State, s': State, h: nat)
    requires h < |s.ctxs| == |s'.ctxs| && s'.ctxs == s.ctxs[h := s'.ctxs[h]]
    requires ContextWork(s'.ctxs[h]) + 4 * |s'.sessions| + HolderWork(s'.lock)
             < ContextWork(s.ctxs[h]) + 4 * |s.sessions| + HolderWork(s.lock)
    ensures Work(s') < Work(s)
  {
    SumUpdate(s.ctxs, h, s'.ctxs[h], ContextWork);
  }

  lemma HolderWorks(s: State, step: Step)
    requires LockInv(s) && Enabled(s, step)
    requires step.KillCancel? || step.KillRecord? || step.ProbeFailed? || step.Activate? || step.Record? || step.Cancel?
    ensures Work(Apply(s, step)) < Work(s)
  {
    TouchedWorks(s, Apply(s, step), Touched(s, step).value);
  }

  lemma MapWorks(s: State, step: Step)
    requires LockInv(s) && Enabled(s, step)
    requires step.KillRemove? || step.ProbeSucceeded?
    ensures Work(Apply(s, step)) < Work(s)
  {
  }

  lemma ReaperWorks(s: State, h: nat)
    requires LockInv(s) && Enabled(s, ReapEnter(h))
    ensures Work(Apply(s, ReapEnter(h))) < Work(s)
  {
    if s.ctxs[h].id in s.sessions {
      assert s.sessions - {s.ctxs[h].id} == map[];
    }
    TouchedWorks(s, Apply(s, ReapEnter(h)), h);
  }

  lemma LaunchWorks(s: State, step: Step)
    requires Enabled(s, step)
    requires step.DeadlineFires? || step.LaunchExits? || step.LaunchReturns?
    ensures Work(Apply(s, step)) < Work(s)
  {
    TouchedWorks(s, Apply(s, step), step.h);
  }

  lemma FinishingStepWorks(s: State, step: Step)
    requires LockInv(s) && Enabled(s, step) && Finishing(step)
    ensures Work(Apply(s, step)) < Work(s)
  {
    match step
    case Start(id) => StartWorks(s, id);
    case KillRemove => MapWorks(s, step);
    case ProbeSucceeded => MapWorks(s, step);
    case ReapEnter(h) => ReaperWorks(s, h);
    case DeadlineFires(_) => LaunchWorks(s, step);
    case LaunchExits(_, _) => LaunchWorks(s, step);
    case LaunchReturns(_) => LaunchWorks(s, step);
    case _ => HolderWorks(s, step);
  }

  ghost function CountFinishing(steps: seq<Step>): nat {
    if steps == [] then 0 else (if Finishing(steps[0]) then 1 else 0) + CountFinishing(steps[1..])
  }

  /** Without new calls, however the rest interleaves with the passing of time, the work that there was at the start
      bounds the number of steps made plus the work that is left. */
  lemma {:induction false} WorkIsBounded(s: State, steps: seq<Step>)
    requires Inv(s) && Run(s, steps)
    requires forall step :: step in steps ==> Finishing(step) || step.Tick?
    ensures CountFinishing(steps) + Work(Exec(s, steps)) <= Work(s)
    decreases |steps|
  {
    if steps != [] {
      var step := steps[0];
      assert step in steps;
      StepInv(s, step);
      WorkIsBounded(Apply(s, step), steps[1..]);
      if Finishing(step) {
        FinishingStepWorks(s, step);
      }
    }
  }

  // Nothing is left to do.
  ghost predicate Quiet(s: State) {
    && s.lock.Free? && s.sessions == map[] && s.wg == 0 && s.gauge == 0
    && s.created == s.deleted + s.timedOut + s.replaced
    && forall h :: 0 <= h < |s.ctxs| ==> s.ctxs[h].cause.Some? && s.ctxs[h].reaped && s.ctxs[h].launch.Returned?
  }

  // The step that the holder of the mutex makes next.
  function HoldersNext(s: State): Step {
    match s.lock
    case Free => SessionsRead
    case Killing(_) => if s.sessions == map[] then Start("") else SessionsRead
    case KillCancelled(_, _, _) => KillRemove
    case KillRemoved(_, _) => KillRecord
    case Probing(_, _) => ProbeFailed
    case Inserted(_, _) => Activate
    case Removed(_, _) => Record
    case Recorded(_) => Cancel
  }

  lemma HolderCanGoOn(s: State)
    requires LockInv(s) && !s.lock.Free?
    ensures exists step :: Finishing(step) && Enabled(s, step)
  {
    if s.lock.Killing? && s.sessions != map[] {
      var h := |s.ctxs| - 1;
      assert Occupied(s);
      assert s.ctxs[h].id in s.sessions;
      assert Enabled(s, KillCancel(s.ctxs[h].id)) && Finishing(KillCancel(s.ctxs[h].id));
    } else {
      assert Enabled(s, HoldersNext(s)) && Finishing(HoldersNext(s));
    }
  }

  lemma UnfinishedContextCanGoOn(s: State, h: nat)
    requires Inv(s) && s.lock.Free? && h < |s.ctxs| && s.ctxs[h].deadline <= s.now
    requires s.ctxs[h].cause.None? || !s.ctxs[h].reaped || !s.ctxs[h].launch.Returned?
    ensures exists step :: Finishing(step) && Enabled(s, step)
  {
    assert Sound(s, s.ctxs[h]);
    var step := if s.ctxs[h].cause.None? then DeadlineFires(h)
                else if !s.ctxs[h].reaped then ReapEnter(h)
                else if s.ctxs[h].launch.Running? then LaunchExits(h, Exited(true))
                else LaunchReturns(h);
    assert Enabled(s, step) && Finishing(step);
  }

  /** When all deadlines have passed and no finishing step is possible any more, everything is finished: the map is
      empty, the mutex free, the WaitGroup at zero, and every session that was counted in has been counted out. */
  lemma StuckIsQuiet(s: State)
    requires Inv(s)
    requires forall h :: 0 <= h < |s.ctxs| ==> s.ctxs[h].deadline <= s.now
    requires forall step :: Finishing(step) ==> !Enabled(s, step)
    ensures Quiet(s)
  {
    if !s.lock.Free? {
      HolderCanGoOn(s);
    } else {
      forall h: nat | h < |s.ctxs|
        ensures s.ctxs[h].cause.Some? && s.ctxs[h].reaped && s.ctxs[h].launch.Returned?
      {
        if s.ctxs[h].cause.None? || !s.ctxs[h].reaped || !s.ctxs[h].launch.Returned? {
          UnfinishedContextCanGoOn(s, h);
        }
      }
      SumZero(s.ctxs, Unreturned);
      assert s.sessions == map[] || Occupied(s);
    }
  }

  /** From any reachable state, every run without new calls makes at most Work(s) steps besides the passing of time,
      and if it goes on for as long as it can, past the last deadline, it ends with nothing left. */
  lemma NoSessionIsLeaked(s: State, steps: seq<Step>)
    requires Reachable(s) && Run(s, steps)
    requires forall step :: step in steps ==> Finishing(step) || step.Tick?
    ensures CountFinishing(steps) <= Work(s)
    ensures var s' := Exec(s, steps);
            (forall h :: 0 <= h < |s'.ctxs| ==> s'.ctxs[h].deadline <= s'.now)
            && (forall step :: Finishing(step) ==> !Enabled(s', step))
            ==> Quiet(s')
  {
    ReachableInv(s);
    RunInv(s, steps);
    WorkIsBounded(s, steps);
    var s' := Exec(s, steps);
    if (forall h :: 0 <= h < |s'.ctxs| ==> s'.ctxs[h].deadline <= s'.now)
       && (forall step :: Finishing(step) ==> !Enabled(s', step)) {
      StuckIsQuiet(s');
    }
  }
}
