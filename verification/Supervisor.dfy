/** The supervisor as an object whose methods update its fields. Each method is a critical section, or a part of
    `create` between two waits; each is proved to be a run of the protocol's steps, made without interference. */
module Supervisor {
  import opened Options
  import opened Protocol
  import opened Invariant
  import opened Safety
  import Oom = OomAccounting

  // s' is what the steps make of s.
  ghost predicate Via(s: State, steps: seq<Step>, s': State) {
    Run(s, steps) && Exec(s, steps) == s'
  }

  lemma ViaOne(s: State, step: Step)
    requires Enabled(s, step) && Fresh(s, step)
    ensures Via(s, [step], Apply(s, step))
  {
    LastStep(s, step);
  }

  lemma {:induction false} ViaBoth(s: State, a: seq<Step>, s1: State, b: seq<Step>, s2: State)
    requires Via(s, a, s1) && Via(s1, b, s2)
    ensures Via(s, a + b, s2)
    decreases |a|
  {
    if a == [] {
      assert a + b == b;
    } else {
      ViaBoth(Apply(s, a[0]), a[1..], s1, b, s2);
      assert (a + b)[1..] == a[1..] + b;
    }
  }

  lemma ViaMore(s: State, a: seq<Step>, s1: State, step: Step)
    requires Via(s, a, s1) && Enabled(s1, step) && Fresh(s1, step)
    ensures Via(s, a + [step], Apply(s1, step))
  {
    ViaOne(s1, step);
    ViaBoth(s, a, s1, [step], Apply(s1, step));
  }

  lemma ViaReachable(s: State, steps: seq<Step>, s': State)
    requires Reachable(s) && Via(s, steps, s')
    ensures Reachable(s')
  {
    var timeout: nat, before :| Reaches(timeout, before, s);
    ViaBoth(Initial(timeout), before, s, steps, s');
    assert Reaches(timeout, before + steps, s');
  }

  lemma ViaOneReachable(s: State, step: Step)
    requires Reachable(s) && Enabled(s, step) && Fresh(s, step)
    ensures Via(s, [step], Apply(s, step)) && Reachable(Apply(s, step))
  {
    ViaOne(s, step);
    ViaReachable(s, [step], Apply(s, step));
  }

  // The critical section of takeSession, entered by the given step.
  function TakeSteps(s: State, enter: Step): seq<Step>
    requires Enabled(s, enter)
  {
    if Apply(s, enter).lock.Removed? then [enter, Record, Cancel] else [enter]
  }

  // One round of killExisting for each ID.
  function KillSteps(ids: seq<Id>): seq<Step> {
    if ids == [] then []
    else KillSteps(ids[..|ids| - 1]) + [KillCancel(ids[|ids| - 1]), KillRemove, KillRecord]
  }

  lemma KillStepsAppend(ids: seq<Id>, id: Id)
    ensures KillSteps(ids + [id]) == KillSteps(ids) + [KillCancel(id), KillRemove, KillRecord]
  {
    assert (ids + [id])[..|ids|] == ids;
  }

  // create up to the probe.
  function BeginSteps(ifFree: bool, killed: seq<Id>, id: Id): seq<Step> {
    [CreateEnter(ifFree)] + KillSteps(killed) + [Start(id)]
  }

  // ---- Critical sections in one go

  ghost predicate InRange(s: State) {
    forall id :: id in s.sessions ==> s.sessions[id] < |s.ctxs|
  }

  lemma ReachableInRange(s: State)
    requires Reachable(s)
    ensures InRange(s) && s.wg >= 0
    ensures s.lock.Probing? ==> s.lock.h < |s.ctxs| && s.sessions == map[]
  {
    ReachableInv(s);
  }

  // takeSession.
  function Taken(s: State, id: Id, reason: Reason): State
    requires id in s.sessions ==> s.sessions[id] < |s.ctxs|
  {
    if id !in s.sessions then s
    else
      var h := s.sessions[id];
      s.(sessions := s.sessions - {id}, gauge := 0,
         deleted := if reason.Deleted? then s.deleted + 1 else s.deleted,
         timedOut := if reason.TimedOut? then s.timedOut + 1 else s.timedOut,
         replaced := if reason.Replaced? then s.replaced + 1 else s.replaced,
         ctxs := s.ctxs[h := EndedBy(s.ctxs[h], Canceled, s.now).(termination := Some(reason))])
  }

  lemma DeleteVia(s: State, id: Id)
    requires InRange(s) && Enabled(s, DeleteEnter(id))
    ensures Via(s, TakeSteps(s, DeleteEnter(id)), Taken(s, id, Deleted))
  {
    ViaOne(s, DeleteEnter(id));
    if id in s.sessions {
      TeardownVia(s, DeleteEnter(id));
    }
  }

  // The function registered with context.AfterFunc.
  function AfterReap(s: State, h: nat): State
    requires InRange(s) && h < |s.ctxs|
  {
    Taken(s.(ctxs := s.ctxs[h := s.ctxs[h].(reaped := true)]), s.ctxs[h].id, TimedOut)
  }

  lemma ReapVia(s: State, h: nat)
    requires InRange(s) && Enabled(s, ReapEnter(h))
    ensures Via(s, TakeSteps(s, ReapEnter(h)), AfterReap(s, h))
  {
    ViaOne(s, ReapEnter(h));
    if s.ctxs[h].id in s.sessions {
      TeardownVia(s, ReapEnter(h));
    }
  }

  // The AfterFunc of context h has run, and its ID is not in the map.
  ghost predicate DoneWith(s: State, h: nat) {
    h < |s.ctxs| && s.ctxs[h].reaped && s.ctxs[h].id !in s.sessions
  }

  lemma ReapedIsDone(s: State, h: nat)
    requires InRange(s) && h < |s.ctxs|
    ensures DoneWith(AfterReap(s, h), h) && AfterReap(s, h).lock == s.lock
  {
  }

  lemma ReapReaches(s: State, h: nat)
    requires Reachable(s) && InRange(s) && Enabled(s, ReapEnter(h))
    ensures Via(s, TakeSteps(s, ReapEnter(h)), AfterReap(s, h)) && Reachable(AfterReap(s, h))
  {
    ReapVia(s, h);
    ViaReachable(s, TakeSteps(s, ReapEnter(h)), AfterReap(s, h));
  }

  lemma TeardownVia(s: State, enter: Step)
    requires Enabled(s, enter) && (enter.DeleteEnter? || enter.ReapEnter?)
    requires var s1 := Apply(s, enter); s1.lock.Removed? && s1.lock.h < |s1.ctxs|
    ensures var s1 := Apply(s, enter);
            Via(s, TakeSteps(s, enter), Apply(Apply(s1, Record), Cancel))
  {
    var s1 := Apply(s, enter);
    var s2 := Apply(s1, Record);
    ViaOne(s, enter);
    ViaMore(s, [enter], s1, Record);
    ViaMore(s, [enter] + [Record], s2, Cancel);
    assert [enter] + [Record] + [Cancel] == TakeSteps(s, enter);
  }

  // What killExisting makes of the context of a session in the map.
  function ReplacedBy(c: Context, now: nat): Context {
    EndedBy(c, Canceled, now).(termination := Some(Replaced))
  }

  // delete, for one session.
  function Kill(s: State, id: Id): State
    requires id in s.sessions && s.sessions[id] < |s.ctxs|
  {
    var h := s.sessions[id];
    s.(sessions := s.sessions - {id}, gauge := 0, replaced := s.replaced + 1,
       ctxs := s.ctxs[h := ReplacedBy(s.ctxs[h], s.now)])
  }

  lemma KillVia(s: State, id: Id)
    requires s.lock.Killing? && id in s.sessions && s.sessions[id] < |s.ctxs|
    ensures Via(s, [KillCancel(id), KillRemove, KillRecord], Kill(s, id))
  {
    var s1 := Apply(s, KillCancel(id));
    var s2 := Apply(s1, KillRemove);
    ViaOne(s, KillCancel(id));
    ViaMore(s, [KillCancel(id)], s1, KillRemove);
    ViaMore(s, [KillCancel(id)] + [KillRemove], s2, KillRecord);
    assert [KillCancel(id)] + [KillRemove] + [KillRecord] == [KillCancel(id), KillRemove, KillRecord];
  }

  /** s' is s after some sessions have been killed: those that are no longer in the map, and no others. */
  ghost predicate KilledFrom(s: State, s': State)
    requires InRange(s)
  {
    && |s'.ctxs| == |s.ctxs|
    && (forall id :: id in s'.sessions ==> id in s.sessions && s'.sessions[id] == s.sessions[id])
    && s'.replaced + |s'.sessions| == s.replaced + |s.sessions|
    && (forall id :: id in s.sessions && id !in s'.sessions ==>
          s'.ctxs[s.sessions[id]] == ReplacedBy(s.ctxs[s.sessions[id]], s.now))
    && (forall h ::
          0 <= h < |s.ctxs| && (forall id :: id in s.sessions && id !in s'.sessions ==> s.sessions[id] != h) ==>
            s'.ctxs[h] == s.ctxs[h])
    && s' == s.(sessions := s'.sessions, gauge := s'.gauge, replaced := s'.replaced, ctxs := s'.ctxs)
    && s'.gauge == if s'.sessions == s.sessions then s.gauge else 0
  }

  lemma KillMore(s: State, s1: State, id: Id)
    requires InRange(s) && KilledFrom(s, s1) && id in s1.sessions
    requires forall a, b :: a in s.sessions && b in s.sessions && s.sessions[a] == s.sessions[b] ==> a == b
    ensures s1.sessions[id] < |s1.ctxs| && KilledFrom(s, Kill(s1, id))
  {
  }

  // Killing sessions makes no ID stale that was fresh, and leaves nothing in the way of the launch.
  lemma KilledStaysFresh(s: State, s': State, id: Id)
    requires InRange(s) && KilledFrom(s, s') && Fresh(s, Start(id))
    ensures Fresh(s', Start(id))
  {
  }

  // create, from the call of context.WithTimeout to the launch.
  function Launched(s: State, id: Id): State
    requires s.lock.Killing?
  {
    s.(ctxs := s.ctxs + [Context(id, s.now, s.now + s.timeout, None, 0, false, Running, false, None, None, None)],
       wg := s.wg + 1, lock := Probing(s.lock.call, |s.ctxs|))
  }

  // create is in its probe, and every earlier context has ended.
  ghost predicate Begun(s: State, ifFree: bool, id: Id, s': State) {
    && s'.lock == Probing(Call(ifFree, s.sessions.Keys), |s.ctxs|) && s'.sessions == map[]
    && |s'.ctxs| == |s.ctxs| + 1 && (forall h :: 0 <= h < |s.ctxs| ==> s'.ctxs[h].cause.Some?)
    && Launching(s, id, s'.ctxs[|s.ctxs|])
    && s'.wg == s.wg + 1 && s'.created == s.created && s'.replaced == s.replaced + |s.sessions|
    && s'.deleted == s.deleted && s'.timedOut == s.timedOut && !s'.draining
    && forall id :: id in s.sessions ==>
         s.sessions[id] < |s.ctxs| && s'.ctxs[s.sessions[id]].termination == Some(Replaced)
  }

  // A new context, under which a launch runs and nothing else has happened.
  ghost predicate Launching(s: State, id: Id, c: Context) {
    && c.id == id && c.startedAt == s.now && c.deadline == s.now + s.timeout
    && c.cause.None? && !c.reaped && c.launch.Running? && !c.created
    && c.termination.None? && c.exit.None? && c.execution.None?
  }

  lemma BeginVia(s: State, ifFree: bool, killed: seq<Id>, s2: State, id: Id)
    requires Reachable(s) && Enabled(s, CreateEnter(ifFree)) && Fresh(s, Start(id))
    requires Via(s, [CreateEnter(ifFree)], Apply(s, CreateEnter(ifFree)))
    requires var s1 := Apply(s, CreateEnter(ifFree));
             && s1.lock.Killing? && InRange(s1) && KilledFrom(s1, s2)
             && Via(s1, KillSteps(killed), s2) && s2.sessions == map[]
    ensures Via(s, BeginSteps(ifFree, killed, id), Launched(s2, id)) && Reachable(Launched(s2, id))
    ensures Begun(s, ifFree, id, Launched(s2, id))
  {
    var s1 := Apply(s, CreateEnter(ifFree));
    var s3 := Launched(s2, id);
    ViaBoth(s, [CreateEnter(ifFree)], s1, KillSteps(killed), s2);
    KilledStaysFresh(s1, s2, id);
    ViaMore(s, [CreateEnter(ifFree)] + KillSteps(killed), s2, Start(id));
    ViaReachable(s, BeginSteps(ifFree, killed, id), s3);
    OneSession(s3);
  }

  // create, after a probe that succeeded.
  function Committed(s: State): State
    requires s.lock.Probing? && s.lock.h < |s.ctxs|
  {
    var h := s.lock.h;
    s.(sessions := s.sessions[s.ctxs[h].id := h], gauge := 1, created := s.created + 1, lock := Free,
       ctxs := s.ctxs[h := s.ctxs[h].(created := true)])
  }

  lemma CommittedVia(s: State)
    requires s.lock.Probing? && s.lock.h < |s.ctxs|
    ensures Via(s, [ProbeSucceeded, Activate], Committed(s))
  {
  }

  // Samples of the kill counter are 64 bits wide.
  function Unbounded(sample: Option<Oom.uint64>): Option<nat> {
    if sample.Some? then Some(sample.value as nat) else None
  }

  // What a supervisor knows about OOM kills, at the given state of the kernel's counter.
  function MeterOf(baselines: seq<Option<Oom.uint64>>, total: nat, kernel: nat): Oom.Meter {
    Oom.Meter(kernel, seq(|baselines|, i requires 0 <= i < |baselines| => Unbounded(baselines[i])), total)
  }

  /** The change is the event's, whatever the kernel's counter says: or what the sample says, if it could be read. */
  ghost predicate Meters(baselines: seq<Option<Oom.uint64>>, total: nat, sample: Option<Oom.uint64>, e: Oom.Event,
                         baselines': seq<Option<Oom.uint64>>, total': nat)
  {
    forall kernel: nat :: (sample.Some? ==> sample.value as nat == kernel) ==>
      MeterOf(baselines', total', kernel) == Oom.Next(MeterOf(baselines, total, kernel), e)
  }

  // The session has been taken out of the map, counted out under the reason, and cancelled; the rest is as before.
  ghost predicate TakenOut(s: State, id: Id, reason: Reason, s': State)
    requires id in s.sessions && s.sessions[id] < |s.ctxs|
  {
    var h := s.sessions[id];
    && s'.sessions == s.sessions - {id} && s'.gauge == 0
    && s'.deleted == s.deleted + (if reason == Deleted then 1 else 0)
    && s'.timedOut == s.timedOut + (if reason == TimedOut then 1 else 0)
    && s'.replaced == s.replaced + (if reason == Replaced then 1 else 0)
    && |s'.ctxs| == |s.ctxs| && s'.ctxs[h].cause.Some? && s'.ctxs[h].termination == Some(reason)
    && s'.ctxs[h].cause == (if s.ctxs[h].cause.None? then Some(Canceled) else s.ctxs[h].cause)
    && s'.ctxs[h].id == s.ctxs[h].id && s'.ctxs[h].launch == s.ctxs[h].launch
    && (forall i :: 0 <= i < |s.ctxs| && i != h ==> s'.ctxs[i] == s.ctxs[i])
    && s'.draining == s.draining && s'.created == s.created && s'.wg == s.wg && s'.lock == s.lock
  }

  lemma TakenIsOut(s: State, id: Id, reason: Reason)
    requires id in s.sessions && s.sessions[id] < |s.ctxs|
    ensures TakenOut(s, id, reason, Taken(s, id, reason))
  {
  }

  // The kills between two samples, if both could be read and the counter has not gone back.
  function KillsBetween(before: Option<Oom.uint64>, after: Option<Oom.uint64>): nat {
    if before.Some? && after.Some? && before.value < after.value then (after.value - before.value) as nat else 0
  }

  class Supervisor {
    const timeout: nat
    var now: nat
    var sessions: map<Id, nat>
    var draining: bool
    var lock: Holder
    var ctxs: seq<Context>
    var wg: int
    var gauge: nat
    var created: nat
    var deleted: nat
    var timedOut: nat
    var replaced: nat
    var durations: nat
    var finished: nat
    var failed: nat
    // One for each context: the OOM kills before its launch, as long as they are needed and if they could be read.
    var baselines: seq<Option<Oom.uint64>>
    var oomKills: nat

    function Snapshot(): State
      reads this
    {
      State(timeout, now, sessions, draining, lock, ctxs, wg, gauge, created, deleted, timedOut, replaced,
            durations, finished, failed)
    }

    ghost predicate Valid()
      reads this
    {
      Reachable(Snapshot()) && |baselines| == |ctxs|
    }

    constructor (timeout: nat)
      ensures Snapshot() == Initial(timeout) && Valid() && baselines == [] && oomKills == 0
    {
      this.timeout := timeout;
      now, sessions, draining, lock, ctxs, wg := 0, map[], false, Free, [], 0;
      gauge, created, deleted, timedOut, replaced, durations, finished, failed := 0, 0, 0, 0, 0, 0, 0, 0;
      baselines, oomKills := [], 0;
      new;
      assert Reaches(timeout, [], Snapshot());
    }

    // ---- Reading

    // The context of the session with the given ID, if there is one.
    method Session(id: Id) returns (h: Option<nat>)
      requires Valid() && lock.Free?
      ensures h.Some? <==> id in sessions
      ensures h.Some? ==> h == Some(sessions[id]) && h.value < |ctxs|
                          && ctxs[h.value].id == id && !ctxs[h.value].reaped
      ensures Respond(Snapshot(), SessionRead(id)) == Some(Found(h.Some?))
    {
      OneSession(Snapshot());
      h := if id in sessions then Some(sessions[id]) else None;
    }

    // The IDs in the map, each once.
    method Sessions() returns (ids: seq<Id>)
      requires Valid() && lock.Free?
      ensures forall id :: id in ids <==> id in sessions
      ensures |ids| == |sessions| <= 1
      ensures Respond(Snapshot(), SessionsRead) == Some(Ids(set id | id in ids))
    {
      ids := [];
      var rest := sessions.Keys;
      while rest != {}
        invariant rest <= sessions.Keys
        invariant forall id :: id in sessions.Keys <==> id in ids || id in rest
        invariant |ids| + |rest| == |sessions.Keys|
        decreases rest
      {
        var id :| id in rest;
        ids := ids + [id];
        rest := rest - {id};
      }
      OneSession(Snapshot());
      assert (set id | id in ids) == sessions.Keys;
    }

    // ---- Taking a session out

    method EndContext(h: nat, cause: Cause)
      requires h < |ctxs|
      modifies this`ctxs
      ensures ctxs == old(ctxs)[h := EndedBy(old(ctxs)[h], cause, now)]
      ensures old(ctxs)[h].cause.Some? ==> ctxs == old(ctxs)
      ensures old(ctxs)[h].cause.None? ==>
                ctxs == old(ctxs)[h := old(ctxs)[h].(cause := Some(cause), endedAt := now)]
    {
      if ctxs[h].cause.None? {
        ctxs := ctxs[h := ctxs[h].(cause := Some(cause), endedAt := now)];
      }
    }

    method SetSessionInactive(h: nat, reason: Reason)
      requires h < |ctxs|
      modifies this`gauge, this`deleted, this`timedOut, this`replaced, this`ctxs
      ensures gauge == 0
      ensures deleted == old(deleted) + if reason.Deleted? then 1 else 0
      ensures timedOut == old(timedOut) + if reason.TimedOut? then 1 else 0
      ensures replaced == old(replaced) + if reason.Replaced? then 1 else 0
      ensures ctxs == old(ctxs)[h := old(ctxs)[h].(termination := Some(reason))]
    {
      gauge := 0;
      match reason {
        case Deleted => deleted := deleted + 1;
        case TimedOut => timedOut := timedOut + 1;
        case Replaced => replaced := replaced + 1;
      }
      ctxs := ctxs[h := ctxs[h].(termination := Some(reason))];
    }

    // takeSession: removal, metrics and cancellation under the mutex.
    method TakeSession(id: Id, reason: Reason) returns (found: bool)
      requires lock.Free? && (id in sessions ==> sessions[id] < |ctxs|)
      modifies this`sessions, this`gauge, this`deleted, this`timedOut, this`replaced, this`ctxs
      ensures found == (id in old(sessions))
      ensures Snapshot() == Taken(old(Snapshot()), id, reason)
      ensures if found then TakenOut(old(Snapshot()), id, reason, Snapshot()) else Snapshot() == old(Snapshot())
    {
      found := id in sessions;
      if found {
        TakenIsOut(Snapshot(), id, reason);
        var h := sessions[id];
        sessions := sessions - {id};
        SetSessionInactive(h, reason);
        EndContext(h, Canceled);
      }
    }

    method Delete(id: Id) returns (found: bool)
      requires Valid() && lock.Free?
      modifies this`sessions, this`gauge, this`deleted, this`timedOut, this`replaced, this`ctxs
      ensures Valid() && lock.Free? && id !in sessions && found == (id in old(sessions))
      ensures found ==> old(sessions)[id] < |ctxs| && TakenOut(old(Snapshot()), id, Deleted, Snapshot())
      ensures !found ==> Snapshot() == old(Snapshot())
      ensures Respond(old(Snapshot()), DeleteEnter(id)) == Some(Found(found))
      ensures Via(old(Snapshot()), TakeSteps(old(Snapshot()), DeleteEnter(id)), Snapshot())
    {
      ghost var s := Snapshot();
      ReachableInRange(s);
      found := TakeSession(id, Deleted);
      DeleteVia(s, id);
      ViaReachable(s, TakeSteps(s, DeleteEnter(id)), Snapshot());
    }

    // The critical section of Reap.
    method TakeEnded(h: nat) returns (found: bool)
      requires InRange(Snapshot()) && Enabled(Snapshot(), ReapEnter(h))
      modifies this`sessions, this`gauge, this`deleted, this`timedOut, this`replaced, this`ctxs
      ensures found == (old(ctxs)[h].id in old(sessions))
      ensures Snapshot() == AfterReap(old(Snapshot()), h)
      ensures found ==> timedOut == old(timedOut) + 1 && gauge == 0
                        && sessions == old(sessions) - {old(ctxs)[h].id}
      ensures !found ==> ctxs == old(ctxs)[h := old(ctxs)[h].(reaped := true)]
                         && sessions == old(sessions) && timedOut == old(timedOut) && gauge == old(gauge)
      ensures deleted == old(deleted) && replaced == old(replaced)
    {
      ctxs := ctxs[h := ctxs[h].(reaped := true)];
      found := TakeSession(ctxs[h].id, TimedOut);
    }

    // The function registered with context.AfterFunc for context h, run once the context has ended.
    method Reap(h: nat) returns (found: bool)
      requires Valid() && Enabled(Snapshot(), ReapEnter(h))
      modifies this`sessions, this`gauge, this`deleted, this`timedOut, this`replaced, this`ctxs
      ensures Valid() && lock.Free? && DoneWith(Snapshot(), h)
      ensures found == (old(ctxs)[h].id in old(sessions))
      ensures found ==> timedOut == old(timedOut) + 1 && gauge == 0
                        && sessions == old(sessions) - {old(ctxs)[h].id}
      ensures !found ==> ctxs == old(ctxs)[h := old(ctxs)[h].(reaped := true)]
                         && sessions == old(sessions) && timedOut == old(timedOut) && gauge == old(gauge)
      ensures deleted == old(deleted) && replaced == old(replaced)
      ensures Respond(old(Snapshot()), ReapEnter(h)) == Some(Reaped(found))
      ensures Via(old(Snapshot()), TakeSteps(old(Snapshot()), ReapEnter(h)), Snapshot())
    {
      ghost var s := Snapshot();
      ReachableInRange(s);
      ReapReaches(s, h);
      ReapedIsDone(s, h);
      found := TakeEnded(h);
    }

    // ---- Creating a session

    // delete, the helper of killExisting that runs under a mutex already held.
    method DeleteLocked(id: Id)
      requires lock.Killing? && id in sessions && sessions[id] < |ctxs|
      modifies this`sessions, this`gauge, this`deleted, this`timedOut, this`replaced, this`ctxs
      ensures Snapshot() == Kill(old(Snapshot()), id)
    {
      var h := sessions[id];
      EndContext(h, Canceled);
      sessions := sessions - {id};
      SetSessionInactive(h, Replaced);
    }

    /** killExisting, on any map whatever: it empties the map, every session that was in it has been cancelled and
        counted as replaced, and nothing else has changed. */
    method KillExisting() returns (ghost killed: seq<Id>)
      requires lock.Killing? && InRange(Snapshot())
      requires forall a, b :: a in sessions && b in sessions && sessions[a] == sessions[b] ==> a == b
      modifies this`sessions, this`gauge, this`deleted, this`timedOut, this`replaced, this`ctxs
      ensures sessions == map[] && KilledFrom(old(Snapshot()), Snapshot())
      ensures Via(old(Snapshot()), KillSteps(killed), Snapshot())
    {
      ghost var s := Snapshot();
      killed := [];
      while sessions != map[]
        invariant KilledFrom(s, Snapshot())
        invariant Via(s, KillSteps(killed), Snapshot())
        decreases |sessions|
      {
        var id :| id in sessions;
        ghost var s1 := Snapshot();
        KillMore(s, s1, id);
        KillVia(s1, id);
        DeleteLocked(id);
        ViaBoth(s, KillSteps(killed), s1, [KillCancel(id), KillRemove, KillRecord], Snapshot());
        KillStepsAppend(killed, id);
        killed := killed + [id];
      }
    }

    // Launches chromium under a new context, with a sample of the kill counter taken just before.
    method Launch(id: Id, sample: Option<Oom.uint64>)
      requires lock.Killing?
      modifies this`ctxs, this`wg, this`lock, this`baselines
      ensures Snapshot() == Launched(old(Snapshot()), id)
      ensures baselines == old(baselines) + [sample]
      ensures Meters(old(baselines), old(oomKills), sample, Oom.Before(sample.Some?), baselines, oomKills)
    {
      baselines := baselines + [sample];
      ctxs := ctxs + [Context(id, now, now + timeout, None, 0, false, Running, false, None, None, None)];
      wg := wg + 1;
      lock := Probing(lock.call, |ctxs| - 1);
    }

    // create after its guards. s2 is the state in between.
    method KillAndLaunch(id: Id, sample: Option<Oom.uint64>) returns (ghost killed: seq<Id>, ghost s2: State)
      requires lock.Killing? && InRange(Snapshot())
      requires forall a, b :: a in sessions && b in sessions && sessions[a] == sessions[b] ==> a == b
      modifies this`lock, this`wg, this`baselines, this`ctxs
      modifies this`sessions, this`gauge, this`deleted, this`timedOut, this`replaced
      ensures baselines == old(baselines) + [sample]
      ensures Meters(old(baselines), old(oomKills), sample, Oom.Before(sample.Some?), baselines, oomKills)
      ensures s2.sessions == map[] && KilledFrom(old(Snapshot()), s2) && Via(old(Snapshot()), KillSteps(killed), s2)
      ensures s2.lock.Killing? && Snapshot() == Launched(s2, id)
    {
      killed := KillExisting();
      s2 := Snapshot();
      Launch(id, sample);
    }

    /** create up to the probe: the guards, killExisting, the sample of the kill counter, and the launch. The mutex
        stays held. The ID and the sample are arguments, since they come from the random source and the file system. */
    method CreateBegin(ifFree: bool, id: Id, sample: Option<Oom.uint64>)
      returns (error: Option<Response>, ghost killed: seq<Id>)
      requires Valid() && lock.Free? && Fresh(Snapshot(), Start(id))
      modifies this`lock, this`wg, this`baselines, this`ctxs
      modifies this`sessions, this`gauge, this`deleted, this`timedOut, this`replaced
      ensures Valid()
      ensures error == if old(draining) then Some(ErrDraining)
                       else if ifFree && |old(sessions)| > 0 then Some(ErrSessionExists) else None
      ensures baselines == if error.Some? then old(baselines) else old(baselines) + [sample]
      ensures error.None? ==>
                Meters(old(baselines), old(oomKills), sample, Oom.Before(sample.Some?), baselines, oomKills)
      ensures error == Respond(old(Snapshot()), CreateEnter(ifFree))
      ensures error.Some? ==> Snapshot() == old(Snapshot())
      ensures error.None? ==> Via(old(Snapshot()), BeginSteps(ifFree, killed, id), Snapshot())
      ensures error.None? ==> Begun(old(Snapshot()), ifFree, id, Snapshot())
    {
      ghost var s := Snapshot();
      killed := [];
      ViaOneReachable(s, CreateEnter(ifFree));
      if draining {
        assert Snapshot() == s;
        return Some(ErrDraining), killed;
      }
      if ifFree && |sessions| > 0 {
        assert Snapshot() == s;
        return Some(ErrSessionExists), killed;
      }
      error := None;
      lock := Killing(Call(ifFree, sessions.Keys));
      ghost var s1 := Snapshot();
      OneSession(s1);
      ghost var s2;
      killed, s2 := KillAndLaunch(id, sample);
      BeginVia(s, ifFree, killed, s2, id);
    }

    // create after a probe that failed.
    method CreateAbort() returns (error: Response)
      requires Valid() && lock.Probing?
      modifies this`ctxs, this`lock
      ensures Valid() && lock.Free? && sessions == map[] && error == ErrProbe
      ensures var h := old(lock).h;
              h < |old(ctxs)| == |ctxs| && ctxs[h].cause == if old(ctxs)[h].cause.None? then Some(Canceled)
                                                            else old(ctxs)[h].cause
      ensures Respond(old(Snapshot()), ProbeFailed) == Some(error)
      ensures Via(old(Snapshot()), [ProbeFailed], Snapshot())
    {
      ghost var s := Snapshot();
      ReachableInRange(s);
      EndContext(lock.h, Canceled);
      lock := Free;
      error := ErrProbe;
      ViaOneReachable(s, ProbeFailed);
    }

    // create after a probe that succeeded.
    method CreateCommit() returns (id: Id)
      requires Valid() && lock.Probing?
      modifies this`sessions, this`gauge, this`created, this`ctxs, this`lock
      ensures Valid() && lock.Free? && sessions == map[id := old(lock).h]
      ensures var h := old(lock).h;
              && h < |old(ctxs)| && id == old(ctxs)[h].id
              && ctxs == old(ctxs)[h := old(ctxs)[h].(created := true)]
              && Respond(Apply(old(Snapshot()), ProbeSucceeded), Activate) == Some(Created(id))
      ensures gauge == 1 && created == old(created) + 1
      ensures Via(old(Snapshot()), [ProbeSucceeded, Activate], Snapshot())
    {
      ghost var s := Snapshot();
      ReachableInRange(s);
      var h := lock.h;
      id := ctxs[h].id;
      sessions := sessions[id := h];
      gauge := 1;
      created := created + 1;
      ctxs := ctxs[h := ctxs[h].(created := true)];
      lock := Free;
      CommittedVia(s);
      ViaReachable(s, [ProbeSucceeded, Activate], Snapshot());
    }

    // ---- The rest

    method Drain()
      requires Valid() && lock.Free?
      modifies this`draining
      ensures Valid() && draining && Respond(old(Snapshot()), DrainSet) == Some(DrainDone)
      ensures Via(old(Snapshot()), [DrainSet], Snapshot())
    {
      ghost var s := Snapshot();
      draining := true;
      ViaOneReachable(s, DrainSet);
    }

    method Advance(d: nat)
      requires Valid()
      modifies this`now
      ensures Valid() && now == old(now) + d && Via(old(Snapshot()), [Tick(d)], Snapshot())
    {
      ghost var s := Snapshot();
      now := now + d;
      ViaOneReachable(s, Tick(d));
    }

    method FireDeadline(h: nat)
      requires Valid() && Enabled(Snapshot(), DeadlineFires(h))
      modifies this`ctxs
      ensures Valid() && Via(old(Snapshot()), [DeadlineFires(h)], Snapshot())
      ensures ctxs == old(ctxs)[h := old(ctxs)[h].(cause := Some(DeadlineExceeded), endedAt := now)]
    {
      ghost var s := Snapshot();
      EndContext(h, DeadlineExceeded);
      ViaOneReachable(s, DeadlineFires(h));
    }

    // The part of launch that updates the metrics, after chromium has exited or could not be started.
    method MeasureLaunch(h: nat, outcome: Outcome)
      requires h < |ctxs|
      modifies this`ctxs, this`durations, this`finished, this`failed
      ensures Snapshot() == Measure(old(Snapshot()), h, outcome)
      ensures Counted(old(Snapshot()), h, outcome, Snapshot())
    {
      var cause := ctxs[h].cause;
      ctxs := ctxs[h := ctxs[h].(launch := Measured, exit := Some(outcome))];
      if outcome.Exited? {
        durations := durations + 1;
        if !outcome.ok && cause != Some(Canceled) {
          failed := failed + 1;
          ctxs := ctxs[h := ctxs[h].(execution := Some(Failed))];
        } else {
          finished := finished + 1;
          ctxs := ctxs[h := ctxs[h].(execution := Some(Finished))];
        }
      }
    }

    // The accounting of OOM kills, after chromium has exited.
    method AccountKills(h: nat, sample: Option<Oom.uint64>)
      requires h < |baselines|
      modifies this`baselines, this`oomKills
      ensures baselines == old(baselines)[h := None]
      ensures oomKills == old(oomKills) + KillsBetween(old(baselines)[h], sample)
      ensures Meters(old(baselines), old(oomKills), sample, Oom.After(h, sample.Some?), baselines, oomKills)
    {
      oomKills := Oom.Account(baselines[h], sample, oomKills);
      baselines := baselines[h := None];
    }

    /** launch, after chromium has exited or could not be started: the accounting of OOM kills, for which the kill
        counter is sampled again, and the metrics. */
    method FinishLaunch(h: nat, outcome: Outcome, sample: Option<Oom.uint64>)
      requires Valid() && Enabled(Snapshot(), LaunchExits(h, outcome))
      modifies this`ctxs, this`durations, this`finished, this`failed, this`baselines, this`oomKills
      ensures Valid() && Via(old(Snapshot()), [LaunchExits(h, outcome)], Snapshot())
      ensures Counted(old(Snapshot()), h, outcome, Snapshot())
      ensures outcome.NoTempDir? ==> baselines == old(baselines) && oomKills == old(oomKills)
      ensures outcome.Exited? ==> h < |old(baselines)| && baselines == old(baselines)[h := None]
                                  && oomKills == old(oomKills) + KillsBetween(old(baselines)[h], sample)
      ensures outcome.Exited? ==>
                Meters(old(baselines), old(oomKills), sample, Oom.After(h, sample.Some?), baselines, oomKills)
    {
      ghost var s := Snapshot();
      if outcome.Exited? {
        AccountKills(h, sample);
      }
      assert Snapshot() == s;
      MeasureLaunch(h, outcome);
      ViaOneReachable(s, LaunchExits(h, outcome));
    }

    // wg.Done(), when the launch goroutine returns.
    method ReturnLaunch(h: nat)
      requires Valid() && Enabled(Snapshot(), LaunchReturns(h))
      modifies this`ctxs, this`wg
      ensures Valid() && wg == old(wg) - 1 >= 0 && Via(old(Snapshot()), [LaunchReturns(h)], Snapshot())
      ensures ctxs == old(ctxs)[h := old(ctxs)[h].(launch := Returned)]
    {
      ghost var s := Snapshot();
      ctxs := ctxs[h := ctxs[h].(launch := Returned)];
      wg := wg - 1;
      ViaOneReachable(s, LaunchReturns(h));
      ReachableInRange(Snapshot());
    }
  }
}
