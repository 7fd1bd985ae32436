/** The supervisor seen from outside: one slot that holds one session ID or none. Every interleaving of the map-based
    supervisor gives its callers the answers that this machine gives to the same operations, one at a time. */
module SingleSlot {
  import opened Options
  import opened Protocol
  import opened Invariant

  datatype Slot = Slot(owner: Option<Id>, draining: bool)

  datatype Operation =
    // Create or CreateIfFree; ready is the new session's ID, or None if chromium does not answer the probe
    | Acquire(ifFree: bool, ready: Option<Id>)
    | Release(id: Id)
    | Expire(id: Id)
    | Drain
    | Lookup(id: Id)
    | List

  // A failed probe leaves the slot empty, even if it was taken: Create kills first.
  function Do(slot: Slot, op: Operation): (Slot, Response) {
    match op
    case Acquire(ifFree, ready) =>
      if slot.draining then (slot, ErrDraining)
      else if ifFree && slot.owner.Some? then (slot, ErrSessionExists)
      else if ready.None? then (slot.(owner := None), ErrProbe)
      else (slot.(owner := ready), Created(ready.value))
    case Release(id) =>
      if slot.owner == Some(id) then (slot.(owner := None), Found(true)) else (slot, Found(false))
    case Expire(id) =>
      if slot.owner == Some(id) then (slot.(owner := None), Reaped(true)) else (slot, Reaped(false))
    case Drain => (slot.(draining := true), DrainDone)
    case Lookup(id) => (slot, Found(slot.owner == Some(id)))
    case List => (slot, Ids(Owners(slot)))
  }

  function Owners(slot: Slot): set<Id> {
    if slot.owner.Some? then {slot.owner.value} else {}
  }

  // The IDs that callers can see. A create that still holds the mutex has not happened yet.
  function Visible(s: State): set<Id> {
    match s.lock
    case Killing(call) => call.before
    case KillCancelled(call, _, _) => call.before
    case KillRemoved(call, _) => call.before
    case Probing(call, _) => call.before
    case Inserted(call, _) => call.before
    case _ => s.sessions.Keys
  }

  ghost predicate Shows(s: State, slot: Slot) {
    Visible(s) == Owners(slot) && s.draining == slot.draining
  }

  // The operation that a step completes, if it completes one.
  function Completes(s: State, step: Step): Option<Operation>
    requires Enabled(s, step)
  {
    match step
    case CreateEnter(ifFree) =>
      if s.draining || (ifFree && |s.sessions| > 0) then Some(Acquire(ifFree, None)) else None
    case ProbeFailed => Some(Acquire(s.lock.call.ifFree, None))
    case Activate => Some(Acquire(s.lock.call.ifFree, Some(s.ctxs[s.lock.h].id)))
    case DeleteEnter(id) => Some(Release(id))
    case ReapEnter(h) => Some(Expire(s.ctxs[h].id))
    case DrainSet => Some(Drain)
    case SessionRead(id) => Some(Lookup(id))
    case SessionsRead => Some(List)
    case _ => None
  }

  // Steps in the middle of a critical section are invisible.
  lemma HiddenStep(s: State, step: Step, slot: Slot)
    requires LockInv(s) && Enabled(s, step) && Shows(s, slot) && Completes(s, step).None? && !Outside(step)
    ensures Respond(s, step).None? && Shows(Apply(s, step), slot)
  {
  }

  // So are the clock, the deadlines and the launches.
  lemma OutsideStep(s: State, step: Step, slot: Slot)
    requires Enabled(s, step) && Shows(s, slot) && Completes(s, step).None? && Outside(step)
    ensures Respond(s, step).None? && Shows(Apply(s, step), slot)
  {
  }

  lemma CreateStep(s: State, step: Step, slot: Slot)
    requires LockInv(s) && Enabled(s, step) && Shows(s, slot) && Completes(s, step).Some?
    requires step.CreateEnter? || step.ProbeFailed? || step.Activate?
    ensures Respond(s, step) == Some(Do(slot, Completes(s, step).value).1)
    ensures Shows(Apply(s, step), Do(slot, Completes(s, step).value).0)
  {
  }

  lemma OtherStep(s: State, step: Step, slot: Slot)
    requires LockInv(s) && Enabled(s, step) && Shows(s, slot) && Completes(s, step).Some?
    requires step.DrainSet? || step.SessionRead? || step.SessionsRead?
    ensures Respond(s, step) == Some(Do(slot, Completes(s, step).value).1)
    ensures Shows(Apply(s, step), Do(slot, Completes(s, step).value).0)
  {
  }

  lemma TakeStep(s: State, step: Step, slot: Slot)
    requires LockInv(s) && Enabled(s, step) && Shows(s, slot)
    requires step.DeleteEnter? || step.ReapEnter?
    ensures Respond(s, step) == Some(Do(slot, Completes(s, step).value).1)
    ensures Shows(Apply(s, step), Do(slot, Completes(s, step).value).0)
  {
  }

  /** Forward simulation, step by step: what a step completes has on the slot the effect, and to the caller the
      answer, that the single-slot machine gives; a step that completes nothing is invisible. */
  lemma StepRefines(s: State, step: Step, slot: Slot)
    requires Inv(s) && Enabled(s, step) && Shows(s, slot)
    ensures match Completes(s, step)
            case None => Respond(s, step).None? && Shows(Apply(s, step), slot)
            case Some(op) => Respond(s, step) == Some(Do(slot, op).1) && Shows(Apply(s, step), Do(slot, op).0)
  {
    if Completes(s, step).None? && Outside(step) {
      OutsideStep(s, step, slot);
    } else if Completes(s, step).None? {
      HiddenStep(s, step, slot);
    } else if step.DeleteEnter? || step.ReapEnter? {
      TakeStep(s, step, slot);
    } else if step.DrainSet? || step.SessionRead? || step.SessionsRead? {
      OtherStep(s, step, slot);
    } else {
      CreateStep(s, step, slot);
    }
  }

  // ---- Whole runs

  function Operations(s: State, steps: seq<Step>): seq<Operation>
    requires Possible(s, steps)
    decreases |steps|
  {
    if steps == [] then []
    else
      var rest := Operations(Apply(s, steps[0]), steps[1..]);
      match Completes(s, steps[0])
      case None => rest
      case Some(op) => [op] + rest
  }

  function Responses(s: State, steps: seq<Step>): seq<Response>
    requires Possible(s, steps)
    decreases |steps|
  {
    if steps == [] then []
    else
      var rest := Responses(Apply(s, steps[0]), steps[1..]);
      match Respond(s, steps[0])
      case None => rest
      case Some(r) => [r] + rest
  }

  function DoAll(slot: Slot, ops: seq<Operation>): (Slot, seq<Response>)
    decreases |ops|
  {
    if ops == [] then (slot, [])
    else
      var (slot1, r) := Do(slot, ops[0]);
      var (slot2, rs) := DoAll(slot1, ops[1..]);
      (slot2, [r] + rs)
  }

  /** Every interleaving answers its callers as the single-slot machine answers the same operations in the order in
      which they completed, and shows the slot that machine ends with. */
  lemma {:induction false} RunRefines(s: State, steps: seq<Step>, slot: Slot)
    requires Inv(s) && Run(s, steps) && Shows(s, slot)
    ensures Responses(s, steps) == DoAll(slot, Operations(s, steps)).1
    ensures Shows(Exec(s, steps), DoAll(slot, Operations(s, steps)).0)
    decreases |steps|
  {
    if steps != [] {
      var s1 := Apply(s, steps[0]);
      StepRefines(s, steps[0], slot);
      StepInv(s, steps[0]);
      match Completes(s, steps[0])
      case None =>
        RunRefines(s1, steps[1..], slot);
      case Some(op) =>
        RunRefines(s1, steps[1..], Do(slot, op).0);
        var rest := Operations(s1, steps[1..]);
        assert ([op] + rest)[1..] == rest;
    }
  }

  lemma SupervisorRefinesSlot(timeout: nat, steps: seq<Step>)
    requires Run(Initial(timeout), steps)
    ensures var ops := Operations(Initial(timeout), steps);
            && Responses(Initial(timeout), steps) == DoAll(Slot(None, false), ops).1
            && Shows(Exec(Initial(timeout), steps), DoAll(Slot(None, false), ops).0)
  {
    InitialInv(timeout);
    RunRefines(Initial(timeout), steps, Slot(None, false));
  }

  // ---- Exclusivity of CreateIfFree

  function Repeat(r: Response, n: nat): seq<Response> {
    seq(n, _ => r)
  }

  // The answers to the calls of Create and CreateIfFree among all answers.
  function CreateAnswers(rs: seq<Response>): seq<Response> {
    if rs == [] then []
    else
      var rest := CreateAnswers(rs[1..]);
      match rs[0]
      case ErrDraining => [rs[0]] + rest
      case ErrSessionExists => [rs[0]] + rest
      case ErrProbe => [rs[0]] + rest
      case Created(_) => [rs[0]] + rest
      case _ => rest
  }

  // Nobody deletes or drains, and all creates are CreateIfFree. Callers may look, and AfterFuncs may run.
  ghost predicate OnlyAcquires(ops: seq<Operation>) {
    forall op :: op in ops ==> (op.Acquire? && op.ifFree) || op.Expire? || op.Lookup? || op.List?
  }

  lemma {:induction false} TakenSlotRejects(slot: Slot, ops: seq<Operation>)
    requires slot.owner.Some? && !slot.draining && OnlyAcquires(ops)
    requires Reaped(true) !in DoAll(slot, ops).1
    ensures DoAll(slot, ops).0 == slot
    ensures var answers := CreateAnswers(DoAll(slot, ops).1); answers == Repeat(ErrSessionExists, |answers|)
  {
    if ops != [] {
      var (slot1, r) := Do(slot, ops[0]);
      var (slot2, rs) := DoAll(slot1, ops[1..]);
      var all := DoAll(slot, ops).1;
      assert ops[0] in ops && all[0] == r && all[1..] == rs;
      assert r != Reaped(true) && slot1 == slot;
      TakenSlotRejects(slot, ops[1..]);
    }
  }

  ghost predicate OneWinner(answers: seq<Response>, id: Id) {
    answers != [] && answers == [Created(id)] + Repeat(ErrSessionExists, |answers| - 1)
  }

  lemma {:induction false} FirstAcquireWins(ops: seq<Operation>)
    requires OnlyAcquires(ops)
    requires ErrProbe !in DoAll(Slot(None, false), ops).1 && Reaped(true) !in DoAll(Slot(None, false), ops).1
    ensures var (slot, rs) := DoAll(Slot(None, false), ops);
            || (CreateAnswers(rs) == [] && slot == Slot(None, false))
            || (slot.owner.Some? && OneWinner(CreateAnswers(rs), slot.owner.value))
  {
    if ops != [] {
      var slot := Slot(None, false);
      var (slot1, r) := Do(slot, ops[0]);
      var (slot2, rs) := DoAll(slot1, ops[1..]);
      var all := DoAll(slot, ops).1;
      assert ops[0] in ops && all[0] == r && all[1..] == rs;
      assert r != ErrProbe && r != Reaped(true);
      if ops[0].Acquire? {
        TakenSlotRejects(slot1, ops[1..]);
      } else {
        FirstAcquireWins(ops[1..]);
      }
    }
  }

  /** Any number of concurrent CreateIfFree calls on a free instance that is not draining, with probes that succeed
      and no session terminated meanwhile: one of them gets the slot, every other one is told that a session exists,
      and at the end it is still the winner's session that callers see. */
  lemma ExactlyOneAcquires(s: State, steps: seq<Step>)
    requires Inv(s) && Run(s, steps) && s.lock.Free? && s.sessions == map[] && !s.draining
    requires OnlyAcquires(Operations(s, steps))
    requires ErrProbe !in Responses(s, steps) && Reaped(true) !in Responses(s, steps)
    requires CreateAnswers(Responses(s, steps)) != []
    ensures exists id :: OneWinner(CreateAnswers(Responses(s, steps)), id) && Visible(Exec(s, steps)) == {id}
  {
    RunRefines(s, steps, Slot(None, false));
    FirstAcquireWins(Operations(s, steps));
    var slot := DoAll(Slot(None, false), Operations(s, steps)).0;
    assert Visible(Exec(s, steps)) == {slot.owner.value};
  }
}
