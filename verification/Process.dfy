/** The shutdown goroutine of `run`, as an object that goes through its phases next to a supervisor. */
module Process {
  import opened Protocol
  import opened Shutdown
  import Supervisor

  ghost predicate Leads(timeout: nat, es: seq<Event>, y: System) {
    Shutdown.Possible(Shutdown.Start(timeout), es) && End(Shutdown.Start(timeout), es) == y
  }

  // Some interleaving of requests, the environment and the shutdown goroutine leads from the start to y.
  ghost predicate Arrives(y: System) {
    exists timeout: nat, es :: Leads(timeout, es, y)
  }

  lemma {:induction false} EndOfOneMore(y: System, es: seq<Event>, e: Event)
    requires Shutdown.Possible(y, es) && Can(End(y, es), e)
    ensures Shutdown.Possible(y, es + [e]) && End(y, es + [e]) == After(End(y, es), e)
    decreases |es|
  {
    if es == [] {
      assert [e][1..] == [];
      assert es + [e] == [e];
    } else {
      EndOfOneMore(After(y, es[0]), es[1..], e);
      assert (es + [e])[1..] == es[1..] + [e];
    }
  }

  lemma ArrivesNext(y: System, e: Event)
    requires Arrives(y) && Can(y, e)
    ensures Arrives(After(y, e))
  {
    var timeout: nat, es :| Leads(timeout, es, y);
    EndOfOneMore(Shutdown.Start(timeout), es, e);
    assert Leads(timeout, es + [e], After(y, e));
  }

  // What is known in every phase, whatever happened.
  lemma ArrivesInv(y: System)
    requires Arrives(y)
    ensures SystemInv(y)
  {
    var timeout: nat, es :| Leads(timeout, es, y);
    RunKeepsInv(Shutdown.Start(timeout), es);
  }

  class Process {
    const supervisor: Supervisor.Supervisor
    var phase: Phase

    function Snapshot(): System
      reads this, supervisor
    {
      System(supervisor.Snapshot(), phase)
    }

    ghost predicate Valid()
      reads this, supervisor
    {
      supervisor.Valid() && Arrives(Snapshot())
    }

    constructor (timeout: nat)
      ensures Valid() && fresh(supervisor) && Snapshot() == Shutdown.Start(timeout)
    {
      supervisor := new Supervisor.Supervisor(timeout);
      phase := Serving;
      new;
      assert Leads(timeout, [], Snapshot());
    }

    // The main context ends: a signal arrived, or the HTTP server failed.
    method ContextDone()
      requires Valid() && phase.Serving?
      modifies this`phase
      ensures Valid() && Snapshot() == After(old(Snapshot()), Signal)
      ensures phase == Signalled(supervisor.now)
    {
      ArrivesNext(Snapshot(), Signal);
      phase := Signalled(supervisor.now);
    }

    // Drains the supervisor, as soon as its mutex is free.
    method DrainSupervisor()
      requires Valid() && phase.Signalled? && supervisor.lock.Free?
      modifies this`phase, supervisor`draining
      ensures Valid() && Snapshot() == After(old(Snapshot()), CallDrain)
      ensures phase == Drained(old(phase).since, supervisor.now) && supervisor.draining
      ensures DeadlinesBy(supervisor.Snapshot(), supervisor.now + supervisor.timeout)
    {
      ArrivesNext(Snapshot(), CallDrain);
      supervisor.Drain();
      phase := Drained(phase.since, supervisor.now);
      ArrivesInv(Snapshot());
    }

    method StartGrace()
      requires Valid() && phase.Drained?
      modifies this`phase
      ensures Valid() && Snapshot() == After(old(Snapshot()), MakeGrace)
      ensures phase == Waiting(old(phase).since, old(phase).at, supervisor.now + supervisor.timeout + 10_000_000_000)
      ensures phase.at + supervisor.timeout + 10_000_000_000 <= phase.expires
    {
      ArrivesNext(Snapshot(), MakeGrace);
      phase := Waiting(phase.since, phase.at, supervisor.now + supervisor.timeout + MARGIN);
      ArrivesInv(Snapshot());
    }

    /** The select, once at least one of its cases is ready: the WaitGroup is at zero, or the grace period is over. If
        both are, either may be taken. The HTTP server is shut down next. */
    method Select(preferWait: bool) returns (waited: bool)
      requires Valid() && phase.Waiting?
      requires supervisor.wg == 0 || phase.expires <= supervisor.now
      modifies this`phase
      ensures phase == ShuttingDown(old(phase).since, old(phase).at, old(phase).expires, supervisor.now, waited)
      ensures waited ==> supervisor.wg == 0
      ensures !waited ==> old(phase).expires <= supervisor.now
      ensures Can(old(Snapshot()), if waited then WaitReturns else GraceExpires)
      ensures Valid() && Snapshot() == After(old(Snapshot()), if waited then WaitReturns else GraceExpires)
    {
      waited := supervisor.wg == 0 && (preferWait || supervisor.now < phase.expires);
      ArrivesNext(Snapshot(), if waited then WaitReturns else GraceExpires);
      phase := ShuttingDown(phase.since, phase.at, phase.expires, supervisor.now, waited);
    }
  }
}
