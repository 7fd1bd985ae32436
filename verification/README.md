# Crocochrome: a verified model

Crocochrome supervises one headless Chromium at a time. This project models the parts of it whose correctness is spread
over several functions or over several goroutines, and proves what they promise for every input, every interleaving and
every run.

Check everything with `dafny verify dfyconfig.toml`.

## What is modelled

**The session protocol** (`Protocol.dfy`). The supervisor is a state machine whose steps are single actions on shared
state: taking the mutex and looking at the guards, cancelling a context, deleting a map entry, updating the metrics,
starting a launch, inserting into the map, and so on. The steps of a critical section are separate, and the steps that
need no mutex (the clock, a deadline timer, the end and the return of a launch) can come between any two of them. In
particular `create` holds the mutex across its probe, during which deadlines fire and launches return. A `Context`
record stands for one `context.WithTimeout` and remembers the first cause of its end, whether its AfterFunc has run, how
far its launch is, and under which counters its session has been counted. Contexts are numbered; session IDs are strings
that the map turns into those numbers, as the cancel function in the source's map entry does.

- `Invariant.dfy` has the inductive invariant and its preservation by every step; it turns on the newest context, since
  all older ones are settled.
- `Safety.dfy` has the consequences for reachable states and for runs.
- `SingleSlot.dfy` has the refinement of a one-slot machine, with the answers that callers get.
- `Quiescence.dfy` has the bound on outstanding work and the absence of leaked sessions.
- `Supervisor.dfy` has the supervisor as a class with the source's methods. Each is proved to be a run of protocol steps.
  An object is valid if its state is reachable, so everything in `Safety.dfy` holds of it.
- `Shutdown.dfy` and `Process.dfy` have the shutdown goroutine of `run` next to the supervisor, as a machine and as a
  class; `ShutdownTime.dfy` has the time from the signal to the shutdown of the HTTP server.

**The readiness probe** (`Probe.dfy`): the retry loop with its integer backoff and its sleeps that run past the deadline.

**OOM kills** (`OomReader.dfy`, `OomAccounting.dfy`): the scan of the memory events file, and the attribution of kills to
launches.

**Process metrics** (`Cmdline.dfy`, `ProcMetrics.dfy`): the classification of processes by their command line, and the
walk over `cgroup.procs`.

**Build settings** (`BuildInfo.dfy`): sorting by key and value, searching by key alone.

`Options.dfy`, `Sums.dfy` and `Strings.dfy` hold optional values, totals over sequences and the pieces of Go's string
packages that are used.

## Assumptions

- A new session ID is not that of a context whose AfterFunc is still to come (`Protocol.Fresh`). The source draws six
  random bytes and checks nothing. `Safety.FreshnessIsExact` shows that this is exactly what correct attribution needs:
  with a collision, the AfterFunc of the old session takes the new one.
- Time passes freely, deadlines fire when they are due or later, launches return when they like. Where a bound matters, it
  is a parameter: `latency` and `teardown` in `Shutdown.dfy`, `late` in `Probe.dfy`, `hold` in `ShutdownTime.dfy`, where
  the shutdown goroutine itself and the critical sections without a probe take no time.
- Random IDs, probe outcomes, exit statuses, file contents and the contents of /proc are arguments.

## Where the code and its documentation differ

The model follows the code.

- The comment at internal/crocochrome/crocochrome.go:51-52 and the supervisor document say that the WaitGroup counts open
  sessions. It counts launches that have not returned: `Safety.LaunchesCanOverlap` reaches two with an empty map,
  `Safety.WaitCanReturnEarly` zero with a session in it, and `Safety.WaitGroupAgainstSessions` says exactly when the
  numbers agree, and when a return of `Wait` means that no session is open.
- The comment at internal/crocochrome/crocochrome.go:393-395 says that `Wait` returns within the session timeout after
  draining. The timers' latency and the teardown come on top: by `Shutdown.WaitIsExact` it takes at most m longer exactly
  if they are at most m together, so the comment holds exactly if they take no time. cmd/crocochrome/main.go:119-121 calls
  the ten seconds of margin sufficient by construction. `Shutdown.GraceIsExact` shows that they are exactly when latency
  and teardown stay below them together.
- The comment at cmd/crocochrome/main.go:122-127 counts the grace time from the signal. Drain first waits for the mutex,
  which the supervisor document says is held briefly, and which `create` holds for its probe.
  `ShutdownTime.SignalToShutdownIsExact` has the exact time if launches do not return, and
  `ShutdownTime.SignalToShutdownOnTime` shows that the comment's time is enough if they do, with latency and teardown
  within the ten seconds, and no create comes in between.
- The chromium client document says that the probe gives up after about two seconds. `Probe.ProbeTimeIsExact` shows that
  it takes up to 759.375 ms and twice the lateness more, and no less will do for all attempts.
- The comment at internal/crocochrome/cgroup.go:75 says that only I/O failures are errors. A malformed or too large number
  is one too, and so is a line that does not fit the scanner's buffer: `OomReader.ErrorsBesideFailures` says exactly when,
  `OomReader.MalformedIsAnError` and `OomReader.OverlongIsAnError` are examples.
- DEVELOPMENT.md:67 gives sessions two minutes at shutdown. The code gives them the session timeout and ten seconds.
- Lines of `cgroup.procs` that are not numbers are skipped, but the file is trimmed as a whole first, so a padded first or
  last number is read. `ProcMetrics.CollectedAreTheNumbers` gives the exact condition, `ProcMetrics.PaddedNumberIsCollected`
  an example.

## Model

| member | source | states |
|---|---|---|
| `Invariant.StepInv` | internal/crocochrome/crocochrome.go:217-306 | every step of every goroutine keeps the whole invariant: soundness of each context, distinct IDs of outstanding AfterFuncs, the map against the holder of the mutex, the WaitGroup and all counters against the contexts, and the balance of created and terminated sessions |
| `Invariant.RunInv` | internal/crocochrome/crocochrome.go:217-358 | so does every run of any length with fresh IDs |
| `Invariant.StepLock` | internal/crocochrome/crocochrome.go:339-358 | in every phase of every critical section all contexts but the newest are settled, and the map holds at most the newest |
| `Invariant.StepCount` | internal/crocochrome/crocochrome.go:436-451 | every step moves the WaitGroup and each of the counters by what it does to the contexts |
| `Invariant.StepBalance` | internal/crocochrome/crocochrome.go:436-451 | created sessions are in the map or terminated, and the gauge follows the map, up to what the holder of the mutex still has to record |
| `Invariant.ReaperFindsOwn` | internal/crocochrome/crocochrome.go:255-266 | the AfterFunc of a context that finds its ID in the map finds its own session, and its deadline ended it |
| `Safety.OneSession` | internal/crocochrome/crocochrome.go:38-43 | in every reachable state at most one session is in the map, all contexts but the newest have ended, a context that has not ended is in the map or in the hands of the holder of the mutex, and whatever is in the map has its AfterFunc still to come |
| `Safety.WhenTheMutexIsFree` | internal/crocochrome/crocochrome.go:311-316 | with the mutex free, a session that is not in the map has been killed, the gauge is the number of sessions, and created is the number of sessions plus deleted, timed out and replaced |
| `Safety.CountersAreExact` | internal/crocochrome/crocochrome.go:436-451 | the lifecycle counters are numbers of contexts, each counted in once and counted out under one reason |
| `Safety.LaunchAccounting` | internal/crocochrome/crocochrome.go:538-603 | the WaitGroup is the number of launches that have not returned; every launch that ran chromium is one duration and one of finished or failed; a nonzero exit in a session ended by its deadline is failed |
| `Safety.ExitIsCounted` | internal/crocochrome/crocochrome.go:538-603 | an exit is recorded as it was, as one duration and as one failure if its status was nonzero and the session had not been cancelled, one finished execution otherwise; a launch without a directory as none of them |
| `Safety.CancelledNeverFails` | internal/crocochrome/crocochrome.go:584-603 | a launch still running when its session is cancelled is never counted as failed, over any run |
| `Safety.FateIsPermanent` | internal/crocochrome/crocochrome.go:258-265 | over any run the first cause that ended a context, the reason of a termination, and the exit and execution state of a launch stay |
| `Safety.TimeoutsAreDeadlines` | internal/crocochrome/crocochrome.go:259-265 | a termination is counted as timeout only if the deadline ended the context, after the full session timeout |
| `Safety.ReplacedOnlyByCreate` | internal/crocochrome/crocochrome.go:412-434 | a termination is counted as replaced only in the killExisting loop of a plain Create, and otherwise under the reason of the takeSession that removed the session |
| `Safety.DeletedNeedsDelete` | internal/crocochrome/crocochrome.go:323-325 | without calls of Delete the deleted counter does not move |
| `Safety.TimedOutNeedsReaper` | internal/crocochrome/crocochrome.go:258-266 | without AfterFuncs the timeout counter does not move |
| `Safety.LateReaperChangesNothing` | internal/crocochrome/crocochrome.go:259-263 | the AfterFunc of a session that has already been terminated finds nothing and changes nothing |
| `Safety.FreshnessIsExact` | internal/crocochrome/crocochrome.go:687-697 | terminations stay correctly attributed on every continuation if and only if the new ID is not that of an outstanding AfterFunc |
| `Safety.EarlierSessionIsTerminated` | internal/crocochrome/crocochrome.go:201-207 | of two sessions ever created, the earlier one has been terminated, is cancelled and is out of the map |
| `Safety.AcquireNeverReplaces` | internal/crocochrome/crocochrome.go:209-213 | in any run without a plain Create no session is replaced |
| `Safety.DrainingOnlyShrinks` | internal/crocochrome/crocochrome.go:393-400 | after Drain, over any run, no context is made, the WaitGroup only goes down, and no session enters the map |
| `Safety.LaunchesCanOverlap` | internal/crocochrome/crocochrome.go:253-278 | a run in which two launches are in the WaitGroup at once and the map is empty |
| `Safety.WaitCanReturnEarly` | internal/crocochrome/crocochrome.go:402-405 | a run in which the browser exits by itself, after which the WaitGroup is zero and the session still in the map |
| `Safety.WaitGroupAgainstSessions` | internal/crocochrome/crocochrome.go:51-53 | with the mutex free, the WaitGroup is the number of sessions if and only if as many launches linger without a session as sessions are deserted by their launch, and with the WaitGroup at zero the map is empty if and only if no session is deserted |
| `SingleSlot.StepRefines` | internal/crocochrome/crocochrome.go:215-306 | each step is invisible, or has the effect and gives the answer of one operation of the single-slot machine |
| `SingleSlot.SupervisorRefinesSlot` | internal/crocochrome/crocochrome.go:173-213 | over every run the supervisor gives its callers the answers of the single-slot machine, errors included, and shows its slot |
| `SingleSlot.ExactlyOneAcquires` | internal/crocochrome/crocochrome.go:209-227 | of any number of concurrent CreateIfFree calls on a free instance, with probes that succeed and no terminations, one gets the slot and all others are told that a session exists |
| `Quiescence.NoSessionIsLeaked` | internal/crocochrome/crocochrome.go:255-278 | from any reachable state, a run without new calls makes boundedly many steps, and if it goes on past the last deadline for as long as it can, the map is empty, the WaitGroup zero and every session terminated |
| `Quiescence.WorkIsBounded` | internal/crocochrome/crocochrome.go:255-306 | every finishing step uses up some of the work over contexts, AfterFuncs, launches and the critical section |
| `Quiescence.StuckIsQuiet` | internal/crocochrome/crocochrome.go:255-266 | a state with all deadlines passed and no finishing step possible has nothing left |
| `Supervisor.Supervisor.constructor` | internal/crocochrome/crocochrome.go:160-171 | a new supervisor is in the initial state |
| `Supervisor.Supervisor.Session` | internal/crocochrome/crocochrome.go:173-184 | found exactly if the ID is in the map, and then it is that ID's context, with its AfterFunc outstanding; the protocol answers the same |
| `Supervisor.Supervisor.Sessions` | internal/crocochrome/crocochrome.go:186-199 | the IDs in the map, each once, at most one; the protocol answers the same |
| `Supervisor.Supervisor.TakeSession` | internal/crocochrome/crocochrome.go:339-358 | a known ID leaves the map, one termination is counted under the given reason and no other, the gauge is zero, its context has ended and keeps its first cause, and all other contexts are as before; an unknown ID changes nothing |
| `Supervisor.Supervisor.Delete` | internal/crocochrome/crocochrome.go:308-337 | the same under the reason deleted, for exactly the IDs in the map; the answer is that of the protocol, and the section is a run of its steps |
| `Supervisor.Supervisor.Reap` | internal/crocochrome/crocochrome.go:255-266 | the same for the AfterFunc under the reason timeout, which has then run |
| `Supervisor.Supervisor.KillExisting` | internal/crocochrome/crocochrome.go:427-434 | on any map: it is empty afterwards, exactly the sessions that were in it have been cancelled and counted as replaced, all else is as before, and the loop is a run of protocol steps |
| `Supervisor.Supervisor.CreateBegin` | internal/crocochrome/crocochrome.go:217-278 | ErrDraining if draining, else ErrSessionExists if the call is CreateIfFree and the map not empty, with nothing changed; otherwise every session killed and counted as replaced, the sample kept as the new launch's baseline, one more launch in the WaitGroup, a context with the given ID and a deadline one session timeout away, every earlier context ended, and the mutex held |
| `Supervisor.Supervisor.CreateAbort` | internal/crocochrome/crocochrome.go:283-290 | after a failed probe the context has been cancelled, unless it had ended, the mutex is free and the map empty |
| `Supervisor.Supervisor.CreateCommit` | internal/crocochrome/crocochrome.go:292-305 | after a successful probe the map holds just the new session, under the ID of its context, which is the answer; one more session is counted as created, and the gauge is one |
| `Supervisor.Supervisor.FireDeadline` | internal/crocochrome/crocochrome.go:240 | the deadline ends a context that has not ended, a step of the protocol |
| `Supervisor.Supervisor.Drain` | internal/crocochrome/crocochrome.go:393-400 | draining from then on, a step of the protocol |
| `Supervisor.Supervisor.FinishLaunch` | internal/crocochrome/crocochrome.go:538-603 | the exit is recorded and counted by its own status and the session's cause, and the OOM metric grows by the kills between the two samples, if chromium ran, both could be read and the counter has not gone back; these are the steps of the protocol and of the OOM accounting |
| `Supervisor.Supervisor.ReturnLaunch` | internal/crocochrome/crocochrome.go:272-278 | the WaitGroup goes down by one and never below zero |
| `Shutdown.ShutdownOrder` | cmd/crocochrome/main.go:118-163 | over every run: from Drain on all deadlines are at most the session timeout after it, and the HTTP server is shut down only after Drain and only with the WaitGroup at zero or the grace period over |
| `Shutdown.GraceIsEnough` | cmd/crocochrome/main.go:119-126 | with latency and teardown below ten seconds together, no launch is running when the grace period ends or the HTTP server is shut down |
| `Shutdown.GraceIsExact` | cmd/crocochrome/main.go:119-126 | that is so on all timely runs if and only if latency and teardown together are below ten seconds |
| `Shutdown.EventsAreDated` | cmd/crocochrome/main.go:126-163 | each time that is kept is that of its event: the signal, the return of Drain, the end of the grace context ten seconds and the session timeout after its start, the shutdown of the HTTP server |
| `Shutdown.WaitIsExact` | internal/crocochrome/crocochrome.go:393-405 | for every m: on all timely runs no launch is running later than the session timeout and m after Drain, if and only if latency and teardown together are at most m |
| `ShutdownTime.SignalToShutdown` | cmd/crocochrome/main.go:118-163 | over every run, the time from the signal to the shutdown of the HTTP server is at most that of the creates that get the mutex before Drain, and the grace time |
| `ShutdownTime.StopsInTime` | cmd/crocochrome/main.go:118-163 | the same by the clock at the event that shuts the HTTP server down |
| `ShutdownTime.SignalToShutdownOnTime` | cmd/crocochrome/main.go:118-163 | if sessions end in time, it is at most the session timeout with latency and teardown after the last of those creates, or the end of its probe if that is later; without such creates, and with latency and teardown within the margin, the grace time counted from the signal is enough |
| `ShutdownTime.SignalToShutdownIsExact` | cmd/crocochrome/main.go:122-139 | for every number k of creates that overtake Drain, and every budget: all runs keep within it if and only if it covers k + 1 probes and the grace time |
| `ShutdownTime.GraceFromSignalIsShort` | cmd/crocochrome/main.go:122-127 | with the longest probe, the grace time counted from the signal is short by 2.759375 s and the lateness |
| `Process.Process.DrainSupervisor` | cmd/crocochrome/main.go:134-138 | when Drain returns, the supervisor is draining and no deadline is further away than the session timeout |
| `Process.Process.StartGrace` | cmd/crocochrome/main.go:126-139 | the grace period ends the session timeout and ten seconds after it was started, no earlier than that after Drain |
| `Process.Process.Select` | cmd/crocochrome/main.go:143-163 | the case taken is one that is ready, and the HTTP server is shut down at that moment |
| `Probe.Version` | internal/chromium/chromium.go:34-54 | success exactly if an attempt that starts in time succeeds after failures only, and a return at most half the budget, the first delay and the lateness of an attempt and a sleep after the deadline |
| `Probe.ReturnsOnce` | internal/chromium/chromium.go:34-54 | the attempts determine the answer, its time and the number of attempts |
| `Probe.ReturnsInTime` | internal/chromium/chromium.go:34-54 | the bounds on that time, whatever the attempts are like |
| `Probe.DelayBySleep` | internal/chromium/chromium.go:51-52 | twice the growth of the delay never exceeds the time slept, in spite of integer division |
| `Probe.DelayGrowth` | internal/chromium/chromium.go:52 | bounds on the k-th delay from both sides by powers of 3/2 |
| `Probe.AttemptsAreLogarithmic` | internal/chromium/chromium.go:37-53 | the number of attempts is logarithmic in the budget |
| `Probe.CreateProbe` | internal/crocochrome/crocochrome.go:280-290 | under the two seconds of create at most six attempts, and a return at most 759.375 ms and the lateness of an attempt and a sleep late |
| `Probe.ProbeTimeIsExact` | internal/crocochrome/crocochrome.go:280-290 | for every m: whatever the attempts, the probe is over m after the two seconds, if and only if m is at least that |
| `Probe.OvershootIsReached` | internal/crocochrome/crocochrome.go:280-290 | attempts for which the probe comes to just that bound, after six attempts |
| `OomReader.ReadOomKillCount` | internal/crocochrome/cgroup.go:76-111 | zero without path or file, an error if it cannot be opened, else what the lines say |
| `OomReader.KeyDecides` | internal/crocochrome/cgroup.go:93-96 | the line of the counter is the one with the key oom_kill; oom, oom_kill_disable and oom_group_kill are passed over |
| `OomReader.CountIsExact` | internal/crocochrome/cgroup.go:91-110 | for every text: which number is returned and when, and exactly when a parse error or a scan error is |
| `OomReader.OneCRIsDropped` | internal/crocochrome/cgroup.go:91-93 | one carriage return at the end of a line is not part of it |
| `OomReader.ErrorsBesideFailures` | internal/crocochrome/cgroup.go:75-110 | without an I/O failure there is an error if and only if the scan stops at a malformed or an overlong line |
| `OomReader.MalformedIsAnError` | internal/crocochrome/cgroup.go:98-101 | a counter that is not a number is an error |
| `OomReader.OverlongIsAnError` | internal/crocochrome/cgroup.go:106-108 | so is any line that does not fit the buffer, whatever comes after it |
| `OomReader.CounterIsRead` | internal/crocochrome/cgroup.go:91-104 | for any file of key and value lines, the first oom_kill line decides: its value if it is a decimal number below 2^64, and an error otherwise |
| `OomReader.AbsentCounterIsZero` | internal/crocochrome/cgroup.go:106-110 | zero without such a line, unless reading fails |
| `OomReader.PrintedCounterRoundTrips` | internal/crocochrome/cgroup.go:91-104 | a counter printed in decimal between any other lines is read back |
| `OomAccounting.Account` | internal/crocochrome/crocochrome.go:549-559 | the metric grows by the difference of two samples that could be read, and not at all if one could not or the counter went back |
| `OomAccounting.DeltaIsGain` | internal/crocochrome/crocochrome.go:552-555 | the 64-bit subtraction never underflows |
| `OomAccounting.MetricIsSumOverKills` | internal/crocochrome/crocochrome.go:242-251 | without resets the metric is, by the sequence of events alone, summed over all kills, the number of launches that start before and end after the kill with samples that can be read |
| `OomAccounting.NeverOvercounts` | internal/crocochrome/crocochrome.go:545-559 | with a counter that is only set back, the metric is at most that |
| `OomAccounting.EventsAreTaken` | internal/crocochrome/crocochrome.go:242-251 | a launch whose first sample can be read always gets the counter as its baseline, and its end adds what the counter has grown by since |
| `OomAccounting.NoDoubleCountIsExact` | internal/crocochrome/crocochrome.go:242-251 | the metric is at least the number of kills between the samples of a launch, is that number if and only if no kill lies between the samples of two, and then is at most the growth of the kernel's counter |
| `OomAccounting.OverlapCountsTwice` | internal/crocochrome/crocochrome.go:242-251 | one kill during two launches counts twice |
| `OomAccounting.SessionsInTurnCountOnce` | internal/crocochrome/crocochrome.go:242-251 | two kills in two launches after each other are two |
| `Cmdline.LayoutDoesNotMatter` | internal/crocochrome/proc.go:42-50 | for every cmdline, exchanging NULs and spaces anywhere leaves the process type as it is |
| `Cmdline.LastSeparatorDoesNotMatter` | internal/crocochrome/proc.go:42-50 | so does terminating the last argument or not |
| `Cmdline.TypeIsRecovered` | internal/crocochrome/proc.go:64-80 | the value of the first --type= argument is the type, in either layout, except that utility with the network service's name is network-service |
| `Cmdline.TypeWithFlag` | internal/crocochrome/proc.go:64-80 | every cmdline with --type= in it: the type is the word after its first occurrence, or network-service if that is utility and the service's name is in the cmdline |
| `Cmdline.TypeWithoutFlag` | internal/crocochrome/proc.go:82-109 | every cmdline without it: crashpad by the handler's name anywhere, else tini by the name of the first word's path, else crocochrome by that name anywhere, else browser; and unknown if it cannot be read |
| `Cmdline.TypeByArguments` | internal/crocochrome/proc.go:82-109 | the same by the arguments, in any layout |
| `Cmdline.BaseIsName` | internal/crocochrome/proc.go:92-98 | the base name of a path is what stands after its directory and before any slashes at its end |
| `Cmdline.TiniIsRecognised` | internal/crocochrome/proc.go:82-109 | tini is recognised by any path and by its bare name, in spite of its argument crocochrome |
| `ProcMetrics.CollectProcessMetrics` | internal/crocochrome/proc.go:143-181 | the processes are those of the lines that are numbers with a status that is not all zero, in order and with multiplicity and no others, each with its resident and its peak size and its type, also if the cgroup's total cannot be read or parsed |
| `ProcMetrics.AtoiIsExact` | internal/crocochrome/proc.go:153-156 | digits with or without a sign are that number if it fits 64 bits |
| `ProcMetrics.NothingElseIsANumber` | internal/crocochrome/proc.go:153-156 | and no other string is a number |
| `ProcMetrics.SplitIsExact` | internal/crocochrome/proc.go:149 | the lines are the text between the newlines, all of it |
| `Strings.TrimIsExact` | internal/crocochrome/proc.go:149 | trimming takes off both ends all white space and nothing else |
| `Strings.SpacesAre` | internal/crocochrome/proc.go:149 | which characters are white space |
| `Strings.DecimalIsPositional` | internal/crocochrome/proc.go:153 | decimal notation, digit by digit |
| `ProcMetrics.CollectedAreTheNumbers` | internal/crocochrome/proc.go:149-156 | trimming the file leaves its numbers as they are if and only if the first and the last are not padded |
| `ProcMetrics.WrittenPidsAreCollected` | internal/crocochrome/proc.go:149-156 | PIDs written one per line are read back, whatever blank or unparsable lines stand between them |
| `ProcMetrics.PaddedNumberIsCollected` | internal/crocochrome/proc.go:149-156 | a padded first line that is read although it is no number |
| `BuildInfo.SortSettings` | internal/version/version.go:61-72 | sorting in place gives a sorted rearrangement |
| `BuildInfo.SortedIsUnique` | internal/version/version.go:72-78 | there is only one, so the library's algorithm does not matter |
| `BuildInfo.AtMostIsByKeyThenValue` | internal/version/version.go:72-78 | settings compare lexicographically by key and, within a key, by value |
| `BuildInfo.AtMostIsTotalOrder` | internal/version/version.go:72-78 | that is a total order |
| `BuildInfo.SearchKey` | internal/version/version.go:52-55 | the leftmost entry whose key is not less than the key, and whether it has the key |
| `BuildInfo.ScanIsLeast` | internal/version/version.go:46-58 | the simple scan finds the least value among the entries with the key, and nothing exactly if there are none |
| `BuildInfo.GetBuildInfoByKey` | internal/version/version.go:46-58 | the lookup gives the lexicographically least value that the unsorted settings have for the key, as the simple scan does, and unknown exactly if they have none |

## Left out

- HTTP handlers, JSON, the WebSocket proxy and route labels: a thin mapping onto the supervisor.
- Process spawning, signals, chromium flags, credentials and temporary directories: only how a launch ends is modelled.
- A panic while the temporary directory of a launch is removed (internal/crocochrome/crocochrome.go:466-472).
- Prometheus registration, histogram buckets and log output: counters are plain numbers, and the OOM metric is not rounded to a float64.
- The resident set size that launch observes from the exited process.
- ComputeUserAgent: it runs before the server starts and is not in the WaitGroup; its launch would add one execution and no OOM kills.
- procfs parsing, detection of the cgroup path and the capability check: the status of a process is an argument.
- The collection of process metrics during Delete (internal/crocochrome/crocochrome.go:365-391) comes after the mutex is released and touches no shared state.
- Fairness of the scheduler and of the mutex: bounds on time are parameters.
- The shutdown of the HTTP server itself and its own ten seconds.
- Text is modelled as characters, so the length of a scanner token is that of ASCII text, and invalid UTF-8 does not occur.
- `Short` of the version package: a constant or a field.
- Probe.Version: an attempt is its duration and its outcome; attempts and sleeps run over by at most a parameter.
