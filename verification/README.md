# Verification model of Ultimate BBS Box

This project models the parts of Ultimate BBS Box that decide by state, history or order, and proves what they
keep. It is checked with `dafny verify dfyconfig.toml`.

**The lifecycle supervisor** starts, stops and repairs one service at a time. `SupervisorModel` gives every locked
operation as a function on the instance record, the clock and the driver's behaviour: a start may fail at once,
readiness may come late or never, the status may be alive or dead. `Supervisor` is the object with its fields, and
each of its methods is proved to do what that function says. Operations are then composed into runs of any length,
in which a process may die at any write (`Crash`) and come back with the last record it saved. Histories record
grants of restarts, launches of jobs, transitions and every saved state; no operation reads them. What holds over
all runs is in `SupervisorInvariants`, `SupervisorRecovery`, `SupervisorConvergence`, `SupervisorMaintenance`,
`SupervisorJobKeys` and `SupervisorBackoff`; the object keeps the central invariant as `Valid()`.
`SupervisorReadiness`, `SupervisorOutcomes`, `SupervisorTicks` and `SupervisorSaves` say what each operation comes
to, from what it finds and what the driver answers; `ScheduleTexts` says which texts are schedules.

**The session router** keeps transient sessions over those supervisors. `RouterModel` has one step per locked
region; the gap between the closing of a child and the restoring of its parent is a step of its own. `Router` is the
object: session objects in a table, supervisor objects behind it, and a ghost `Net` that `Valid()` ties to both.
`RouterConservation`, `RouterLosses`, `RouterHandoff`, `RouterExclusivity` and `RouterAuthorization` speak of every
interleaving of these steps with each other and with everything the supervisors do on their own; `RouterLocks` of
the locks the calls take. `RouterOutcomes` says what each call comes to when nothing comes between its regions.

**Smaller cores**: the search for dependency cycles (`Inventory`), the login throttle as the dashboard drives it
(`Throttle`, `ThrottleBound`, and `ThrottleOverlap` for logins that overlap, `ThrottleOutcomes` key by key), the
preservation archive over any hash function (`ArchiveModel`, `Archive`, `ArchiveIntegrity`, and `ArchiveCalls` and
`ArchiveOverlap` for calls that overlap, `ArchiveOutcomes` for what is accepted and recorded), the alert store
(`Alerts`, `AlertHistory`) and FTN addresses (`Fidonet`).

Time is a natural number of milliseconds. A clock never runs backwards and the offset from UTC is fixed. The driver,
the streams, authentication and fresh identifiers are parameters of the calls. A driver is a list of start attempts; a
call that needs more of them than the list has is reported as `Unfinished`, which is how non-termination is stated.

Some things the documentation or a reader might expect are false of the code; each is stated with the input that
shows it and the exact condition under which it holds:

- a schedule accepted when the supervisor is built can raise in a later tick (`Schedule.AcceptedCanRaiseLater`), exactly
  when its interval leaves the calendar (`Schedule.AcceptedRaisesOnlyOnOverflow`);
- the restart limit never stops a runtime whose failures are slow (`SupervisorRecovery.DefaultsNeverGiveUp`), and stops
  the others (`SupervisorRecovery.RecoveryEndsIffWindowHoldsThem`, and from any history
  `SupervisorRecovery.RecoveryEndsIffWindowFills`);
- a restart after a backoff keeps its recovery hold (`SupervisorBackoff.BackoffLeavesRecoveryHold`), exactly under the
  configurations that grant restarts after one (`SupervisorBackoff.NoRecoveryHoldIff`);
- a reconciliation during a maintenance job blocks the job from then on (`SupervisorJobKeys.ReconcileLeaksJob`), because
  the finish of the job became illegal (`SupervisorJobKeys.FinishIllegalIff`);
- a forced stop takes the holds of live router sessions (`RouterConservation.ForcedStopTakesHolds`), exactly when the
  service has sessions (`RouterLosses.ConservedIffNothingForgotten`);
- a failed handoff child can bring its parent back while it is lent out (`RouterHandoff.FailedChildRevivesParent`), and
  nothing else can (`RouterExclusivity.ExclusiveIffNoStrayRestore`, `RouterExclusivity.LateCloseRevivesIff`);
- the doubling of the login delay is not reached by logins one after the other (`ThrottleBound.CountsStopAtFour`), but by
  overlapping ones (`ThrottleOverlap.OverlapPassesFour`), exactly when a failure is counted at four
  (`ThrottleOverlap.PassesFourIffCountedAtFour`, `ThrottleOverlap.CountingAtFourOverlaps`);
- an import can replace a record (`ArchiveOverlap.OverlapReplacesRecord`), exactly when it finds one as it takes its lock
  and writes a different one (`ArchiveOverlap.ReplacedIffOverwritten`, `ArchiveOverlap.FindingOverlaps`);
- a killed import blocks its artifact id, exactly when it left no record (`ArchiveIntegrity.KilledLeavesLock`,
  `ArchiveIntegrity.KilledBlocksIff`).

## Model

| member | source | states |
|---|---|---|
| `Lifecycle.HeldIsPositiveSum` | scripts/ubb_supervisor/models.py:29-30 | a service is held exactly when the sum of its hold counts is positive |
| `Lifecycle.ReloadForgetsOnlyTransients` | scripts/ubb_supervisor/models.py:32-65 | writing a record and reading it back keeps everything but the sessions and the holds that are not `admin` or `always_on`; doing it again loses nothing more |
| `Lifecycle.EnteredFrom` | scripts/ubb_supervisor/state_machine.py:19-27 | from which states each state can be entered, the transition table read the other way |
| `Schedule.DueKeepsDistance` | scripts/ubb_supervisor/scheduler.py:19-36 | a launch found due lies an interval after the previous launch, or on a later calendar day for a daily job, and never before its hour |
| `Schedule.AcceptedRaisesOnlyOnOverflow` | scripts/ubb_supervisor/scheduler.py:19-37 | a schedule accepted at construction raises in a later tick if and only if its interval counted from the last run leaves the range of `datetime` |
| `Schedule.AcceptedCanRaiseLater` | scripts/ubb_supervisor/scheduler.py:29-29 | such a schedule exists: `every 1h` accepted near the end of the year 9999 raises one millisecond later |
| `Schedule.DueIffRipe` | scripts/ubb_supervisor/scheduler.py:19-37 | a schedule is due if and only if it never ran or its last run lies the interval back, or before the hour of the day that has come; and when it is refused |
| `ScheduleTexts.ParsedIffSaid` | scripts/ubb_supervisor/scheduler.py:10-33 | a text is read as a plan if and only if it spells that plan: `every` with a number of minutes, hours or days, or `daily` with a clock time, with spaces and capitals where they are allowed |
| `ScheduleTexts.SpaceIs` | scripts/ubb_supervisor/scheduler.py:10-11 | which characters count as spaces |
| `Supervisor.ValidateJobs` | scripts/ubb_supervisor/supervisor.py:415-422 | accepts exactly the job lists with pairwise different names whose schedules do not raise now |
| `SupervisorInvariants.Bookkeeping` | scripts/ubb_supervisor/supervisor.py:106-117 | over every run of public operations, with crashes inside operations: hold counts are positive, the `sessions` hold counts the session map, a single-session service has at most one session, every transition is legal and no unforced stop, of a running or of a failed service, meets a hold |
| `SupervisorInvariants.GoodIsLoadable` | scripts/ubb_supervisor/models.py:32-65 | every record a supervisor with the invariant has, in memory or on disk, is one with which a later supervisor has it again |
| `SupervisorInvariants.ReservedStartMiscounts` | scripts/ubb_supervisor/supervisor.py:119-133 | why the reserved reason is excluded: a start with reason `sessions` counts a session nobody has |
| `SupervisorInvariants.RestartLimitHolds` | scripts/ubb_supervisor/supervisor.py:263-275 | over every run, no closed window of the configured length contains more than `max_restarts` of the restarts granted since the last administrative start out of FAILED |
| `SupervisorInvariants.GrantIsWindowed` | scripts/ubb_supervisor/supervisor.py:263-275 | one grant keeps that bound although old timestamps are thrown away |
| `SupervisorInvariants.RecentIsTail` | scripts/ubb_supervisor/supervisor.py:265-266 | filtering an ordered list by age keeps exactly a tail of it |
| `SupervisorInvariants.SpacedFitsWindow` | scripts/ubb_supervisor/supervisor.py:263-275 | times of which each lies more than the window after the one `max` before it never number more than `max` in a window |
| `SupervisorInvariants.LaunchesKeepDistance` | scripts/ubb_supervisor/supervisor.py:348-352 | over every run, any two scheduled launches of a job are an interval apart, or on different days, whatever ticks, manual runs and crashes lie between |
| `SupervisorInvariants.IdleStopIsJustified` | scripts/ubb_supervisor/supervisor.py:340-342 | a service stopped by a tick for idleness had no session and no maintenance hold at any moment of the idle timeout before, across restarts, mode changes and reloads |
| `SupervisorInvariants.IdleStopNeedsDeadline` | scripts/ubb_supervisor/supervisor.py:340-342 | a tick journals a stop for idleness only when the deadline had passed at the time the tick read, with no hold and the service running |
| `SupervisorReadiness.WaitEndsIff` | scripts/ubb_supervisor/supervisor.py:151-155 | the readiness loop ends with the answer of the first check that says anything but "not yet", or says so at the deadline or later, and when that check ends; the times of the checks are sums of checks and sleeps |
| `SupervisorReadiness.StartDecides` | scripts/ubb_supervisor/supervisor.py:146-168 | when a start attempt is over and how it failed, from the start call, the deciding check and the cleanup |
| `SupervisorReadiness.SucceedsIff` | scripts/ubb_supervisor/supervisor.py:146-168 | an attempt succeeds if and only if the start call does and a check says "ready" after checks that said "not yet" in time |
| `SupervisorOutcomes.StartOutcome` | scripts/ubb_supervisor/supervisor.py:119-133 | a start is refused only between two states; otherwise the service is up and held for the reason, and an administrator's start is remembered and forgives earlier restarts |
| `SupervisorOutcomes.UpStart` | scripts/ubb_supervisor/supervisor.py:138-162 | the whole record after a start that comes up |
| `SupervisorOutcomes.DownStart` | scripts/ubb_supervisor/supervisor.py:162-172 | the whole record after a start that does not: failed for good, given up, or to be tried again after the backoff |
| `SupervisorOutcomes.RecoverySucceedsIff` | scripts/ubb_supervisor/supervisor.py:259-284 | without a backoff, a driver that fails some times and then comes up has its service running if and only if the restarts did not fill the window before |
| `SupervisorOutcomes.NotifyOutcome` | scripts/ubb_supervisor/supervisor.py:251-284 | what a reported failure leads to under each policy, and that it is illegal for a stopped service |
| `SupervisorOutcomes.StopOutcome` | scripts/ubb_supervisor/supervisor.py:174-203 | a stop is refused exactly while something it does not withdraw holds the service, or between two states; otherwise the service is stopped, or failed if the driver does |
| `SupervisorOutcomes.AcquireOutcome` | scripts/ubb_supervisor/supervisor.py:209-223 | a session is refused exactly when a single one is taken or between two states; otherwise it is noted and counted, and the service is up |
| `SupervisorOutcomes.ReleaseOutcome` | scripts/ubb_supervisor/supervisor.py:225-243 | a known session goes with its count, and a running on-demand service that nothing holds any more is given its idle timeout |
| `SupervisorOutcomes.BeginOutcome` | scripts/ubb_supervisor/supervisor.py:286-308 | which requests for a job are refused and why, when the service is woken, and that a refusal leaves neither key nor hold |
| `SupervisorOutcomes.FinishSucceeded` | scripts/ubb_supervisor/supervisor.py:314-327 | after a successful job the service runs with its idle timeout, or is stopped exactly if it was woken for the job, the job asks for it and nothing holds it; result and last run are recorded |
| `SupervisorOutcomes.FinishFailed` | scripts/ubb_supervisor/supervisor.py:314-331 | after a failed job the result is recorded and the service is restarted as after any failure |
| `SupervisorTicks.ReconcileHolds` | scripts/ubb_supervisor/supervisor.py:363-370 | after any reconciliation the service is held once by its mode exactly if it is always on, once by the administrator who wants it, and otherwise as before |
| `SupervisorTicks.UnwantedStops` | scripts/ubb_supervisor/supervisor.py:371-393 | a dead service that nobody wants is stopped, unless it has failed |
| `SupervisorTicks.IdleTickStops` | scripts/ubb_supervisor/supervisor.py:340-342 | a tick stops a running service whose idle deadline has come and which nothing holds |
| `SupervisorTicks.DueTickRestarts` | scripts/ubb_supervisor/supervisor.py:343-347 | a tick starts a failed service whose restart is due, and drops the recovery hold |
| `SupervisorTicks.TickLeaves` | scripts/ubb_supervisor/supervisor.py:337-352 | any other tick leaves state and holds alone |
| `SupervisorTicks.ReleasedServiceStops` | scripts/ubb_supervisor/supervisor.py:235-243 | an on-demand service is stopped by the first tick that comes an idle timeout or more after its last session was released |
| `SupervisorTicks.TickLaunches` | scripts/ubb_supervisor/supervisor.py:348-352 | a tick that does not raise launches exactly the jobs that are not running and for which it is time, once, at its own time |
| `SupervisorSaves.ReturnsSaved` | scripts/ubb_supervisor/supervisor.py:87-88 | every session, stop, failure, maintenance or reconciliation call that returns has written the record the process has |
| `SupervisorSaves.StartSaved` | scripts/ubb_supervisor/supervisor.py:119-133 | so has a start that had something to do |
| `SupervisorRecovery.RecoveryEnds` | scripts/ubb_supervisor/supervisor.py:259-284 | zero backoff: if failing starts take at most d and `max_restarts` times d fits the window, at most `max_restarts`+1 driver starts are made and the service runs or is FAILED with restarts exhausted, without a leftover recovery hold |
| `SupervisorRecovery.RecoveryEndsIffWindowHoldsThem` | scripts/ubb_supervisor/supervisor.py:138-172 | the bound is sharp: from any restart history, a driver failing after exactly d is given up if `max_restarts` times d fits the window; if it does not, no number of starts is enough, unless restarts closer than d to each other are on record already |
| `SupervisorRecovery.RecoveryEndsIffWindowFills` | scripts/ubb_supervisor/supervisor.py:259-284 | exactly, from any restart history: a driver failing after exactly d is given up if and only if at one of its failures the restarts on record and those granted since fill the window |
| `SupervisorRecovery.DefaultsNeverGiveUp` | scripts/ubb_supervisor/supervisor.py:149-155 | with the defaults a runtime that starts but never becomes ready is restarted without end |
| `SupervisorRecovery.EndedIsFinal` | scripts/ubb_supervisor/supervisor.py:138-172 | a call that has returned does not depend on what the driver would have done later |
| `SupervisorRecovery.WaitIsBounded` | scripts/ubb_supervisor/supervisor.py:151-155 | the readiness loop ends by its deadline plus the length of one check |
| `SupervisorRecovery.NeverReadyTimesOut` | scripts/ubb_supervisor/supervisor.py:151-155 | a runtime that is never ready is waited for until the deadline and then times out |
| `SupervisorRecovery.AttemptIsBounded` | scripts/ubb_supervisor/supervisor.py:146-170 | a whole start attempt takes at most the start call, the timeout, one check and the cleanup |
| `SupervisorConvergence.ReconcileSettles` | scripts/ubb_supervisor/supervisor.py:363-405 | from any record and driver, reconciliation makes only legal transitions and ends STOPPED, RUNNING or FAILED; a live runtime is always adopted |
| `SupervisorConvergence.SecondReconcileIsIdle` | scripts/ubb_supervisor/supervisor.py:363-405 | an immediate second reconciliation of a running service changes nothing |
| `SupervisorConvergence.RestartedSupervisorConverges` | scripts/ubb_supervisor/supervisor.py:363-405 | after a crash at any write, reload and one reconciliation reach RUNNING if and only if the runtime survived, or a declared hold survives and policy, budget and backoff allow a start now |
| `SupervisorConvergence.TwoPassesConverge` | scripts/ubb_supervisor/supervisor.py:363-405 | a second reconciliation some time after the first reaches RUNNING if and only if the runtime survived, or a declared hold survives and policy, budget and backoff allow a start by then; so a restart granted by the first is made after its backoff |
| `SupervisorMaintenance.AtMostOneJob` | scripts/ubb_supervisor/supervisor.py:293-305 | over every run without reconciliation, forced stop or failure notice during a job: at most one job is in flight, job keys are exactly the jobs in flight, and the service is held in MAINTENANCE |
| `SupervisorMaintenance.MaintenanceRun` | scripts/ubb_supervisor/supervisor.py:286-331 | with any other operations between begin and finish, the finish is legal, removes exactly its key and hold, and stops the service if and only if it was inactive before, `shutdown_after` is set and no hold remains |
| `SupervisorMaintenance.FinishIsLegal` | scripts/ubb_supervisor/supervisor.py:314-331 | the same for failed jobs: the key and one maintenance hold go and no other hold changes |
| `SupervisorMaintenance.SecondBeginIsRefused` | scripts/ubb_supervisor/supervisor.py:294-308 | while a job is in flight no other begins, and refusing it leaves the first one alone |
| `SupervisorJobKeys.FinishIllegalIff` | scripts/ubb_supervisor/supervisor.py:318-323 | the finish of a job raises an invalid transition exactly when the state it finds has none to RUNNING (successful job), or is not FAILED and has none to it (failed job); then key and holds stay |
| `SupervisorJobKeys.LeakedKeyBlocksJob` | scripts/ubb_supervisor/supervisor.py:294-305 | over every run without a crash, a key left behind stays, and each request for its job raises that it is running |
| `SupervisorJobKeys.ReconcileLeaksJob` | scripts/ubb_supervisor/supervisor.py:371-393 | a reconciliation during a job, whatever it finds, makes the finish of the successful job illegal, and the job is refused over every run from then on |
| `SupervisorBackoff.NoRecoveryHoldIff` | scripts/ubb_supervisor/supervisor.py:259-284 | exactly the configurations without a backoff, or in which no restart is granted (`never`, or `max_restarts` 0), leave no recovery hold after any run of calls that return |
| `SupervisorBackoff.RunIsClean` | scripts/ubb_supervisor/supervisor.py:277-284 | in such a configuration a run from any state without a recovery hold ends without one |
| `SupervisorBackoff.BackoffLeavesRecoveryHold` | scripts/ubb_supervisor/supervisor.py:398-403 | with a backoff, the reconciliation that makes the restart leaves the hold; over every run without a further failure, forced stop or crash it stays, the service stays up, and no tick stops it for idleness |
| `Supervisor.Supervisor.constructor` | scripts/ubb_supervisor/supervisor.py:50-53 | a supervisor starts from the loaded record, or a fresh one, and has its invariant if and only if job names differ and the record could have been left by a supervisor that kept the restart limit |
| `Supervisor.Supervisor.Transition` | scripts/ubb_supervisor/supervisor.py:90-99 | state, writes and exception are exactly those of `SupervisorModel.Transition`: an illegal transition raises and changes nothing; a legal one is journaled and saved |
| `Supervisor.Supervisor.AddHold` | scripts/ubb_supervisor/supervisor.py:106-109 | state, writes and exception are exactly those of `SupervisorModel.AddHold`: counts the hold up and forgets the idle deadline |
| `Supervisor.Supervisor.RemoveHold` | scripts/ubb_supervisor/supervisor.py:111-117 | state, writes and exception are exactly those of `SupervisorModel.RemoveHold`: counts the hold down and removes it at one |
| `Supervisor.Supervisor.ScheduleIdle` | scripts/ubb_supervisor/supervisor.py:235-243 | state, writes and exception are exactly those of `SupervisorModel.ScheduleIdle`: sets an idle deadline only for an idle, running, on-demand service without one |
| `Supervisor.Supervisor.MarkFailed` | scripts/ubb_supervisor/supervisor.py:245-249 | state, writes and exception are exactly those of `SupervisorModel.MarkFailed`: fails the service once and notes the error |
| `Supervisor.Supervisor.AwaitReady` | scripts/ubb_supervisor/supervisor.py:151-155 | state, writes and exception are exactly those of `SupervisorModel.AwaitReady`: the polling loop does what the recursive account of waiting says |
| `Supervisor.Supervisor.TryStart` | scripts/ubb_supervisor/supervisor.py:146-168 | state, writes and exception are exactly those of `SupervisorModel.TryStart`: a start attempt with its cleanup |
| `Supervisor.Supervisor.EnsureRunning` | scripts/ubb_supervisor/supervisor.py:138-172 | state, writes and exception are exactly those of `SupervisorModel.EnsureRunning`: the start, mutually recursive with recovery, does what the account on values says, for every driver |
| `Supervisor.Supervisor.RestartAfterFailure` | scripts/ubb_supervisor/supervisor.py:259-284 | state, writes and exception are exactly those of `SupervisorModel.RestartAfterFailure`: the grant, the limit, the backoff and the recursive start |
| `Supervisor.Supervisor.Start` | scripts/ubb_supervisor/supervisor.py:119-133 | state, writes and exception are exactly those of `SupervisorModel.Start`: intent, hold, start |
| `Supervisor.Supervisor.StopLocked` | scripts/ubb_supervisor/supervisor.py:188-203 | state, writes and exception are exactly those of `SupervisorModel.StopLocked`: every branch of a locked stop |
| `Supervisor.Supervisor.Stop` | scripts/ubb_supervisor/supervisor.py:174-186 | state, writes and exception are exactly those of `SupervisorModel.Stop`: a stop, forced or refused by holds |
| `Supervisor.Supervisor.Acquire` | scripts/ubb_supervisor/supervisor.py:209-223 | state, writes and exception are exactly those of `SupervisorModel.Acquire`: a session with its hold, taken back if the start raises |
| `Supervisor.Supervisor.Release` | scripts/ubb_supervisor/supervisor.py:225-233 | state, writes and exception are exactly those of `SupervisorModel.Release`: an unknown session raises; a known one goes with its hold |
| `Supervisor.Supervisor.NotifyFailure` | scripts/ubb_supervisor/supervisor.py:251-257 | state, writes and exception are exactly those of `SupervisorModel.NotifyFailure`: a reported failure and the recovery from it |
| `Supervisor.Supervisor.Begin` | scripts/ubb_supervisor/supervisor.py:293-308 | state, writes and exception are exactly those of `SupervisorModel.Begin`: the first region of a maintenance run, undone if it raises |
| `Supervisor.Supervisor.Finish` | scripts/ubb_supervisor/supervisor.py:314-331 | state, writes and exception are exactly those of `SupervisorModel.Finish`: the second region of a maintenance run |
| `Supervisor.Supervisor.Settle` | scripts/ubb_supervisor/supervisor.py:371-393 | state, writes and exception are exactly those of `SupervisorModel.Settle`: what reconciliation does about the state it finds |
| `Supervisor.Supervisor.Converge` | scripts/ubb_supervisor/supervisor.py:398-403 | state, writes and exception are exactly those of `SupervisorModel.Converge`: what reconciliation does about the holds it finds |
| `Supervisor.Supervisor.Reconcile` | scripts/ubb_supervisor/supervisor.py:363-405 | state, writes and exception are exactly those of `SupervisorModel.Reconcile`: a reconciliation of one service |
| `Supervisor.Supervisor.MarkDue` | scripts/ubb_supervisor/supervisor.py:348-352 | state, writes and exception are exactly those of `SupervisorModel.MarkDue`: the loop over the jobs of a service: which are due, marked and saved, in order |
| `Supervisor.Supervisor.TickService` | scripts/ubb_supervisor/supervisor.py:337-352 | state, writes and exception are exactly those of `SupervisorModel.TickService`: the region of one service in a tick |
| `RouterConservation.HoldsAreConserved` | scripts/ubb_router/router.py:111-173 | over every interleaving with the router as sole session client, in which no supervisor forgets sessions it has: the sessions of a supervisor are exactly the unreleased lifecycle ids of router sessions; connecting, active and handing-off sessions hold one, closed and failed ones none; no session is released twice |
| `RouterLosses.ConservedIffNothingForgotten` | scripts/ubb_supervisor/supervisor.py:174-186 | that exclusion is exact: over every interleaving, the two sides agree at every moment if and only if no forced stop and no crash ever meets a supervisor that has sessions |
| `RouterConservation.AcquireSessions` | scripts/ubb_supervisor/supervisor.py:209-223 | acquiring adds exactly one new session or, if it raises, none |
| `RouterConservation.ReleaseSessions` | scripts/ubb_supervisor/supervisor.py:225-233 | releasing removes exactly that session or, if it is unknown, raises |
| `RouterConservation.BackgroundKeepsSessions` | scripts/ubb_supervisor/supervisor.py:333-405 | nothing else the supervisor does on its own touches sessions |
| `RouterConservation.ForcedStopTakesHolds` | scripts/ubb_supervisor/supervisor.py:181-182 | the input: a forced stop takes the hold of an active session, whose close then fails |
| `RouterHandoff.HandoffIsExclusive` | scripts/ubb_router/router.py:186-205 | over every interleaving with handoff modes only from `handoff`, in which no child whose opening failed restores a parent that is handing off: an active session has no child outstanding, and none has two |
| `RouterExclusivity.ExclusiveIffNoStrayRestore` | scripts/ubb_router/router.py:175-205 | that exclusion is exact: over every interleaving, handoffs are exclusive at every moment if and only if no such restore happens |
| `RouterExclusivity.LateCloseRevivesIff` | scripts/ubb_router/router.py:175-184 | in any state, closing a failed child that holds nothing, and the restore it owes, make the parent active if and only if it is handing off at that moment, and otherwise leave it as it was |
| `RouterHandoff.NoRevival` | scripts/ubb_router/router.py:175-184 | only its own opening or a handoff it is in makes a session active |
| `RouterHandoff.EndedStaysEnded` | scripts/ubb_router/router.py:148-173 | a session that is closed or failed is so after every run |
| `RouterHandoff.FailedChildRevivesParent` | scripts/ubb_router/router.py:175-205 | the input: closing the failed child of a first handoff revives a parent that is lent to a second |
| `RouterAuthorization.ActiveSessionsAreAnchored` | scripts/ubb_router/policy.py:24-49 | over every interleaving: a session that ever was active has, at any later time, a finite chain of parents to a direct session on a public service, each hop allowed by its target |
| `RouterAuthorization.ChainExists` | scripts/ubb_router/router.py:67-77 | the chain, built from the invariant that parents were active first |
| `RouterAuthorization.AuthorizeOutcome` | scripts/ubb_router/router.py:116-121 | a session goes on if and only if its request is permitted and comes from a live session of the origin it claims; otherwise it fails, and no other changes |
| `RouterAuthorization.AuthorizesIff` | scripts/ubb_router/policy.py:24-49 | the policy grants exactly requests for known services without administrative reservation: direct ones without origin to public services, and those by way of a known origin that the target lists |
| `RouterAuthorization.LiveOriginIsRequired` | scripts/ubb_router/router.py:67-77 | without an active or handing-off parent of the claimed origin an opening fails, whatever the policy says |
| `RouterOutcomes.OpenOutcome` | scripts/ubb_router/router.py:111-141 | an opening ends active and holding its service if and only if it is permitted, comes from a live session, the supervisor brings the service up and the connection is made; otherwise failed and holding nothing |
| `RouterOutcomes.ConservedIsFresh` | scripts/ubb_supervisor/supervisor.py:216-217 | in every state with conserved holds no session number still to be handed out is taken, which the outcomes of openings ask for |
| `RouterOutcomes.HandOffOutcome` | scripts/ubb_router/router.py:186-205 | a handoff asks for a via route with the service of the parent as origin; if the target lists it and can be reached, the child is active and the parent waits or was closed for it, otherwise the child failed and the parent is active again |
| `RouterOutcomes.CloseOutcome` | scripts/ubb_router/router.py:148-173 | a session is closed if and only if its stream closed and its hold, if any, could be given back; otherwise it failed |
| `RouterOutcomes.ReleaseOutcome` | scripts/ubb_router/router.py:143-146 | a hold is given back exactly if the supervisor knows it, and then the supervisor forgets that session and no other |
| `RouterOutcomes.ChildReturns` | scripts/ubb_router/router.py:148-184 | a clean close of a child that was to return makes its parent active exactly if that one is handing off, and changes nobody else |
| `RouterOutcomes.RefusedChangesNothing` | scripts/ubb_router/router.py:148-158 | a close of a session being opened or already closed, and a handoff from one that is not active, change nothing |
| `RouterModel.EnteredFrom` | scripts/ubb_router/state_machine.py:5-15 | from which states each session state can be entered |
| `RouterLocks.RouterNeverDeadlocks` | scripts/ubb_router/router.py:67-77 | any number of router and supervisor calls, interleaved in any way, always have one that can move, and no set of them waits in a circle, if parents are registered before children |
| `RouterLocks.ProgramIsDisciplined` | scripts/ubb_router/router.py:111-205 | every call takes locks strictly inward, from younger to older session to index, supervisor and journal, and gives all back |
| `RouterLocks.NoWaitCycle` | scripts/ubb_router/router.py:86-90 | threads that keep that order have no cycle of waits, of any length |
| `RouterLocks.SomebodyCanStep` | scripts/ubb_router/router.py:86-90 | following the waits from any unfinished thread leads to one that can move |
| `RouterLocks.SupervisedUnderLock` | scripts/ubb_router/router.py:111-173 | opening and closing call the supervisor for a session only under the lock of that session |
| `RouterLocks.MutualParentsDeadlock` | scripts/ubb_router/router.py:67-77 | why the order of registration matters: two openings naming each other as parent reach a state in which both wait for good |
| `RouterModel.OpenSessionIsRun` | scripts/ubb_router/router.py:111-141 | an uninterrupted opening is a run of the atomic steps, so what holds of all runs holds of it |
| `RouterModel.CloseSessionIsRun` | scripts/ubb_router/router.py:148-184 | the same for a close with the restoring of the parent |
| `RouterModel.HandOffIsRun` | scripts/ubb_router/router.py:186-205 | the same for a handoff |
| `RouterModel.CloseShape` | scripts/ubb_router/router.py:148-173 | a close writes one session, which ends closed or failed, and owes a restoring exactly if closed |
| `Router.Router.constructor` | scripts/ubb_router/router.py:39-52 | a router starts without sessions over the supervisors it is given |
| `Router.Router.Register` | scripts/ubb_router/router.py:79-92 | table, supervisors and outcome become those of `RouterModel.Register`: a known id raises and changes nothing; a new one is added |
| `Router.Router.ValidateOrigin` | scripts/ubb_router/router.py:67-77 | table, supervisors and outcome become those of `RouterModel.OriginIsLive`: true exactly for live origins of the claimed service |
| `Router.Router.Authorize` | scripts/ubb_router/router.py:116-120 | table, supervisors and outcome become those of `RouterModel.DoAuthorize`: the authorizing region of an opening |
| `Router.Router.Acquire` | scripts/ubb_router/router.py:121-122 | table, supervisors and outcome become those of `RouterModel.DoAcquire`: the acquiring region, through the supervisor object of the service |
| `Router.Router.Connect` | scripts/ubb_router/router.py:123-141 | table, supervisors and outcome become those of `RouterModel.DoConnect`: the connecting region with its failure handler |
| `Router.Router.ReleaseHold` | scripts/ubb_router/router.py:143-146 | table, supervisors and outcome become those of `RouterModel.ReleaseHold`: a hold is given back at most once; an exception leaves the flag alone |
| `Router.Router.Close` | scripts/ubb_router/router.py:152-172 | table, supervisors and outcome become those of `RouterModel.DoClose`: the locked region of a close, with an error kept to its end |
| `Router.Router.RestoreParent` | scripts/ubb_router/router.py:175-184 | table, supervisors and outcome become those of `RouterModel.DoRestore`: a returning child makes a parent that is still handing off active |
| `Router.Router.CloseSession` | scripts/ubb_router/router.py:148-173 | table, supervisors and outcome become those of `RouterModel.CloseSession`: the whole close: unknown, busy, already closed and failing cases included |
| `Router.Router.OpenSession` | scripts/ubb_router/router.py:111-141 | table, supervisors and outcome become those of `RouterModel.OpenSession`: the whole opening |
| `Router.Router.BeginHandoff` | scripts/ubb_router/router.py:190-193 | table, supervisors and outcome become those of `RouterModel.DoHandoff`: a parent that is not active is refused |
| `Router.Router.FinishHandoff` | scripts/ubb_router/router.py:196-205 | table, supervisors and outcome become those of `RouterModel.HandoffEnd`: the parent is reactivated, closed, or left to its child |
| `Router.Router.HandOff` | scripts/ubb_router/router.py:186-205 | table, supervisors and outcome become those of `RouterModel.HandOff`: the whole handoff |
| `Router.Router.Transfer` | scripts/ubb_router/router.py:207-232 | table, supervisors and outcome become those of `RouterModel.CloseSession`: a transfer is refused unless the session is active; end of stream and errors close it |
| `Inventory.CheckCycles` | scripts/ubb_network_hardening.py:35-44 | raises if and only if the dependencies between known services have a directed cycle, self-loops included; otherwise the order of finishing lists every service after all it depends on |
| `Inventory.Search.Visit` | scripts/ubb_network_hardening.py:37-43 | one visit terminates, raises only for a cycle, and otherwise finishes its node and restores the nodes being visited |
| `Inventory.Search.VisitDependencies` | scripts/ubb_network_hardening.py:41-42 | the loop of a visit leaves every dependency finished |
| `Inventory.OrderExcludesCycle` | scripts/ubb_network_hardening.py:35-44 | a complete finishing order and a cycle exclude each other |
| `Inventory.CutOut` | scripts/ubb_network_hardening.py:38-38 | meeting a node that is being visited closes a cycle |
| `Inventory.Validate` | scripts/ubb_network_hardening.py:29-34 | passes exactly when no two listeners collide and there is no cycle; a collision names the first listener that repeats an earlier one, with that one |
| `Throttle.LoginThrottle.Cleanup` | scripts/ubb_admin/auth.py:35-40 | removes exactly the expired pauses and then the oldest entries beyond the limit |
| `Throttle.LoginThrottle.RetryAfter` | scripts/ubb_admin/auth.py:42-47 | the longer of the two pauses, in seconds rounded up |
| `Throttle.LoginThrottle.Failure` | scripts/ubb_admin/auth.py:49-62 | counts both keys up, makes them the youngest, and keeps the table within its limit |
| `Throttle.LoginThrottle.Success` | scripts/ubb_admin/auth.py:64-67 | forgets both keys |
| `Throttle.DashboardApp.Login` | scripts/ubb_dashboard.py:31-40 | a refused login is not counted, a rejected one is, an accepted one clears |
| `ThrottleBound.FiveFailuresTakeFiveSeconds` | scripts/ubb_admin/auth.py:29-67 | over every sequence of logins on a monotone clock, any five consecutive failed verifications of one username, without a success or an eviction between, span at least five seconds |
| `ThrottleBound.CountsStopAtFour` | scripts/ubb_admin/auth.py:29-33 | with logins one after the other no count passes four and no pause five seconds |
| `ThrottleBound.TableStaysWithinLimit` | scripts/ubb_admin/auth.py:35-40 | the table never exceeds its limit after a call |
| `ThrottleBound.RefusedWhilePaused` | scripts/ubb_dashboard.py:32-34 | in every reachable state a login is refused if and only if its username or source has four failures and a pause that is not over |
| `ThrottleBound.EvictionForgetsFailures` | scripts/ubb_admin/auth.py:39-40 | why evictions are excepted: for every limit, failures at one moment whose usernames and sources come back only after enough others are never refused, and no count passes one |
| `ThrottleBound.OneUserFailsOften` | scripts/ubb_admin/auth.py:39-40 | so for every limit and every number there is a run in which one username fails that often at one moment |
| `ThrottleOverlap.LoginIsTwoRegions` | scripts/ubb_dashboard.py:31-40 | a login on its own is its check followed by its settling, so that sequences of logins are interleavings of these regions |
| `ThrottleOverlap.PassesFourIffCountedAtFour` | scripts/ubb_admin/auth.py:49-62 | over every interleaving, a count passes four, so that the delay starts to double, if and only if some failure is counted for the key while its live count is four |
| `ThrottleOverlap.CountingAtFourOverlaps` | scripts/ubb_dashboard.py:31-40 | that happens only if logins overlap: another failure was counted for the key between the check of that login and its count |
| `ThrottleOverlap.OverlapPassesFour` | scripts/ubb_admin/auth.py:49-62 | it does happen: five logins that are checked before any is counted reach the fifth count and ten seconds |
| `ThrottleOutcomes.DelayDoubles` | scripts/ubb_admin/auth.py:29-33 | no delay below four failures, five seconds at four, doubled with each one up to a minute |
| `ThrottleOutcomes.WaitRoundsUp` | scripts/ubb_admin/auth.py:42-47 | the wait is the time to the later pause in whole seconds, rounded up |
| `ThrottleOutcomes.FailureCounts` | scripts/ubb_admin/auth.py:49-62 | a failure counts both keys up by one with its delay; every other key keeps what it has unless it is expired or evicted, and none is evicted while there is room |
| `ThrottleOutcomes.SuccessClears` | scripts/ubb_admin/auth.py:64-67 | a success forgets both keys and nothing else |
| `ArchiveIntegrity.EverythingVerifiesForever` | scripts/ubb_archive.py:361-374 | over every serialized run of imports and derivations, failing and killed ones included: each record verifies, now and after any further run, and objects and records never change or go |
| `ArchiveIntegrity.LineageIsAcyclic` | scripts/ubb_archive.py:346-358 | no artifact descends from itself, and each recorded parent digest is that of the parent's record |
| `ArchiveIntegrity.StoredIsReceived` | scripts/ubb_archive.py:244-299 | a call that returns recorded the digests and size of what it received, met its expected digest, and stored that content unless an object of that digest was there |
| `ArchiveIntegrity.FailureLeavesAtMostAnObject` | scripts/ubb_archive.py:300-305 | a call that raises changes no record and leaves no lock; it may leave an object only if the record was not valid |
| `ArchiveIntegrity.LeftLockRefuses` | scripts/ubb_archive.py:256-259 | a lock without a record refuses every later well-formed call for its artifact id as being written, over every run |
| `ArchiveIntegrity.KilledLeavesLock` | scripts/ubb_archive.py:256-305 | a killed call leaves its lock; it leaves no record if and only if it was killed before writing one or would have raised |
| `ArchiveIntegrity.KilledBlocksIff` | scripts/ubb_archive.py:251-259 | whatever runs after a kill, every later call for the id is refused: as being written if that condition holds, as a duplicate otherwise |
| `ArchiveCalls.SerializedIsReached` | scripts/ubb_archive.py:244-305 | serialized runs, kills included, are interleavings of the regions of calls: asked for, checked, locked, linked, composed, written, unlocked |
| `ArchiveOverlap.RecordsVerify` | scripts/ubb_archive.py:361-374 | over every interleaving of calls, which may die between any two regions, every record there is verifies |
| `ArchiveOverlap.LineageStaysAcyclic` | scripts/ubb_archive.py:346-358 | over every interleaving no artifact descends from itself, whatever records were replaced |
| `ArchiveOverlap.ReplacedIffOverwritten` | scripts/ubb_archive.py:251-259 | over every interleaving, some record is replaced if and only if some call takes its lock for an artifact whose record is already there, and goes on to write a different one |
| `ArchiveOverlap.FindingOverlaps` | scripts/ubb_archive.py:251-259 | a call finds a record there only if another one wrote it after this call passed its check |
| `ArchiveOverlap.RecordsAreKept` | scripts/ubb_archive.py:244-305 | over every interleaving without such a write each record stays the same for good, verifies at any later moment, and agrees with the records of its parents |
| `ArchiveOverlap.OverlapReplacesRecord` | scripts/ubb_archive.py:251-259 | the input: two imports of one artifact that both pass the check before either takes the lock; the record is there after nine regions and another one after fourteen |
| `ArchiveIntegrity.ReceivedIsContent` | scripts/ubb_archive.py:183-196 | what is received is exactly the stream before its first empty chunk, when it fits |
| `ArchiveIntegrity.PreserveIsSound` | scripts/ubb_archive.py:244-305 | one call keeps every record matched with its object, its parents and its predecessors |
| `Archive.Archive.HashesFor` | scripts/ubb_archive.py:183-196 | result and store are those of `ArchiveModel.Received`: the chunk loop |
| `Archive.Archive.Quarantine` | scripts/ubb_archive.py:265-271 | result and store are those of `ArchiveModel.Content`: the checks on size and digests, in their order |
| `Archive.Archive.Fill` | scripts/ubb_archive.py:265-299 | result and store are those of `ArchiveModel.Admitted`: what happens under the lock |
| `Archive.Archive.Preserve` | scripts/ubb_archive.py:244-305 | result and store are those of `ArchiveModel.Preserve`: the whole call: lock taken and given back in every outcome |
| `Archive.Archive.Derive` | scripts/ubb_archive.py:346-358 | result and store are those of `ArchiveModel.Derive`: parents are loaded first, and an unknown one raises |
| `Archive.Archive.VerifyOne` | scripts/ubb_archive.py:361-374 | result and store are those of `ArchiveModel.VerifyOne`: reads the object piece by piece and compares digest and size |
| `ArchiveOutcomes.PreserveIff` | scripts/ubb_archive.py:244-299 | a call returns if and only if the artifact is free, what arrives is as expected and can be stored, and the record is described; it then records its digests, its size, the other artifacts from that address and its parents |
| `ArchiveOutcomes.ContentIff` | scripts/ubb_archive.py:183-205 | the content is accepted exactly if it is what the stream holds, of the expected size, and of the expected digests but for the case of letters |
| `ArchiveOutcomes.RefusedWith` | scripts/ubb_archive.py:244-259 | which refusals come before anything is read, and in which order |
| `ArchiveOutcomes.ImportRecords` | scripts/ubb_archive.py:308-315 | an import records an original without parents |
| `ArchiveOutcomes.DeriveOutcome` | scripts/ubb_archive.py:346-358 | an unknown parent raises; a derivation records its parents with the digests of their records, its action, and that it was made in the archive |
| `ArchiveOutcomes.Alphabets` | scripts/ubb_archive.py:24-25 | which texts are artifact ids and digests, letter by letter |
| `ArchiveOutcomes.VerifiesIff` | scripts/ubb_archive.py:361-374 | a record verifies if and only if it is valid and its object has its digest and size; and which error it is otherwise |
| `AlertHistory.ActiveIffHolding` | scripts/ubb_monitoring/engine.py:40-46 | a record is ACTIVE if and only if its condition is in the latest snapshot, so active ones are never evicted |
| `AlertHistory.RecordTellsHistory` | scripts/ubb_monitoring/engine.py:40-46 | `first_seen`, `last_seen`, `occurrence_count` and `cleared_at` of a record are the first time, the last time, the number of evaluations it was active since it was created, and the first time after |
| `AlertHistory.ClearedAreBounded` | scripts/ubb_monitoring/engine.py:47-49 | at most `retention` cleared records remain |
| `AlertHistory.RetentionIsExact` | scripts/ubb_monitoring/engine.py:47-49 | as many cleared records are kept as fit, no fewer |
| `AlertHistory.EvictionTakesOldest` | scripts/ubb_monitoring/engine.py:48-49 | nothing evicted was cleared later than something kept |
| `AlertHistory.ActiveIffReported` | scripts/ubb_monitoring/engine.py:31-38 | a condition is active if and only if some service or host of the snapshot is in it |
| `AlertHistory.ConditionIsReported` | scripts/ubb_monitoring/engine.py:31-38 | with an id each, the active condition under a key is exactly what is to be said of a service or host: severity, subject and text |
| `Alerts.SurplusIsPrefix` | scripts/ubb_monitoring/engine.py:48-49 | the records to evict are the first of the list sorted by the time they were cleared |
| `Alerts.SortCleared` | scripts/ubb_monitoring/engine.py:47-49 | sorts exactly the cleared records, ties in the order of the stored file |
| `Alerts.MonitoringEngine.Evaluate` | scripts/ubb_monitoring/engine.py:30-51 | the loops leave in the file exactly `Alerts.Evaluated` of the old file and the conditions of the snapshot |
| `Alerts.MonitoringEngine.constructor` | scripts/ubb_monitoring/engine.py:17-17 | the retention is never below ten |
| `Fidonet.ParsePrint` | scripts/ubb_ftn.py:10-15 | reading a printed address gives it back, with or without a point |
| `Fidonet.FtnAddressIsIdempotent` | scripts/ubb_ftn.py:10-15 | the canonical text is its own canonical text |
| `Fidonet.SameTextIffSameAddress` | scripts/ubb_ftn.py:10-15 | two accepted texts give the same output if and only if they have the same numbers and the same presence of a point |
| `Fidonet.AcceptedIffSpelled` | scripts/ubb_ftn.py:6-14 | accepted are exactly the spellings of addresses in range, with any leading zeros |
| `Fidonet.SpelledIsParsed` | scripts/ubb_ftn.py:6-13 | every spelling is read as its numbers |
| `Fidonet.ParsedIsSpelled` | scripts/ubb_ftn.py:6-13 | nothing else is read as an address |
| `Fidonet.CanonicalIsShortest` | scripts/ubb_ftn.py:13-15 | the output is never longer than the input |

## Left out

- SupervisorInvariants.RestartLimitHolds: counts grants since the last administrative start out of FAILED, because that start clears the list on purpose.
- SupervisorInvariants.Bookkeeping: excludes the public raw `transition` and starts under the reserved reason `sessions`, which bypass the bookkeeping by design.
- SupervisorInvariants.IdleStopIsJustified: a record describes the time until the next one is written, and recovery or administrative holds do not count as use.
- SupervisorMaintenance.AtMostOneJob: excludes reconciliations, and with them the ticks that begin with one, forced stops and failure notices while a job is in flight, which break it.
- SupervisorBackoff.NoRecoveryHoldIff: speaks of calls that return, and not of starts under the reason `recovery`.
- SupervisorBackoff.BackoffLeavesRecoveryHold: excludes later events that take the hold away or the service down, such as another failure, a forced stop or a crash.
- SupervisorJobKeys.LeakedKeyBlocksJob: excludes crashes, after which the keys are gone with the process.
- SupervisorOutcomes.StartOutcome: a start that is refused by its driver is the subject of `DownStart`, and one that is retried at once of `RecoverySucceedsIff` and of `SupervisorRecovery`.
- RouterConservation.HoldsAreConserved: excludes other clients of a supervisor's sessions, and forced stops and crashes of a supervisor that has sessions, which break it.
- RouterHandoff.HandoffIsExclusive: excludes restores by a child whose opening failed of a parent that is handing off, which break it.
- RouterLocks.RouterNeverDeadlocks: excludes parents registered after their children, and the locks inside connectors and stream adapters.
- ThrottleBound.FiveFailuresTakeFiveSeconds: excludes overlapping logins, which break it, and counts only between evictions and successes.
- ArchiveIntegrity.EverythingVerifiesForever: serialized calls, with a process killed at three points of `preserve_stream`; calls that overlap or die anywhere are those of `ArchiveOverlap`.
- ArchiveCalls.Proceed: a call looks for its object and links it in one region, and reads what it is given in one region.
- Throttle.LoginThrottle.RetryAfter: the clock counts whole milliseconds, so a remaining pause below one millisecond is not distinguished.
- Supervisor.Supervisor.Transition: the instance record is one value in a field of the object, so sharing of the record between objects is not modelled; the session table of the router is on the heap.
- Supervisor.Supervisor.TickService: one service of a tick. The order of services in a tick, and an exception in one that ends the tick for the others, are not part of the model.
- Router.Router.HandOff: no time passes between its regions; the interleaved regions are the steps of `RouterModel`.
- Files, JSON, fsync and temporary files: a save is one atomic write, journals are histories.
- Sockets, terminals, subprocesses, signals, process identity and the driver adapters.
- Hashing, password hashing and random identifiers: digests are any function, fresh ids are new numbers or names.
- The error texts, terminal capabilities, caller metadata, endpoints and runtime details stored in records.
- Drivers and registries that raise while they are looked up, before the service changes state.
- Numbers and spaces outside ASCII, Python's limit on the digits of `int`, and its recursion limit.
- Changes of the offset from UTC, and times below a millisecond.
- Cleaning of file names and URLs in the archive, guessing of media types, exports and the command line.
- Archives edited from outside, and a quarantined file left by a process of the same number.
- An alert file written by hand or unreadable, and an engine without a state directory.
- The catalog that fills the network inventory, its summary, digest and firewall intent.
- `restart` and `ensure_running`, which are compositions of modelled calls, and the runs of due jobs after a tick, which are maintenance runs like any other.
- Identifiers generated twice while a handoff is under way.
- Listing of direct services, status listings, readiness summaries, node allocation, mail, news, chat and exchange configuration: each property follows from one function body.
