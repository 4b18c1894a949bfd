# test_orch: a verified model

`test_orch` places test bundles on worker machines, runs each in a Docker container, and keeps
two things in one central database: how many containers each host has (`active_containers`)
and where each run has got to. Dispatchers, worker tasks, heartbeats and a central sweep all
write those rows, mostly without locks. This project models that protocol, the placement rule,
the admin status poll and the tag text they depend on, and proves what the code keeps.

Methods follow the Python that changes rows in place (classes `WorkerHost`, `TestExecution`,
`Broker`, `Coordinator`, loops with invariants). Each is proved against functions on row values
(`Reserve`, `ReleaseSlot`, `AfterAttempt`, `Reconcile`, `SweptRow`, `FailRow`, `WithStatus`), and
the transition systems take their steps with those same functions, so that a statement about
every interleaving is a statement about the rows the methods write. A transition system is a
function `Step(state, action)` that is `None` where the action cannot be taken; a theorem about
`Exec(start, actions)` covers every finite interleaving. What these functions compute is pinned by
lemmas on the fields of the rows (`IsBest`, `SweepIsExact`, `ReapedExactly`, `BeatRows`, `FaultLaws`),
and that no step of a protocol is missing by lemmas that take it (`Lives`, `AllCanFinish`,
`EveryPollGetsOne`, the traces).

| file | what it holds |
|---|---|
| `Models.dfy` | host and execution rows, as values and as objects |
| `Tags.dfy`, `Render.dfy` | tag text, HTML escaping, the sentinel message |
| `Scheduler.dfy`, `Submission.dfy` | filter, rank, `dispatch`, `submit_test` |
| `Placement.dfy` | admission, balance and optimality of a run of dispatches |
| `Dispatchers.dfy` | concurrent dispatchers under the row lock |
| `Worker.dfy`, `RunTask.dfy` | slot release, heartbeat, status writes, `run_test_bundle` |
| `Counter.dfy`, `LostUpdates.dfy` | the clamped counter; how far unlocked writes make it drift |
| `Capacity.dfy`, `Overbooking.dfy`, `SplitHeartbeat.dfy` | the life of a run across all participants |
| `Maintenance.dfy`, `Orphans.dfy`, `Liveness.dfy` | sweeps, stranded runs, timing |
| `DriftTraces.dfy`, `OrphanTraces.dfy` | concrete runs that reach the bad states |
| `Lives.dfy` | the ways one run can go, and what row writes mean for bookings |
| `PollState.dfy`, `AdminPoll.dfy`, `PollHistory.dfy` | the admin poll, alone, interleaved, and over its whole history |

## Where the code does not do what one would hope

- The generation test in `ws_admin` never suppresses anything: `my_gen` is a variable of the
  socket loop, shared by the closures of all polls, and is updated together with the counter it
  is compared to (`AdminPoll.GuardIsAlwaysTrue`). `backend/README.md` credits it with re-poll
  safety; cancellation is what provides it (`TableShowsLatestPoll`), and without cancellation a
  late row does reach the new table (`GuardAloneIsNotEnough`). The table is the previous poll's
  exactly while the new poll's clearing frame is still unsent (`ClearPending`).
- A commit that fails inside `dispatch` still triggers the compensating decrement, so that the
  host loses a slot it never gained (`Scheduler.FaultLaws`). A failed send leaves no trace when
  nothing comes between commit and compensation (`Capacity.AttemptIsSteps`). But the session keeps
  the row it committed (`backend/database.py:30`), so the compensation may write a stale count: a
  release in between is then lost (`DriftTraces.StaleUndoDrifts`).
- "The gauge never drifts upward" (`worker/README.md`) fails, with every transaction atomic, in
  exactly two kinds of step: a raising dispatch that is never undone, and a compensation that
  writes a stale count (`Capacity.ExcessGrowsExactly` says when and by how much,
  `DriftTraces.GiveUpDrifts` shows the first). Otherwise it holds (`NoUpwardDrift`), and a heartbeat
  that reaches Docker takes back whatever drifted, leaked slots included.
- The count also drifts down, and then dispatch books past the cap: a heartbeat that runs before
  a booked run's container is up takes the slot back (`Overbooking.HeartbeatOverbooks`).
  `ShortfallGrowsExactly` lists the steps that do such a thing, and `BookedWithinCap` bounds what
  comes of it.
- With a heartbeat's reads and commit apart, the count can stay too high by the slots given up in
  between. A heartbeat that cannot reach Docker writes back the count it read from the row, and
  so keeps the old excess and adds its own. SQLAlchemy leaves a column out of the update when the
  value assigned is the one it read, so such a heartbeat may also correct nothing
  (`SplitHeartbeat.SplitBound`, reached by `ExcessHappens`; `WriteRaisesExactly`).
- With releases apart too, the drift is exactly the sum of what each write missed
  (`LostUpdates.DriftIsSumOfSlips`): none where no write falls into another's window, and bounded by
  the releases, or bookings, inside the windows.
- A silent host is offline later than deadline + sweep interval + one sweep: the sweep that
  catches it starts within that bound, but marks within its own duration, and both durations
  are needed (`Liveness.TwoDurationsAreNeeded`). Each failed sweep adds an interval and a duration
  (`SilentHostGoesOffline`).
- Active runs can lose their host. `Orphans.CoveredExactly` names the only steps that do it: a target
  recorded, or a run started, on a host already offline and not in the list of a sweep under way,
  and a backend stop that forgets such a list. On a dead host the run is then stuck for ever
  (`StuckForEver`). With submissions and sweeps kept whole only the second is left
  (`NoOrphansExactly`), and timely heartbeats exclude it (`NoOrphans`).
- A finished run keeps its verdict exactly as long as the backend's record does not come late and
  its message is not handled again (`Orphans.VerdictKeptExactly`); the late record happens
  (`OrphanTraces.LateRecordHidesResult`). If the record's commit fails the run stays PENDING
  although its bundle is queued (`Submission.SubmitTest`).

## Assumptions

- Host ids and test ids are unique columns; a worker under a blank id does not start, as
  `celery_app.py` names its queue at import. `Dispatch` itself handles a blank id.
- `active_containers` and `cpu_utilization` are not negative: the score function asserts it, and
  every modelled writer is checked to keep it by its type. CPU load is a `real`.
- A `send_task` that raises has queued nothing, and a commit that raises has written nothing. Host
  rows are locked all at once.
- Redelivery happens after the worker process died; its container keeps running.
- Slots of hosts are only written by the code modelled here; no row is deleted.
- In `LostUpdates` a compensation is a release whose read is its own booking's, and Docker runs no
  more containers than slots are held (`Capacity.LiveWithinUnreleased`).
- Outside `LostUpdates` and `SplitHeartbeat`, a transaction that reads a row and writes it back is
  one step.
- In `AdminPoll`, sends succeed, a cancelled task only unwinds, and a frame reaches the wire
  somewhere between the call of `send_text` and its return. Replies are counted as messages.

## Model

| member | source | states |
|---|---|---|
| Tags.TagSetMeaning | backend/models.py:96-106 | a tag is in the parsed set exactly when it is a non-empty, trimmed part of a maximal comma-free stretch with only white space around it there |
| Tags.StripIsUnique | backend/models.py:106 | the stripped text is the one trimmed part of a text with only white space around it |
| Tags.SpacesAre | backend/models.py:106 | white space is the 29 characters of Unicode, one by one |
| Tags.NormalFormRoundTrip | backend/main.py:417 | the stored text parses to the same tags in the same order, holds nothing but them and the commas between, and normalising twice changes nothing |
| Tags.PieceIsSegment | backend/main.py:235 | every piece of the split is a maximal comma-free stretch of the text, the first one starting at 0 |
| Tags.SegmentIsPiece | backend/main.py:235 | every maximal comma-free stretch is a piece of the split |
| Tags.SplitUndoesJoin | backend/main.py:417 | splitting the joined text gives back any list of clean tags |
| Tags.JoinUndoesSplit | backend/main.py:235 | joining the pieces of any text gives it back |
| Worker.UpdateHost | backend/main.py:388-428 | exactly the named host gets the tags the typed text denotes, in normal form, the emulation flag, and the cap asked for or else 1 |
| Worker.ConfiguredMeaning | backend/main.py:417-424 | the same of the row: tags, flag and cap as typed, nothing else changed |
| Render.EscapeIsCharacterMap | backend/services/status_render.py:13-23 | the three successive replacements equal one character-by-character map |
| Render.EscapeIsSafe | backend/services/status_render.py:13-23 | no raw angle bracket is left, and unescaping gives back the text |
| Render.EscapeIsInjective | backend/main.py:140-150 | distinct texts escape to distinct texts |
| Render.SentinelThreshold | backend/services/status_render.py:53-80 | the shortfall the message names is the least number of further replies that completes the poll, and a partial message tells its counts |
| Scheduler.ChoiceIsUniqueLeast | backend/services/scheduler.py:119-126 | dispatch and `select_host` pick the one best host, and the score reported is 20 per container plus CPU load |
| Scheduler.ChoiceIgnoresRowOrder | backend/services/scheduler.py:153-159 | the choice is the same whatever order the rows come in |
| Scheduler.BestIndexIsBest | backend/services/scheduler.py:153-159 | a host is found iff some row can take the job, and among those 20 times its containers plus its CPU is least, ids in code point order breaking ties |
| Scheduler.FilterIsNeed | backend/services/scheduler.py:87-96 | the filter is: online, below its cap, emulation if required, and every required tag among those its text denotes |
| Scheduler.RankIsPreference | backend/services/scheduler.py:67-71 | the ranking key compares 20 times the difference in containers with the difference in CPU load, then the ids |
| Scheduler.TextLessMeaning | backend/services/scheduler.py:123 | an id comes first when it is a proper prefix, or smaller at the first difference |
| Scheduler.QueueNames | backend/services/scheduler.py:26-43 | a host has no queue exactly when its id is blank, and otherwise `queue_` and the id |
| Scheduler.MinByRankOfSurvivors | backend/services/scheduler.py:120-123 | filter-then-minimum equals the one-pass choice |
| Scheduler.TextLessTotal | backend/services/scheduler.py:123 | the tie-break on host ids is a strict total order |
| Scheduler.TagFilterOnText | backend/services/scheduler.py:87-96 | for form text and admin text the filter is inclusion of the tags the two raw texts denote, plus online, capacity and emulation |
| Scheduler.Dispatch | backend/services/scheduler.py:129-183 | on the fields of the rows: the best host that can take the job, its count after every combination of commit, send and compensation outcomes, no other row touched, and the bundle on its queue exactly when the call reports it |
| Scheduler.Attempt | backend/services/scheduler.py:166-180 | reserve, commit, send, compensate: the chosen row and its queue afterwards |
| Scheduler.FaultLaws | backend/services/scheduler.py:169-180 | exactly when an attempt leaves the row unchanged, one higher, or lower |
| Submission.SubmitTest | backend/main.py:234-277 | DISPATCHED, one job more on the least loaded suitable host, and on its queue a bundle with this id, these tags and this flag; or FAILED with nothing queued; PENDING exactly when the last commit fails, nothing at all when the first does |
| Submission.SomeHostSuits | backend/main.py:263-272 | with named hosts and no failing call, the bundle goes out exactly when some host suits the form |
| Submission.FilterIsSuits | backend/services/scheduler.py:87-96 | the filter on a form's bundle is what the form text asks of the host's text |
| Placement.ExactAdmission | backend/services/scheduler.py:87-96 | k same-requirement dispatches accept min(k, free slots on matching hosts) and use up exactly that many |
| Placement.Balance | backend/services/scheduler.py:154-168 | a host the run used scores at most 20 above any host still open |
| Placement.GivenIsPlacement | backend/services/scheduler.py:153-168 | the run respects requirements and caps |
| Placement.GreedyMinimisesPeak | backend/services/scheduler.py:53-96 | no placement of as many jobs that respects requirements and caps has a lower peak score |
| Placement.RunFrame | backend/services/scheduler.py:153-168 | a run changes nothing but counts, and the jobs it gave sum to the bundles accepted |
| Dispatchers.Serialisable | backend/services/scheduler.py:153-170 | every interleaving gives the inventory and outcomes of one sequential order |
| Dispatchers.NoDoubleBooking | backend/services/scheduler.py:153-170 | counts equal start plus bookings, bookings stop at the cap, sends go to the booked host's queue |
| Dispatchers.AllCanFinish | backend/services/scheduler.py:153-170 | no deadlock: from every interleaving all dispatchers can still finish |
| Dispatchers.UnlockedDoubleBooking | backend/services/scheduler.py:153 | without the row lock two dispatchers book the same last slot |
| Worker.DecrementActiveContainers | worker/tasks.py:146-168 | gives back one slot of the named host, never below zero, and touches no other row |
| Worker.PublishHeartbeat | worker/tasks.py:295-339 | on the fields: online, load, stamp, and the live count or the last known one when Docker fails; a new host gets a row with room for ten; no other row changes |
| Worker.SetStatus | worker/tasks.py:108-143 | the status, and target and URL where given; the stamp moves exactly when something changed; no-op without a row |
| Counter.ClampedLaw | worker/tasks.py:163-166 | the count is max(L + S_n, max over k of S_n - S_k), and its gain over L + S_n is the number of no-op releases |
| Counter.HeartbeatForgets | worker/tasks.py:334 | after a heartbeat the law starts afresh and nothing before it matters |
| Counter.NeverFurtherApart | worker/tasks.py:146-168 | two counters fed the same events never drift further apart |
| LostUpdates.DriftStep | worker/tasks.py:163-166 | a write keeps count less slots held exactly when it has seen the current count or leaves it alone, and otherwise moves it by the difference |
| LostUpdates.DriftIsSumOfSlips | worker/tasks.py:163-166 | over every run the drift is the sum of value seen less count replaced |
| LostUpdates.UndisturbedKeepsDrift | worker/tasks.py:163-166 | without heartbeats, and with no other write inside any window, the count follows the slots held exactly |
| LostUpdates.OverlapsBoundDrift | worker/tasks.py:314-337 | in every interleaving, heartbeats without Docker included, the count is too high by at most the slots given back inside the windows of the writes made |
| LostUpdates.OvertakesBoundDrift | worker/tasks.py:163-166 | without heartbeats it is too low by at most the bookings inside those windows |
| LostUpdates.CountStaysCapped | worker/tasks.py:163-166 | whatever overlaps, the count stays between 0 and the reservations made |
| LostUpdates.OverlappingReleasesLoseOne | worker/tasks.py:163-166 | two overlapping releases leave the count one too high |
| LostUpdates.ReleaseInsideHeartbeatIsLost | worker/tasks.py:314-337 | a release between a heartbeat's count and its commit leaves the count one too high |
| LostUpdates.QuietHeartbeatWrites | worker/tasks.py:314-337 | undisturbed, a heartbeat writes Docker's count, and without Docker leaves the count as it is |
| LostUpdates.ReservationInsideReleaseIsLost | worker/tasks.py:163-166 | a reservation inside a release's window is forgotten |
| RunTask.StreamLogs | worker/tasks.py:227-232 | the history gets the numbered lines, the live stream the lines, the index every 25th, each a prefix at most one line apart, up to the first line at which a sink raises |
| RunTask.CheckpointsAreMultiples | worker/tasks.py:230-232 | the index holds the multiples of 25 reached, ceil(n/25) of them |
| RunTask.UploadArtifacts | worker/tasks.py:238-249 | the URL kept is the first artifact's that could be uploaded |
| RunTask.ArtifactsAre | worker/tasks.py:239 | artifacts are the names ending in `.log`, `.dmp`, `.core` or `.tar.gz` |
| RunTask.TryBlock | worker/tasks.py:206-253 | returns iff nothing raised, PASSED for exit code 0 and FAILED otherwise, and writes that to the row |
| RunTask.HandleFailure | worker/tasks.py:254-262 | FAILED, then one release of the reservation if the status write worked |
| RunTask.Finally | worker/tasks.py:263-268 | container removed, then slot released, then log client closed, up to the call that raises; the slot is back even if closing raises |
| RunTask.RunTestBundle | worker/tasks.py:175-268 | on the outcomes of the calls: the exact sequence of status writes, start, cleanup, release and close from every failure point; PASSED iff nothing raised and exit code 0; the row's final status, target and URL; the slot and the reservation given back |
| Capacity.StepKeepsRouted | worker/celery_app.py:22-31 | every job is queued for and handled by the host whose slot it holds, and containers belong to jobs not past removal |
| Capacity.LiveWithinUnreleased | worker/tasks.py:263-267 | the running containers of a host belong to runs holding a slot there |
| Capacity.ExcessGrowsExactly | backend/services/scheduler.py:169-180 | exactly which steps raise a host's count above the slots held, and by exactly how much: a raising dispatch never undone, and a compensation that writes a stale count |
| Capacity.NoUpwardDrift | worker/tasks.py:327-337 | over every run the count exceeds the slots held by at most the excess at the start plus that growth since the last heartbeat that reached Docker; by no more than at the start if every raising dispatch was undone |
| Capacity.HeartbeatRemovesExcess | worker/tasks.py:311-337 | a heartbeat that reaches Docker removes any excess, and only such steps bring some back |
| Capacity.HeartbeatClearsLeaks | worker/tasks.py:314-337 | after it, leaked slots without a running container no longer count as held |
| Capacity.AttemptIsSteps | backend/services/scheduler.py:166-180 | with nothing in between, the commit, send and compensation steps leave the row `dispatch` leaves, for every combination of outcomes |
| Capacity.StepConserves | backend/services/scheduler.py:159-183 | in every state, exactly which steps keep the difference between a count and the slots held |
| Capacity.ReservationsConserved | backend/services/scheduler.py:159-183 | through such steps each count is its starting difference plus the slots held, failed sends included |
| Overbooking.ShortfallGrowsExactly | worker/tasks.py:327-337 | exactly which steps leave more slots held than counted, and by exactly how much: a heartbeat that misses held slots, two kinds of compensation, a redelivered run |
| Overbooking.ShortfallWithinDips | worker/tasks.py:327-337 | over every run the slots held exceed the count by at most the start plus those amounts |
| Overbooking.BookedWithinCap | backend/services/scheduler.py:89-90 | whenever dispatch books, the slots held on the host are within the cap plus that shortfall |
| Overbooking.HeartbeatOverbooks | worker/tasks.py:327-334 | a heartbeat before the first container is up lets a host with one slot be booked twice |
| Overbooking.RedeliveryOverbooks | worker/celery_app.py:22-31 | a message delivered again after its slot was given back overbooks a host |
| Overbooking.FailedCommitUndercounts | backend/services/scheduler.py:174-179 | the compensation for a failed commit takes a slot that was never added |
| Overbooking.StaleUndoUndercounts | backend/services/scheduler.py:174-179 | a compensation from a stale row forgets a booking made in between |
| Lives.ContainersMove | worker/tasks.py:215-265 | a container appears with its run's launch, stays until its run's cleanup, and never runs again once exited |
| Lives.RunCompletes | worker/tasks.py:175-268 | a queued run can go through to its end, whatever else is going on, and then its slot is free and its container gone |
| Lives.SweepStopsBookings | backend/services/scheduler.py:87-88 | a host swept offline is not booked until it is heard from |
| Lives.ConfiguredTermsHold | backend/main.py:417-425 | a host is booked on the terms last configured for it |
| DriftTraces.GiveUpDrifts | backend/services/scheduler.py:174-180 | a failed send whose compensation fails leaves a slot nobody holds |
| DriftTraces.StaleUndoDrifts | backend/services/scheduler.py:174-180 | a release between commit and compensation is lost to a stale compensation |
| DriftTraces.SwappedOrderDrifts | worker/tasks.py:264-267 | releasing before removing lets a heartbeat leave the count too high |
| DriftTraces.SnapshotIsReached | worker/tasks.py:198-218 | the traces start from a state one dispatched run reaches |
| SplitHeartbeat.WriteRaisesExactly | worker/tasks.py:327-337 | a commit raises the excess exactly when it writes a count above both the row's and the slots held; an unchanged column is not written |
| SplitHeartbeat.SplitBound | worker/tasks.py:314-337 | the count stays within the slots held plus those given up inside the flights of all heartbeats written since, and including, the last one that reached Docker |
| SplitHeartbeat.QuietHeartbeatCorrects | worker/tasks.py:314-337 | a heartbeat that reached Docker, with no slot given up in its flight, removes the excess until the next one is written, but for what came after it read a row that already showed its count |
| SplitHeartbeat.ExcessHappens | worker/tasks.py:314-337 | the allowance is used, and a heartbeat that cannot reach Docker keeps the excess |
| Maintenance.SweepStaleHosts | backend/services/maintenance.py:39-69 | marks the stale rows offline, reports them in order, changes nothing else |
| Maintenance.SweepIsExact | backend/services/maintenance.py:51-69 | exactly the online hosts with no heartbeat, or one before the cutoff, go offline; the report is their ids in table order |
| Maintenance.StaleIdsExact | backend/services/maintenance.py:51-66 | reported iff online with a missing or too old heartbeat |
| Maintenance.SweepTwice | backend/services/maintenance.py:51-69 | sweeping at t1 then t2 >= t1 leaves what sweeping at t2 leaves |
| Maintenance.SweepTwiceReports | backend/services/maintenance.py:51-69 | between them the two sweeps report the same hosts, with multiplicity |
| Maintenance.SweepsReportDisjointly | backend/services/maintenance.py:52 | no host is reported twice |
| Maintenance.FailOrphanedRuns | backend/services/maintenance.py:72-106 | fails exactly the active runs on the hosts, one release attempt per reservation in order, and counts them |
| Maintenance.OrphansFailedExactly | backend/services/maintenance.py:86-105 | exactly the DISPATCHED and RUNNING runs of those hosts become FAILED; the reservations tried are theirs, those present and not empty, in table order; the number is theirs |
| Maintenance.CountIsRowsChanged | backend/services/maintenance.py:106 | the number returned is the number of rows changed |
| Maintenance.RunMaintenanceSweep | backend/services/maintenance.py:109-134 | no active run is left on a host the sweep took offline |
| Maintenance.SweepFailsExactly | backend/services/maintenance.py:109-134 | the runs failed are exactly those in flight on a host the sweep took offline |
| Maintenance.ReapStale | worker/tasks.py:343-379 | fails this host's runs RUNNING and untouched for two hours, attempting every release |
| Maintenance.ReapedExactly | worker/tasks.py:343-379 | exactly the runs RUNNING here and untouched for more than two hours become FAILED, none is left, and the reservations tried are theirs |
| Orphans.CoverLostExactly | backend/services/maintenance.py:67-105 | exactly which steps leave an active run on a host that is neither online nor in the list of a sweep under way |
| Orphans.CoveredExactly | backend/main.py:265-275 | in every interleaving all active runs stay covered, hence online between sweeps, exactly when none of those steps is taken |
| Orphans.NoOrphansExactly | backend/services/maintenance.py:86-105 | with submissions and sweeps kept whole, every active run sits on an online host throughout exactly when no worker starts a run on a host marked offline |
| Orphans.NoOrphans | backend/services/maintenance.py:51-65 | which never happens when heartbeats are on time at each sweep |
| Orphans.StuckForEver | backend/services/maintenance.py:52 | an uncovered run whose host is dead stays active under every later step of anyone |
| Orphans.VerdictKeptExactly | backend/main.py:270-275 | in every interleaving a finished run shows its verdict in all states reached exactly when no late record, restart or other result is written to it |
| Orphans.VerdictIsSaid | worker/tasks.py:251-256 | a run comes to show PASSED only by its worker's report, and FAILED only by a refusal, its worker, its reaper or a sweep |
| Orphans.SubmitIsDispatch | backend/main.py:262-275 | submissions kept whole do to the rows what `dispatch` and the record do |
| Orphans.SweepIsMaintenance | backend/services/maintenance.py:109-134 | sweeps kept whole do what `run_maintenance_sweep` does |
| Orphans.ReaperFails | worker/tasks.py:359-378 | a run RUNNING on a live host is failed by its reaper once two hours old |
| Orphans.HeartbeatRevives | worker/tasks.py:333-336 | a live host's heartbeat puts it back online, safe from sweeps for the timeout |
| OrphanTraces.SweepInsideSubmitStrands | backend/main.py:265-275 | a sweep between slot commit and target write strands a run |
| OrphanTraces.StopInsideSweepStrands | backend/services/maintenance.py:67-105 | a stop between the sweep's two commits strands a run |
| OrphanTraces.LateHeartbeatStrands | worker/tasks.py:205 | a worker starts a run on its host although a sweep took the host offline for a late heartbeat |
| OrphanTraces.LateRecordHidesResult | backend/main.py:270-275 | such a late record happens, and leaves a finished run DISPATCHED |
| Liveness.FreshHostStaysOnline | backend/services/maintenance.py:51-65 | with skew e, heartbeats never older than timeout - e at a sweep keep the host online |
| Liveness.SkewIsNeeded | backend/services/maintenance.py:51-65 | a host whose clock is slow is marked with a heartbeat fresher than the timeout by just that much |
| Liveness.SilentHostGoesOffline | backend/main.py:79-88 | a silent host is marked offline, for good, within r + 1 intervals and r + 2 durations past its deadline when r rounds fail first |
| Liveness.LateLoopMarks | backend/main.py:79-88 | the same for a loop that only starts past the deadline |
| Liveness.TwoDurationsAreNeeded | backend/main.py:79-88 | without failures the mark can land two durations past the interval |
| PollState.Coordinator.EmitSentinel | backend/main.py:579-603 | sends the sentinel for the current count unless one was sent |
| PollState.Coordinator.OnReply | backend/main.py:564-577 | counts one reply; the completing one emits the sentinel |
| PollState.ConsumeFanout | backend/main.py:466-474 | uninterrupted: all rows in order, with the "all responded" line right after the completing reply |
| PollState.TranscriptStep | backend/main.py:466-474 | from nothing, one more message adds its row if its body renders to one and, if it completes the set, the sentinel |
| AdminPoll.GuardIsAlwaysTrue | backend/main.py:671-707 | the two values the generation test compares are equal at every await |
| AdminPoll.StepKeepsShape | backend/main.py:661-747 | only the latest poll's tasks are ever live, and the lock has one holder |
| AdminPoll.TableShowsLatestPoll | backend/main.py:661-707 | every row in the browser's table answers the poll that last cleared it, the latest one |
| AdminPoll.TableFromTheStart | backend/main.py:661-707 | the same from a fresh socket |
| AdminPoll.GuardAloneIsNotEnough | backend/main.py:693-707 | without cancellation the generation test lets a late row into the new table |
| AdminPoll.SentinelsAreSafe | backend/main.py:579-603 | at most one sentinel per poll, worded for its number, whose replies had their rows sent earlier |
| AdminPoll.ExactlyOneSentinel | backend/main.py:579-624 | in every interleaving a poll has exactly one sentinel once its timer has ended uncancelled, or all replies are counted and its consumer has gone on |
| AdminPoll.TimerCanFinish | backend/main.py:593-624 | the lock is never stuck: an uncancelled timer is at most six steps of its own poll from its end |
| AdminPoll.EveryPollGetsOne | backend/main.py:579-624 | on a fresh socket, whatever happened so far, those steps leave an uncancelled poll with exactly one sentinel |
| AdminPoll.NumberIsCountAtRendering | backend/main.py:597-602 | the number of every sentinel on the wire is exactly how many replies its poll had counted when the sender entered the lock, before the frame went out |
| PollHistory.PollsAreAsAsked | backend/main.py:671-707 | poll j has the correlation id and the number of hosts of the j-th request, and has counted the replies delivered to it, all but for one whose row is going out |
| PollHistory.FromTheStart | backend/main.py:564-624 | every sentinel on a fresh socket is the only one of its poll; its number is the replies delivered when its sender entered the lock; it says "all responded" iff it is at least the number of hosts asked, above 0, and anything else only after the grace period, with the right shortfall |
| PollHistory.LineShowsLatestPoll | backend/main.py:661-707 | the sentinel in the browser is the latest poll's once the old one has been blanked |
| PollHistory.SilentAfterDisconnect | backend/main.py:744-746 | after a disconnect nothing more is ever sent |
| PollHistory.BrokenConsumerStillAnswered | backend/main.py:606-624 | a poll whose consumer breaks off still gets its one sentinel |
| PollHistory.EveryReplyIsTaken | backend/main.py:466-474 | a consumer at rest takes every reply to its poll, with a row or without |

## Left out

- LDAP, sessions, cookies, redirects, templates and HTML markup: only the sentinel's three messages and escaping are modelled.
- RabbitMQ, Celery, Docker, InfluxDB, Quali and Artifactory: outcomes, queues and a set of containers stand in for them.
- Bundle field validation and the `require_*` guards: input they reject never reaches the code modelled here.
- The 512-character limit on stored tags and other column widths: the model's text is unbounded.
- Floating point: CPU load and scores are reals, so rounding in score ties is not modelled.
- LostUpdates.OverlapsBoundDrift: a run gives back its slot once; redelivery is in `Capacity`.
- SplitHeartbeat.SplitBound: hosts register before the run starts, and one heartbeat per host is in flight.
- Orphans.CoveredExactly: hosts register before the run starts.
- Dispatchers.Serialisable: every commit and send succeeds, and heartbeats do not write in between.
- PollState.ConsumeFanout: runs without interleaving; `AdminPoll` is where the consumer, the timer and the loop interleave.
- The log websocket and the dashboard pages: they read and render only.
