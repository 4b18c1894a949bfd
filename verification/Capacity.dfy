/**
 * The life of a run across scheduler, broker, worker and Docker, as a transition system
 * with one step per database transaction, broker call or daemon call. The steps of all
 * participants interleave freely; in particular between a dispatcher's commit, its send and
 * its compensation.
 */
module Capacity {
  import opened Models
  import opened Scheduler
  import opened Worker
  import Maintenance
  import Tags

  /**
   * Sending: slot committed, message not out. Undoing: dispatch raised, and its compensation
   * is still to come; `reserved` unless it was the commit that raised. Abandoned: dispatch is
   * over without a message. Leaked: the run ended without giving back its slot (a failure
   * before the `try`, or one of removing the container or giving back the slot). Released: slot given back,
   * message not yet acknowledged.
   */
  datatype Stage =
    | Sending | Undoing(reserved: bool) | Abandoned
    | Queued | Taken | Launched | Removed | Released | Acknowledged | Leaked

  /**
   * `slot` is the row whose slot was reserved, `queue` where the bundle is sent, and `before`
   * the count the dispatcher read under the lock.
   */
  datatype Job = Job(slot: nat, queue: string, before: nat, worker: Option<nat>, stage: Stage)

  /** A container on a host's daemon; it may have exited without having been removed. */
  datatype Container = Container(host: nat, running: bool)

  datatype State = State(rows: seq<Host>, jobs: map<string, Job>, containers: map<string, Container>)

  datatype Action =
    | Book(bundle: Bundle)
    | BookFails(bundle: Bundle)
    | Send(test: string)
    | SendFails(test: string)
    | Undo(test: string, cached: bool)
    | GiveUp(test: string)
    | Take(test: string, worker: nat)
    | SetupFails(test: string)
    | Launch(test: string)
    | Exit(test: string)
    | Remove(test: string)
    | RemoveFails(test: string)
    | Release(test: string)
    | ReleaseFails(test: string)
    | Acknowledge(test: string)
    | Redeliver(test: string)
    | Heartbeat(hostId: string, dockerUp: bool, cpu: NonNegative, now: int)
    | Sweep(cutoff: int)
    | Configure(host: nat, tags: string, emulation: bool, cap: int)

  /** The running containers Docker would count on host k. */
  function LiveOn(s: State, k: nat): set<string> {
    set t | t in s.containers && s.containers[t] == Container(k, true)
  }

  predicate Holds(stage: Stage) {
    match stage
    case Undoing(reserved) => reserved
    case _ => !stage.Abandoned? && !stage.Released? && !stage.Acknowledged?
  }

  /** The runs, and the dispatches in flight, that hold a slot reserved on host k. */
  function UnreleasedOn(s: State, k: nat): set<string> {
    set t | t in s.jobs && s.jobs[t].slot == k && Holds(s.jobs[t].stage)
  }

  /** The row this heartbeat writes, or the position of the one it adds. */
  function RowOf(s: State, hostId: string): nat {
    match Find(s.rows, hostId) case Some(k) => k case None => |s.rows|
  }

  predicate IsRowAction(a: Action) {
    a.Heartbeat? || a.Sweep? || a.Configure?
  }

  /** The table after a step that only writes host rows. */
  function RowsAfter(s: State, a: Action): Option<seq<Host>>
    requires IsRowAction(a)
  {
    match a
    case Heartbeat(id, dockerUp, cpu, now) =>
      Some(Beat(s.rows, id, if dockerUp then Some(|LiveOn(s, RowOf(s, id))|) else None, cpu, now))
    case Sweep(cutoff) => Some(Maintenance.Swept(s.rows, cutoff))
    case Configure(k, tags, emulation, cap) =>
      if k < |s.rows| then Some(s.rows[k := s.rows[k].(tags := tags, emulation := emulation, cap := cap)]) else None
  }

  predicate IsBooking(a: Action) {
    a.Book? || a.BookFails?
  }

  predicate IsJobAction(a: Action) {
    !IsRowAction(a) && !IsBooking(a) && !a.Exit?
  }

  /** The job after a step of its own life, or None when it is not at that point. */
  function JobAfter(rows: seq<Host>, j: Job, a: Action): Option<Job>
    requires IsJobAction(a)
  {
    match a
    case Send(_) => if j.stage.Sending? then Some(j.(stage := Queued)) else None
    case SendFails(_) => if j.stage.Sending? then Some(j.(stage := Undoing(true))) else None
    case Undo(_, cached) =>
      // after a failed commit the rollback has expired the session's row, so it is read again
      if j.stage.Undoing? && j.slot < |rows| && (cached ==> j.stage.reserved)
      then Some(j.(stage := Abandoned)) else None
    case GiveUp(_) =>
      // the compensation raises, or the backend stops before it
      if j.stage.Sending? || j.stage.Undoing? then Some(j.(stage := Abandoned)) else None
    case Take(_, w) =>
      // a worker consumes only the queue named after its own host
      if j.stage.Queued? && w < |rows| && QueueNameFor(rows[w].hostId) == Some(j.queue)
      then Some(j.(worker := Some(w), stage := Taken)) else None
    case SetupFails(_) => if j.stage.Taken? then Some(j.(stage := Leaked)) else None
    case Launch(_) => if j.stage.Taken? && j.worker.Some? then Some(j.(stage := Launched)) else None
    case Remove(_) => if j.stage.Taken? || j.stage.Launched? then Some(j.(stage := Removed)) else None
    case RemoveFails(_) => if j.stage.Taken? || j.stage.Launched? then Some(j.(stage := Leaked)) else None
    case Release(_) =>
      if j.stage.Removed? && j.worker.Some? && j.worker.value < |rows| then Some(j.(stage := Released)) else None
    case ReleaseFails(_) => if j.stage.Removed? then Some(j.(stage := Leaked)) else None
    case Acknowledge(_) => if j.stage.Released? then Some(j.(stage := Acknowledged)) else None
    case Redeliver(_) =>
      // the worker process died before acknowledging; its container, if any, lives on
      if j.stage.Taken? || j.stage.Launched? || j.stage.Removed? || j.stage.Released?
      then Some(j.(stage := Queued)) else None
  }

  /** The row after the compensation: the session may still hold it as it was committed. */
  function Undone(h: Host, j: Job, cached: bool): Host {
    if cached then h.(active := j.before) else ReleaseSlot(h)
  }

  function RowsAfterJob(rows: seq<Host>, j: Job, a: Action): seq<Host>
    requires IsJobAction(a) && JobAfter(rows, j, a).Some?
  {
    match a
    case Release(_) => rows[j.worker.value := ReleaseSlot(rows[j.worker.value])]
    case Undo(_, cached) => rows[j.slot := Undone(rows[j.slot], j, cached)]
    case _ => rows
  }

  function ContainersAfter(containers: map<string, Container>, j: Job, a: Action): map<string, Container>
    requires IsJobAction(a)
  {
    if a.Launch? && a.test !in containers && j.worker.Some? then
      // Docker refuses a second container of the same name, and the run goes on to clean up
      containers[a.test := Container(j.worker.value, true)]
    else if a.Remove? then containers - {a.test}
    else containers
  }

  /** One step, or None when it cannot be taken. */
  function Step(s: State, a: Action): Option<State> {
    if IsRowAction(a) then
      match RowsAfter(s, a) case None => None case Some(rows) => Some(s.(rows := rows))
    else if IsBooking(a) then
      match BestIndex(s.rows, a.bundle)
      case None => None
      case Some(k) =>
        var name := QueueNameFor(s.rows[k].hostId);
        if name.None? || a.bundle.testId in s.jobs then None else
          var j := Job(k, name.value, s.rows[k].active, None, if a.Book? then Sending else Undoing(false));
          Some(s.(rows := if a.Book? then s.rows[k := Reserve(s.rows[k])] else s.rows,
                  jobs := s.jobs[a.bundle.testId := j]))
    else if a.Exit? then
      if a.test in s.containers && s.containers[a.test].running
      then Some(s.(containers := s.containers[a.test := s.containers[a.test].(running := false)])) else None
    else if a.test !in s.jobs then None
    else
      var j := s.jobs[a.test];
      match JobAfter(s.rows, j, a)
      case None => None
      case Some(after) =>
        Some(State(RowsAfterJob(s.rows, j, a), s.jobs[a.test := after], ContainersAfter(s.containers, j, a)))
  }

  function Exec(s: State, acts: seq<Action>): Option<State>
    decreases |acts|
  {
    if acts == [] then Some(s) else
      match Step(s, acts[0]) case None => None case Some(t) => Exec(t, acts[1..])
  }

  // --- routing --------------------------------------------------------------------

  /** Every job is queued for, and handled by, the host whose slot it holds. */
  ghost predicate JobRouted(rows: seq<Host>, j: Job) {
    && j.slot < |rows|
    && QueueNameFor(rows[j.slot].hostId) == Some(j.queue)
    && (j.worker.Some? ==> j.worker == Some(j.slot))
    && (j.stage.Taken? || j.stage.Launched? || j.stage.Removed? ==> j.worker.Some?)
  }

  /** A container exists only for a run that has not got past removing it. */
  ghost predicate ContainerOwned(jobs: map<string, Job>, t: string, c: Container) {
    && t in jobs && c.host == jobs[t].slot
    && (jobs[t].stage.Queued? || jobs[t].stage.Taken? || jobs[t].stage.Launched? || jobs[t].stage.Leaked?)
  }

  ghost predicate Routed(s: State) {
    && UniqueIds(s.rows)
    && (forall t :: t in s.jobs ==> JobRouted(s.rows, s.jobs[t]))
    && (forall t :: t in s.containers ==> ContainerOwned(s.jobs, t, s.containers[t]))
  }

  ghost predicate SameIds(rows: seq<Host>, after: seq<Host>) {
    |rows| <= |after| && forall k :: 0 <= k < |rows| ==> after[k].hostId == rows[k].hostId
  }

  lemma QueueNamesDiffer(a: string, b: string)
    requires QueueNameFor(a).Some? && QueueNameFor(a) == QueueNameFor(b)
    ensures a == b
  {
    assert ("queue_" + a)[6..] == a && ("queue_" + b)[6..] == b;
  }

  lemma RowActionsKeepIds(s: State, a: Action)
    requires IsRowAction(a) && RowsAfter(s, a).Some?
    ensures SameIds(s.rows, RowsAfter(s, a).value)
    ensures UniqueIds(s.rows) ==> UniqueIds(RowsAfter(s, a).value)
  {
  }

  lemma RowsKeepIds(s: State, a: Action)
    requires UniqueIds(s.rows) && Step(s, a).Some?
    ensures SameIds(s.rows, Step(s, a).value.rows) && UniqueIds(Step(s, a).value.rows)
  {
    if IsRowAction(a) { RowActionsKeepIds(s, a); }
  }

  /** A step of a job's own life keeps it routed. */
  lemma JobAfterRouted(rows: seq<Host>, j: Job, a: Action)
    requires UniqueIds(rows) && JobRouted(rows, j) && IsJobAction(a) && JobAfter(rows, j, a).Some?
    ensures JobRouted(rows, JobAfter(rows, j, a).value)
    ensures JobAfter(rows, j, a).value.slot == j.slot
  {
    if a.Take? { QueueNamesDiffer(rows[a.worker].hostId, rows[j.slot].hostId); }
  }

  lemma RoutedWithIds(rows: seq<Host>, after: seq<Host>, j: Job)
    requires JobRouted(rows, j) && SameIds(rows, after)
    ensures JobRouted(after, j)
  {
  }

  /** How a step from s to t moves the jobs: at most its own changes. */
  ghost predicate JobsMove(s: State, a: Action, t: State) {
    if IsJobAction(a) then
      && a.test in s.jobs && JobAfter(s.rows, s.jobs[a.test], a).Some?
      && t.jobs == s.jobs[a.test := JobAfter(s.rows, s.jobs[a.test], a).value]
    else if IsBooking(a) then
      && a.bundle.testId !in s.jobs && a.bundle.testId in t.jobs
      && t.jobs == s.jobs[a.bundle.testId := t.jobs[a.bundle.testId]]
      && BestIndex(s.rows, a.bundle) == Some(t.jobs[a.bundle.testId].slot)
      && t.jobs[a.bundle.testId].stage == if a.Book? then Sending else Undoing(false)
    else t.jobs == s.jobs
  }

  lemma JobsStep(s: State, a: Action)
    requires Step(s, a).Some?
    ensures JobsMove(s, a, Step(s, a).value)
  {
  }

  lemma JobRoutedAfter(s: State, a: Action, t: State, test: string)
    requires Routed(s) && JobsMove(s, a, t) && SameIds(s.rows, t.rows) && test in t.jobs
    requires IsBooking(a) ==> JobRouted(t.rows, t.jobs[a.bundle.testId])
    ensures JobRouted(t.rows, t.jobs[test])
  {
    if test in s.jobs {
      RoutedWithIds(s.rows, t.rows, s.jobs[test]);
      if IsJobAction(a) && a.test == test {
        JobAfterRouted(s.rows, s.jobs[test], a);
        RoutedWithIds(s.rows, t.rows, t.jobs[test]);
      }
    }
  }

  lemma BookedIsRouted(s: State, a: Action)
    requires IsBooking(a) && Step(s, a).Some?
    ensures JobRouted(Step(s, a).value.rows, Step(s, a).value.jobs[a.bundle.testId])
  {
  }

  lemma JobStaysRouted(s: State, a: Action, t: string)
    requires Routed(s) && Step(s, a).Some? && t in Step(s, a).value.jobs
    ensures JobRouted(Step(s, a).value.rows, Step(s, a).value.jobs[t])
  {
    RowsKeepIds(s, a);
    JobsStep(s, a);
    if IsBooking(a) { BookedIsRouted(s, a); }
    JobRoutedAfter(s, a, Step(s, a).value, t);
  }

  /** A container's job may go back to the queue or leak, but not past removal. */
  lemma OwnedAfter(rows: seq<Host>, j: Job, a: Action)
    requires IsJobAction(a) && JobAfter(rows, j, a).Some? && !a.Remove?
    requires j.stage.Queued? || j.stage.Taken? || j.stage.Launched? || j.stage.Leaked?
    ensures var after := JobAfter(rows, j, a).value;
            after.slot == j.slot
            && (after.stage.Queued? || after.stage.Taken? || after.stage.Launched? || after.stage.Leaked?)
  {
  }

  /** The containers a job's own step leaves are still owned. */
  lemma JobActionOwned(s: State, a: Action, t: string)
    requires Routed(s) && IsJobAction(a) && a.test in s.jobs && JobAfter(s.rows, s.jobs[a.test], a).Some?
    requires t in ContainersAfter(s.containers, s.jobs[a.test], a)
    ensures ContainerOwned(s.jobs[a.test := JobAfter(s.rows, s.jobs[a.test], a).value], t,
                           ContainersAfter(s.containers, s.jobs[a.test], a)[t])
  {
    assert JobRouted(s.rows, s.jobs[a.test]);
    if t in s.containers {
      assert ContainerOwned(s.jobs, t, s.containers[t]);
      if t == a.test && !a.Remove? { OwnedAfter(s.rows, s.jobs[t], a); }
    }
  }

  lemma ContainerStaysOwned(s: State, a: Action, t: string)
    requires Routed(s) && Step(s, a).Some? && t in Step(s, a).value.containers
    ensures ContainerOwned(Step(s, a).value.jobs, t, Step(s, a).value.containers[t])
  {
    if IsJobAction(a) {
      JobActionOwned(s, a, t);
    } else {
      assert t in s.containers && ContainerOwned(s.jobs, t, s.containers[t]);
    }
  }

  lemma StepKeepsRouted(s: State, a: Action)
    requires Routed(s) && Step(s, a).Some?
    ensures Routed(Step(s, a).value)
  {
    RowsKeepIds(s, a);
    var after := Step(s, a).value;
    forall t | t in after.jobs ensures JobRouted(after.rows, after.jobs[t]) { JobStaysRouted(s, a, t); }
    forall t | t in after.containers ensures ContainerOwned(after.jobs, t, after.containers[t]) {
      ContainerStaysOwned(s, a, t);
    }
  }

  // --- how far the count drifts up ------------------------------------------------------

  /** How far the count on host k exceeds the slots held there. */
  function Excess(s: State, k: nat): nat {
    if k < |s.rows| && s.rows[k].active > |UnreleasedOn(s, k)|
    then s.rows[k].active - |UnreleasedOn(s, k)| else 0
  }

  lemma SubsetSize(a: set<string>, b: set<string>)
    requires a <= b
    ensures |a| <= |b|
  {
    assert b == a + (b - a) && |b| == |a| + |b - a|;
  }

  /** The containers Docker counts belong to runs that still hold a slot. */
  lemma LiveWithinUnreleased(s: State, k: nat)
    requires Routed(s)
    ensures LiveOn(s, k) <= UnreleasedOn(s, k)
    ensures |LiveOn(s, k)| <= |UnreleasedOn(s, k)|
  {
    forall t | t in LiveOn(s, k) ensures t in UnreleasedOn(s, k) {
      assert ContainerOwned(s.jobs, t, s.containers[t]);
    }
    SubsetSize(LiveOn(s, k), UnreleasedOn(s, k));
  }

  /** Who holds a slot on k after the step. */
  function HoldersAfter(s: State, a: Action, k: nat): set<string> {
    var held := UnreleasedOn(s, k);
    match a
    case Book(b) => if BestIndex(s.rows, b) == Some(k) then held + {b.testId} else held
    case Undo(t, _) => held - {t}
    case GiveUp(t) => held - {t}
    case Release(t) => held - {t}
    case Redeliver(t) => if t in s.jobs && s.jobs[t].slot == k then held + {t} else held
    case _ => held
  }

  /** Steps with which a slot is given back, or its holder gone. */
  predicate EndsHold(a: Action) {
    a.Release? || a.Undo? || a.GiveUp?
  }

  lemma JobAfterHolds(rows: seq<Host>, j: Job, a: Action)
    requires IsJobAction(a) && JobAfter(rows, j, a).Some?
    ensures Holds(JobAfter(rows, j, a).value.stage) == (!EndsHold(a) && (a.Redeliver? || Holds(j.stage)))
    ensures JobAfter(rows, j, a).value.slot == j.slot
  {
  }

  lemma JobsUnchanged(s: State, t: State, k: nat)
    requires s.jobs == t.jobs
    ensures UnreleasedOn(s, k) == UnreleasedOn(t, k)
  {
  }

  lemma OneJobChanged(s: State, t: State, test: string, k: nat)
    requires test in t.jobs && t.jobs == s.jobs[test := t.jobs[test]]
    ensures UnreleasedOn(t, k) ==
      if t.jobs[test].slot == k && Holds(t.jobs[test].stage) then UnreleasedOn(s, k) + {test}
      else UnreleasedOn(s, k) - {test}
  {
  }

  lemma HoldersFromJobs(s: State, a: Action, t: State, k: nat)
    requires JobsMove(s, a, t)
    ensures UnreleasedOn(t, k) == HoldersAfter(s, a, k)
  {
    if IsJobAction(a) {
      JobAfterHolds(s.rows, s.jobs[a.test], a);
      OneJobChanged(s, t, a.test, k);
    } else if IsBooking(a) {
      OneJobChanged(s, t, a.bundle.testId, k);
    } else {
      JobsUnchanged(s, t, k);
    }
  }

  lemma HoldersStep(s: State, a: Action, k: nat)
    requires Step(s, a).Some?
    ensures UnreleasedOn(Step(s, a).value, k) == HoldersAfter(s, a, k)
  {
    JobsStep(s, a);
    HoldersFromJobs(s, a, Step(s, a).value, k);
  }

  /** The count on k after the step. */
  function CountAfter(s: State, a: Action, k: nat): nat
    requires k < |s.rows|
  {
    var row := s.rows[k];
    match a
    case Book(b) => if BestIndex(s.rows, b) == Some(k) then row.active + 1 else row.active
    case Undo(t, cached) =>
      if t in s.jobs && s.jobs[t].slot == k then Undone(row, s.jobs[t], cached).active else row.active
    case Release(t) => if t in s.jobs && s.jobs[t].worker == Some(k) then ReleaseSlot(row).active else row.active
    case Heartbeat(id, dockerUp, _, _) => if RowOf(s, id) == k && dockerUp then |LiveOn(s, k)| else row.active
    case _ => row.active
  }

  lemma RowActionCount(s: State, a: Action, k: nat)
    requires IsRowAction(a) && RowsAfter(s, a).Some? && k < |s.rows|
    ensures k < |RowsAfter(s, a).value| && RowsAfter(s, a).value[k].active == CountAfter(s, a, k)
  {
  }

  lemma CountStep(s: State, a: Action, k: nat)
    requires Routed(s) && Step(s, a).Some? && k < |s.rows|
    ensures k < |Step(s, a).value.rows| && Step(s, a).value.rows[k].active == CountAfter(s, a, k)
  {
    if IsRowAction(a) { RowActionCount(s, a, k); }
  }

  /** Nobody holds a slot on a host that is not registered. */
  lemma UnregisteredIsEmpty(s: State, k: nat)
    requires Routed(s) && k >= |s.rows|
    ensures UnreleasedOn(s, k) == {}
  {
    assert forall t :: t in s.jobs ==> JobRouted(s.rows, s.jobs[t]);
  }

  /** A host's first heartbeat counts no containers: nothing was ever routed there. */
  lemma NewRowIsEmpty(s: State, a: Action, k: nat)
    requires Routed(s) && Step(s, a).Some? && |s.rows| <= k < |Step(s, a).value.rows|
    ensures Step(s, a).value.rows[k].active == 0
  {
    LiveWithinUnreleased(s, |s.rows|);
    UnregisteredIsEmpty(s, |s.rows|);
    if IsRowAction(a) { FirstBeat(s, a, k); }
  }

  lemma FirstBeat(s: State, a: Action, k: nat)
    requires IsRowAction(a) && RowsAfter(s, a).Some? && |s.rows| <= k < |RowsAfter(s, a).value|
    requires |LiveOn(s, |s.rows|)| == 0
    ensures RowsAfter(s, a).value[k].active == 0
  {
  }

  /** How one step moves the count and the number of holders on k together. */
  ghost predicate MovesTogether(s: State, a: Action, k: nat)
    requires k < |s.rows|
  {
    var count, held := CountAfter(s, a, k), |HoldersAfter(s, a, k)|;
    var count0, held0 := s.rows[k].active, |UnreleasedOn(s, k)|;
    var down := if count0 > 0 then count0 - 1 else 0;
    match a
    case Book(_) => count - count0 == held - held0
    case Release(t) =>
      if t in UnreleasedOn(s, k) then held == held0 - 1 && count == down else held == held0 && count == count0
    case Undo(t, cached) =>
      if t in UnreleasedOn(s, k) then held == held0 - 1 && count == (if cached then s.jobs[t].before else down)
      else held == held0 && count == if t in s.jobs && s.jobs[t].slot == k then down else count0
    case GiveUp(t) => count == count0 && held == held0 - if t in UnreleasedOn(s, k) then 1 else 0
    case Redeliver(t) =>
      count == count0 &&
      held == held0 + if t in s.jobs && s.jobs[t].slot == k && s.jobs[t].stage.Released? then 1 else 0
    case Heartbeat(id, up, _, _) =>
      held == held0 && if RowOf(s, id) == k && up then count == |LiveOn(s, k)| <= held else count == count0
    case _ => count == count0 && held == held0
  }

  lemma ReleaseMoves(s: State, t: string, k: nat)
    requires Routed(s) && Step(s, Release(t)).Some? && k < |s.rows|
    ensures MovesTogether(s, Release(t), k)
  {
    var held := UnreleasedOn(s, k);
    assert JobRouted(s.rows, s.jobs[t]);
    assert t in held <==> s.jobs[t].worker == Some(k);
    if t !in held { assert held - {t} == held; }
  }

  lemma UndoMoves(s: State, t: string, cached: bool, k: nat)
    requires Routed(s) && Step(s, Undo(t, cached)).Some? && k < |s.rows|
    ensures MovesTogether(s, Undo(t, cached), k)
  {
    var held := UnreleasedOn(s, k);
    if t !in held { assert held - {t} == held; }
  }

  lemma GiveUpMoves(s: State, t: string, k: nat)
    requires k < |s.rows|
    ensures MovesTogether(s, GiveUp(t), k)
  {
    var held := UnreleasedOn(s, k);
    if t !in held { assert held - {t} == held; }
  }

  lemma RedeliverMoves(s: State, t: string, k: nat)
    requires k < |s.rows| && t in s.jobs
    requires Holds(s.jobs[t].stage) || s.jobs[t].stage.Released?
    ensures MovesTogether(s, Redeliver(t), k)
  {
    var held := UnreleasedOn(s, k);
    if t in held { assert held + {t} == held; }
  }

  lemma BookMoves(s: State, b: Bundle, k: nat)
    requires Routed(s) && Step(s, Book(b)).Some? && k < |s.rows|
    ensures MovesTogether(s, Book(b), k)
  {
    assert b.testId !in UnreleasedOn(s, k);
  }

  lemma HeartbeatMoves(s: State, a: Action, k: nat)
    requires Routed(s) && a.Heartbeat? && k < |s.rows|
    ensures MovesTogether(s, a, k)
  {
    LiveWithinUnreleased(s, k);
  }

  lemma StepArithmetic(s: State, a: Action, k: nat)
    requires Routed(s) && Step(s, a).Some? && k < |s.rows|
    ensures MovesTogether(s, a, k)
  {
    match a
    case Book(b) => BookMoves(s, b, k);
    case Release(t) => ReleaseMoves(s, t, k);
    case Undo(t, cached) => UndoMoves(s, t, cached, k);
    case GiveUp(t) => GiveUpMoves(s, t, k);
    case Redeliver(t) => JobsStep(s, a); RedeliverMoves(s, t, k);
    case Heartbeat(_, _, _, _) => HeartbeatMoves(s, a, k);
    case _ =>
  }

  /**
   * What a step adds to the excess on k: one, when a dispatch ends without undoing a
   * reservation that the count still covers; and when the compensation writes the count its
   * session remembers, whatever that exceeds both the count and the slots held by.
   */
  function Growth(s: State, a: Action, k: nat): nat {
    if k >= |s.rows| then 0 else
      var count, held := s.rows[k].active, UnreleasedOn(s, k);
      match a
      case GiveUp(t) => if t in held && count >= |held| then 1 else 0
      case Undo(t, cached) =>
        if !cached || t !in held then 0 else
          var most := if count > |held| then count else |held|;
          if s.jobs[t].before + 1 > most then s.jobs[t].before + 1 - most else 0
      case _ => 0
  }

  lemma ExcessFromMoves(s: State, a: Action, k: nat, excess: nat)
    requires k < |s.rows| && MovesTogether(s, a, k)
    requires excess == if CountAfter(s, a, k) > |HoldersAfter(s, a, k)|
                       then CountAfter(s, a, k) - |HoldersAfter(s, a, k)| else 0
    ensures excess <= Excess(s, k) + Growth(s, a, k)
    ensures Growth(s, a, k) > 0 ==> excess == Excess(s, k) + Growth(s, a, k)
  {
  }

  /**
   * Exactly these steps raise the excess on a host, and by exactly this much; no other step of
   * any participant does.
   */
  lemma ExcessGrowsExactly(s: State, a: Action, k: nat)
    requires Routed(s) && Step(s, a).Some?
    ensures Excess(Step(s, a).value, k) > Excess(s, k) <==> Growth(s, a, k) > 0
    ensures Growth(s, a, k) > 0 ==> Excess(Step(s, a).value, k) == Excess(s, k) + Growth(s, a, k)
    ensures Excess(Step(s, a).value, k) <= Excess(s, k) + Growth(s, a, k)
  {
    if k < |s.rows| {
      HoldersStep(s, a, k);
      CountStep(s, a, k);
      StepArithmetic(s, a, k);
      ExcessFromMoves(s, a, k, Excess(Step(s, a).value, k));
    } else if k < |Step(s, a).value.rows| {
      NewRowIsEmpty(s, a, k);
    }
  }

  /** A heartbeat of host k that reaches Docker. */
  predicate Reconciles(s: State, a: Action, k: nat) {
    a.Heartbeat? && a.dockerUp && RowOf(s, a.hostId) == k
  }

  lemma ReconciledExactly(s: State, a: Action, k: nat)
    requires Routed(s) && Step(s, a).Some? && Reconciles(s, a, k)
    ensures Excess(Step(s, a).value, k) == 0
  {
    if k < |s.rows| {
      HoldersStep(s, a, k);
      CountStep(s, a, k);
      StepArithmetic(s, a, k);
    } else if k < |Step(s, a).value.rows| {
      NewRowIsEmpty(s, a, k);
    }
  }

  /** What the excess on k may be after the step, if it was at most d before. */
  function DebtAfter(s: State, a: Action, k: nat, d: nat): nat {
    if Reconciles(s, a, k) then 0 else d + Growth(s, a, k)
  }

  lemma DebtStep(s: State, a: Action, k: nat, d: nat)
    requires Routed(s) && Step(s, a).Some? && Excess(s, k) <= d
    ensures Excess(Step(s, a).value, k) <= DebtAfter(s, a, k, d)
  {
    if Reconciles(s, a, k) { ReconciledExactly(s, a, k); } else { ExcessGrowsExactly(s, a, k); }
  }

  /** The growth on k since the last heartbeat that reached Docker, from d before the run. */
  function Debt(s: State, acts: seq<Action>, k: nat, d: nat): nat
    decreases |acts|
  {
    if acts == [] || Step(s, acts[0]).None? then d
    else Debt(Step(s, acts[0]).value, acts[1..], k, DebtAfter(s, acts[0], k, d))
  }

  /** Every dispatch of the run that raised was undone, from a fresh read of the row. */
  predicate Compensated(acts: seq<Action>) {
    forall i :: 0 <= i < |acts| ==> !acts[i].GiveUp? && !(acts[i].Undo? && acts[i].cached)
  }

  lemma {:induction false} CompensatedDebt(s: State, acts: seq<Action>, k: nat, d: nat)
    requires Compensated(acts)
    ensures Debt(s, acts, k, d) <= d
    decreases |acts|
  {
    if acts != [] && Step(s, acts[0]).Some? {
      assert DebtAfter(s, acts[0], k, d) <= d;
      CompensatedDebt(Step(s, acts[0]).value, acts[1..], k, DebtAfter(s, acts[0], k, d));
    }
  }

  lemma {:induction false} ExcessWithinDebt(s: State, acts: seq<Action>, k: nat, d: nat)
    requires Routed(s) && Exec(s, acts).Some? && Excess(s, k) <= d
    ensures Routed(Exec(s, acts).value) && Excess(Exec(s, acts).value, k) <= Debt(s, acts, k, d)
    decreases |acts|
  {
    if acts != [] {
      StepKeepsRouted(s, acts[0]);
      DebtStep(s, acts[0], k, d);
      ExcessWithinDebt(Step(s, acts[0]).value, acts[1..], k, DebtAfter(s, acts[0], k, d));
    }
  }

  /**
   * In every run, a host's count exceeds the slots held there by no more than at the start
   * plus what the steps since the last heartbeat that reached Docker added; by no more than at
   * the start if every raising dispatch was undone. Its running containers all hold slots.
   */
  lemma NoUpwardDrift(s: State, acts: seq<Action>, k: nat)
    requires Routed(s) && Exec(s, acts).Some?
    ensures var t := Exec(s, acts).value;
            && Routed(t) && LiveOn(t, k) <= UnreleasedOn(t, k)
            && Excess(t, k) <= Debt(s, acts, k, Excess(s, k))
            && (Compensated(acts) ==> Excess(t, k) <= Excess(s, k))
  {
    ExcessWithinDebt(s, acts, k, Excess(s, k));
    LiveWithinUnreleased(Exec(s, acts).value, k);
    if Compensated(acts) { CompensatedDebt(s, acts, k, Excess(s, k)); }
  }

  /** One heartbeat that reaches Docker removes any excess; only such steps bring some back. */
  lemma HeartbeatRemovesExcess(s: State, beat: Action, rest: seq<Action>, k: nat)
    requires Routed(s) && Reconciles(s, beat, k) && Step(s, beat).Some?
    requires Exec(Step(s, beat).value, rest).Some?
    ensures var t := Exec(Step(s, beat).value, rest).value;
            && Excess(t, k) <= Debt(Step(s, beat).value, rest, k, 0)
            && (Compensated(rest) ==> Excess(t, k) == 0)
  {
    StepKeepsRouted(s, beat);
    ReconciledExactly(s, beat, k);
    ExcessWithinDebt(Step(s, beat).value, rest, k, 0);
    if Compensated(rest) { CompensatedDebt(Step(s, beat).value, rest, k, 0); }
  }

  // --- leaked slots ------------------------------------------------------------------------

  /** Runs that leaked their slot and have no running container left. */
  ghost predicate Settled(s: State, gone: set<string>) {
    forall t :: t in gone ==>
      t in s.jobs && s.jobs[t].stage.Leaked? && (t in s.containers ==> !s.containers[t].running)
  }

  function Without(s: State, gone: set<string>): State {
    State(s.rows, s.jobs - gone, s.containers - gone)
  }

  lemma WithoutIsRouted(s: State, gone: set<string>)
    requires Routed(s)
    ensures Routed(Without(s, gone))
  {
    var e := Without(s, gone);
    forall t | t in e.jobs ensures JobRouted(e.rows, e.jobs[t]) { assert JobRouted(s.rows, s.jobs[t]); }
    forall t | t in e.containers ensures ContainerOwned(e.jobs, t, e.containers[t]) {
      assert ContainerOwned(s.jobs, t, s.containers[t]);
    }
  }

  lemma SettledJobStep(s: State, a: Action, gone: set<string>)
    requires Settled(s, gone) && IsJobAction(a) && Step(s, a).Some?
    ensures Settled(Step(s, a).value, gone)
    ensures Step(Without(s, gone), a) == Some(Without(Step(s, a).value, gone))
  {
    JobsStep(s, a);
    var e, j := Without(s, gone), s.jobs[a.test];
    var after := JobAfter(s.rows, j, a).value;
    assert a.test !in gone && e.jobs[a.test] == j;
    assert s.jobs[a.test := after] - gone == e.jobs[a.test := after];
    assert ContainersAfter(e.containers, j, a) == ContainersAfter(s.containers, j, a) - gone;
  }

  lemma SettledBooking(s: State, a: Action, gone: set<string>)
    requires Settled(s, gone) && IsBooking(a) && Step(s, a).Some?
    ensures Settled(Step(s, a).value, gone)
    ensures Step(Without(s, gone), a) == Some(Without(Step(s, a).value, gone))
  {
    JobsStep(s, a);
    var e, t := Without(s, gone), Step(s, a).value;
    assert t.jobs - gone == e.jobs[a.bundle.testId := t.jobs[a.bundle.testId]];
  }

  /** Such runs play no part in any later step. */
  lemma SettledStep(s: State, a: Action, gone: set<string>)
    requires Settled(s, gone) && Step(s, a).Some?
    ensures Settled(Step(s, a).value, gone)
    ensures Step(Without(s, gone), a) == Some(Without(Step(s, a).value, gone))
  {
    if IsJobAction(a) {
      SettledJobStep(s, a, gone);
    } else if IsBooking(a) {
      SettledBooking(s, a, gone);
    } else if a.Exit? {
      assert Step(s, a).value.containers - gone
             == Without(s, gone).containers[a.test := s.containers[a.test].(running := false)];
    } else {
      assert forall k: nat :: LiveOn(Without(s, gone), k) == LiveOn(s, k);
      RowActionWithout(s, a, gone);
    }
  }

  lemma RowActionWithout(s: State, a: Action, gone: set<string>)
    requires IsRowAction(a) && forall k: nat :: LiveOn(Without(s, gone), k) == LiveOn(s, k)
    ensures RowsAfter(Without(s, gone), a) == RowsAfter(s, a)
  {
  }

  lemma {:induction false} SettledExec(s: State, acts: seq<Action>, gone: set<string>)
    requires Settled(s, gone) && Exec(s, acts).Some?
    ensures Exec(Without(s, gone), acts) == Some(Without(Exec(s, acts).value, gone))
    decreases |acts|
  {
    if acts != [] {
      SettledStep(s, acts[0], gone);
      SettledExec(Step(s, acts[0]).value, acts[1..], gone);
    }
  }

  lemma BoundFromExcess(t: State, gone: set<string>, k: nat, d: nat)
    requires k < |t.rows| && Excess(Without(t, gone), k) <= d
    ensures t.rows[k].active <= |UnreleasedOn(t, k) - gone| + d
  {
    assert UnreleasedOn(Without(t, gone), k) == UnreleasedOn(t, k) - gone;
  }

  /**
   * A heartbeat that reaches Docker also clears the leaks whose containers are gone: from then
   * on the count stays within the slots held by the other runs, plus what later steps add.
   */
  lemma HeartbeatClearsLeaks(s: State, beat: Action, rest: seq<Action>, k: nat, gone: set<string>)
    requires Routed(s) && Reconciles(s, beat, k) && Settled(s, gone) && Step(s, beat).Some?
    requires Exec(Step(s, beat).value, rest).Some?
    ensures var x := Step(s, beat).value;
            var t := Exec(x, rest).value;
            k < |t.rows| ==>
              && t.rows[k].active <= |UnreleasedOn(t, k) - gone| + Debt(Without(x, gone), rest, k, 0)
              && (Compensated(rest) ==> t.rows[k].active <= |UnreleasedOn(t, k) - gone|)
  {
    var x := Step(s, beat).value;
    var e, t := Without(x, gone), Exec(x, rest).value;
    WithoutIsRouted(s, gone);
    SettledStep(s, beat, gone);
    SettledExec(x, rest, gone);
    StepKeepsRouted(Without(s, gone), beat);
    ReconciledExactly(Without(s, gone), beat, k);
    ExcessWithinDebt(e, rest, k, 0);
    if k < |t.rows| { BoundFromExcess(t, gone, k, Debt(e, rest, k, 0)); }
    if Compensated(rest) { CompensatedDebt(e, rest, k, 0); }
  }

  // --- a dispatch as its steps -------------------------------------------------------------

  lemma ExecCons(s: State, a: Action, t: State, rest: seq<Action>)
    requires Step(s, a) == Some(t)
    ensures Exec(s, [a] + rest) == Exec(t, rest)
  {
    assert ([a] + rest)[1..] == rest;
  }

  lemma TwoSteps(s: State, a: Action, t: State, b: Action, u: State)
    requires Step(s, a) == Some(t) && Step(t, b) == Some(u)
    ensures Exec(s, [a, b]) == Some(u)
  {
    ExecCons(t, b, u, []);
    ExecCons(s, a, t, [b] + []);
    assert [a, b] == [a] + ([b] + []);
  }

  lemma ThreeSteps(s: State, a: Action, t: State, b: Action, u: State, c: Action, v: State)
    requires Step(s, a) == Some(t) && Step(t, b) == Some(u) && Step(u, c) == Some(v)
    ensures Exec(s, [a, b, c]) == Some(v)
  {
    TwoSteps(t, b, u, c, v);
    ExecCons(s, a, t, [b, c]);
    assert [a, b, c] == [a] + [b, c];
  }

  /** The steps of one dispatch attempt with these outcomes. */
  function AttemptSteps(b: Bundle, f: Faults, cached: bool): seq<Action> {
    var t := b.testId;
    if !f.commitOk then [BookFails(b), if f.undoOk then Undo(t, false) else GiveUp(t)]
    else if f.sendOk then [Book(b), Send(t)]
    else [Book(b), SendFails(t), if f.undoOk then Undo(t, cached) else GiveUp(t)]
  }

  /** The state during the attempt: its row reserved or not, its job at this stage. */
  function Attempted(s: State, b: Bundle, k: nat, reserved: bool, stage: Stage): State
    requires k < |s.rows| && QueueNameFor(s.rows[k].hostId).Some?
  {
    s.(rows := if reserved then s.rows[k := Reserve(s.rows[k])] else s.rows,
       jobs := s.jobs[b.testId := Job(k, QueueNameFor(s.rows[k].hostId).value, s.rows[k].active, None, stage)])
  }

  lemma AttemptBooks(s: State, b: Bundle, ok: bool, k: nat)
    requires BestIndex(s.rows, b) == Some(k) && QueueNameFor(s.rows[k].hostId).Some? && b.testId !in s.jobs
    ensures Step(s, if ok then Book(b) else BookFails(b))
            == Some(Attempted(s, b, k, ok, if ok then Sending else Undoing(false)))
  {
  }

  lemma AttemptMoves(s: State, b: Bundle, k: nat, reserved: bool, stage: Stage, a: Action)
    requires k < |s.rows| && QueueNameFor(s.rows[k].hostId).Some?
    requires IsJobAction(a) && a.test == b.testId && !a.Undo? && !a.Release? && !a.Launch? && !a.Remove?
    requires JobAfter(s.rows, Attempted(s, b, k, reserved, stage).jobs[b.testId], a).Some? && !a.Take?
    ensures var x := Attempted(s, b, k, reserved, stage);
            Step(x, a) == Some(Attempted(s, b, k, reserved, JobAfter(s.rows, x.jobs[b.testId], a).value.stage))
  {
    var x := Attempted(s, b, k, reserved, stage);
    var after := JobAfter(s.rows, x.jobs[b.testId], a).value;
    assert JobAfter(x.rows, x.jobs[b.testId], a) == Some(after);
    assert x.jobs[b.testId := after] == s.jobs[b.testId := after];
  }

  lemma AttemptUndone(s: State, b: Bundle, k: nat, reserved: bool, cached: bool)
    requires k < |s.rows| && QueueNameFor(s.rows[k].hostId).Some? && (cached ==> reserved)
    ensures var end := Attempted(s, b, k, false, Abandoned);
            Step(Attempted(s, b, k, reserved, Undoing(reserved)), Undo(b.testId, cached))
            == Some(end.(rows := s.rows[k := if reserved then s.rows[k] else ReleaseSlot(s.rows[k])]))
  {
    var x := Attempted(s, b, k, reserved, Undoing(reserved));
    var j := x.jobs[b.testId];
    assert x.jobs[b.testId := j.(stage := Abandoned)] == s.jobs[b.testId := j.(stage := Abandoned)];
    assert RowsAfterJob(x.rows, j, Undo(b.testId, cached))
           == s.rows[k := if reserved then s.rows[k] else ReleaseSlot(s.rows[k])];
  }

  /**
   * With nothing in between, the steps of an attempt leave the row that `dispatch` leaves, for
   * every combination of outcomes, and touch no other row, job or container.
   */
  lemma AttemptIsSteps(s: State, b: Bundle, f: Faults, cached: bool)
    requires BestIndex(s.rows, b).Some? && b.testId !in s.jobs
    requires QueueNameFor(s.rows[BestIndex(s.rows, b).value].hostId).Some?
    ensures var k := BestIndex(s.rows, b).value;
            var end := Exec(s, AttemptSteps(b, f, cached));
            end == Some(Attempted(s, b, k, false, if f.commitOk && f.sendOk then Queued else Abandoned)
                          .(rows := s.rows[k := AfterAttempt(s.rows[k], f)]))
  {
    var k := BestIndex(s.rows, b).value;
    var t := b.testId;
    var acts := AttemptSteps(b, f, cached);
    AttemptBooks(s, b, f.commitOk, k);
    var x := Step(s, acts[0]).value;
    assert s.rows[k := s.rows[k]] == s.rows;
    if !f.commitOk || f.sendOk {
      if f.sendOk && f.commitOk { AttemptMoves(s, b, k, true, Sending, Send(t)); }
      else if f.undoOk { AttemptUndone(s, b, k, false, false); }
      else { AttemptMoves(s, b, k, false, Undoing(false), GiveUp(t)); }
      TwoSteps(s, acts[0], x, acts[1], Step(x, acts[1]).value);
    } else {
      AttemptMoves(s, b, k, true, Sending, SendFails(t));
      var y := Step(x, acts[1]).value;
      if f.undoOk { AttemptUndone(s, b, k, true, cached); }
      else { AttemptMoves(s, b, k, true, Undoing(true), GiveUp(t)); }
      ThreeSteps(s, acts[0], x, acts[1], y, acts[2], Step(y, acts[2]).value);
    }
  }

  // --- conservation -----------------------------------------------------------------------

  /** The part of the count on k that no holder accounts for. */
  function Unexplained(s: State, k: nat): int
    requires k < |s.rows|
  {
    s.rows[k].active - |UnreleasedOn(s, k)|
  }

  /**
   * The steps that keep it. A heartbeat must find the count it writes, a compensation must have
   * something to undo and undo just that, a release must find a slot to give back, and a run
   * that gave back its slot must not run again.
   */
  ghost predicate Conserving(s: State, a: Action, k: nat)
    requires k < |s.rows|
  {
    match a
    case Heartbeat(id, up, _, _) => RowOf(s, id) == k && up ==> |LiveOn(s, k)| == s.rows[k].active
    case Undo(t, cached) =>
      t in s.jobs && s.jobs[t].slot == k ==>
        if cached then s.jobs[t].before + 1 == s.rows[k].active
        else t in UnreleasedOn(s, k) <==> s.rows[k].active > 0
    case Release(t) => t in UnreleasedOn(s, k) ==> s.rows[k].active > 0
    case GiveUp(t) => t !in UnreleasedOn(s, k)
    case Redeliver(t) => t in s.jobs && s.jobs[t].slot == k ==> !s.jobs[t].stage.Released?
    case _ => true
  }

  lemma StepConserves(s: State, a: Action, k: nat)
    requires Routed(s) && Step(s, a).Some?
    requires k < |s.rows|
    ensures k < |Step(s, a).value.rows|
    ensures Unexplained(Step(s, a).value, k) == Unexplained(s, k) <==> Conserving(s, a, k)
  {
    HoldersStep(s, a, k);
    CountStep(s, a, k);
    StepArithmetic(s, a, k);
  }

  ghost predicate ConservingRun(s: State, acts: seq<Action>, k: nat)
    decreases |acts|
  {
    acts == [] || (k < |s.rows| && Conserving(s, acts[0], k) &&
      (Step(s, acts[0]).Some? ==> ConservingRun(Step(s, acts[0]).value, acts[1..], k)))
  }

  /** Through such steps each host's count stays its unexplained starting part plus the slots held there. */
  lemma {:induction false} ReservationsConserved(s: State, acts: seq<Action>, k: nat)
    requires Routed(s) && Exec(s, acts).Some? && ConservingRun(s, acts, k)
    requires k < |s.rows|
    ensures var t := Exec(s, acts).value;
            Routed(t) && k < |t.rows| && t.rows[k].active == Unexplained(s, k) + |UnreleasedOn(t, k)|
    decreases |acts|
  {
    if acts != [] {
      StepKeepsRouted(s, acts[0]);
      StepConserves(s, acts[0], k);
      ReservationsConserved(Step(s, acts[0]).value, acts[1..], k);
    }
  }
}
