/**
 * Submissions, workers, crashes and the central sweep over the shared rows. A submission
 * commits the slot and sends before it records the target; a sweep commits the offline
 * marks before it fails the orphans. Hosts are crash-stop: a crashed host never acts again.
 */
module Orphans {
  import opened Models
  import opened Scheduler
  import opened Maintenance
  import Worker

  /** How far a submission has got, and the row it reserved. */
  datatype Progress = New | Reserved(host: nat) | Recorded(host: nat)

  /** `marked` is the list a sweep holds in memory between its two commits. */
  datatype State = State(
    rows: seq<Host>,
    alive: seq<bool>,
    runs: seq<Run>,
    progress: seq<Progress>,
    clock: int,
    marked: Option<seq<string>>)

  datatype Action =
    | Create(row: Run)
    | ReserveSlot(run: nat, bundle: Bundle)
    | Refuse(run: nat)
    | Record(run: nat)
    | WorkerStarts(run: nat)
    | WorkerEnds(run: nat, passed: bool)
    | Crash(host: nat)
    | Heartbeat(host: nat, live: nat, cpu: NonNegative)
    | Reap(host: nat)
    | Tick(time: nat)
    | Mark
    | FailMarked
    | BackendStops

  /** The host that handles the run's message, if it is still running. */
  function Handler(s: State, i: nat): Option<nat> {
    if i >= |s.runs| || i >= |s.progress| || s.progress[i].New? then None else
      var k := s.progress[i].host;
      if k < |s.rows| && k < |s.alive| && s.alive[k] then Some(k) else None
  }

  predicate Up(s: State, k: nat) {
    k < |s.rows| && k < |s.alive| && s.alive[k]
  }

  /** Heartbeats of live hosts arrive in time, so no live host looks stale to a sweep. */
  predicate Accurate(s: State, timeout: nat) {
    forall k :: 0 <= k < |s.rows| && Up(s, k) ==> !IsStale(s.rows[k], s.clock - timeout)
  }

  function Step(timeout: nat, s: State, a: Action): Option<State> {
    match a
    case Create(r) =>
      if r.target.None? && r.status.Pending? && forall j :: 0 <= j < |s.runs| ==> s.runs[j].testId != r.testId
      then Some(s.(runs := s.runs + [r], progress := s.progress + [New])) else None
    case ReserveSlot(i, b) =>
      if i < |s.runs| && i < |s.progress| && s.progress[i].New? && s.runs[i].status.Pending? then
        (match BestIndex(s.rows, b)
         case None => None
         case Some(k) => Some(s.(rows := s.rows[k := Reserve(s.rows[k])], progress := s.progress[i := Reserved(k)])))
      else None
    case Refuse(i) =>
      if i < |s.runs| && i < |s.progress| && s.progress[i].New? && s.runs[i].status.Pending?
      then Some(s.(runs := s.runs[i := Worker.WithStatus(s.runs[i], Failed, None, None, s.clock)])) else None
    case Record(i) =>
      if i < |s.runs| && i < |s.progress| && s.progress[i].Reserved? && s.progress[i].host < |s.rows| then
        var k := s.progress[i].host;
        var r := Worker.WithStatus(s.runs[i], Dispatched, Some(s.rows[k].hostId), None, s.clock);
        Some(s.(runs := s.runs[i := r], progress := s.progress[i := Recorded(k)]))
      else None
    case WorkerStarts(i) =>
      (match Handler(s, i)
       case None => None
       case Some(k) =>
         Some(s.(runs := s.runs[i := Worker.WithStatus(s.runs[i], Running, Some(s.rows[k].hostId), None, s.clock)])))
    case WorkerEnds(i, passed) =>
      if Handler(s, i).None? then None else
        var status := if passed then Passed else Failed;
        Some(s.(runs := s.runs[i := Worker.WithStatus(s.runs[i], status, None, None, s.clock)]))
    case Crash(k) => if Up(s, k) then Some(s.(alive := s.alive[k := false])) else None
    case Heartbeat(k, live, cpu) =>
      if Up(s, k) then Some(s.(rows := s.rows[k := Worker.Reconcile(s.rows[k], live, cpu, s.clock)])) else None
    case Reap(k) =>
      if Up(s, k)
      then Some(s.(runs := Reaped(s.runs, s.rows[k].hostId, s.clock)))
      else None
    case Tick(d) => Some(s.(clock := s.clock + d))
    case Mark =>
      if s.marked.Some? then None else
        var ids := StaleIds(s.rows, s.clock - timeout);
        Some(s.(rows := Swept(s.rows, s.clock - timeout), marked := if ids == [] then None else Some(ids)))
    case FailMarked =>
      if s.marked.None? then None else
        var ids := s.marked.value;
        Some(s.(runs := FailWhere(s.runs, r => IsOrphan(r, ids), s.clock), marked := None))
    case BackendStops => Some(s.(marked := None))
  }

  function Exec(timeout: nat, s: State, acts: seq<Action>): Option<State>
    decreases |acts|
  {
    if acts == [] then Some(s) else
      match Step(timeout, s, acts[0]) case None => None case Some(t) => Exec(timeout, t, acts[1..])
  }

  // --- when an active run loses its host --------------------------------------------------

  /** The run's host is known to its submission, and an active run names it. */
  ghost predicate RunSane(s: State, i: nat)
    requires i < |s.runs| == |s.progress|
  {
    match s.progress[i]
    case New => !IsActive(s.runs[i].status)
    case Reserved(k) => k < |s.rows| && (IsActive(s.runs[i].status) ==> s.runs[i].target == Some(s.rows[k].hostId))
    case Recorded(k) => k < |s.rows| && s.runs[i].target == Some(s.rows[k].hostId)
  }

  ghost predicate Sane(s: State) {
    && |s.runs| == |s.progress| && |s.rows| == |s.alive|
    && forall i :: 0 <= i < |s.runs| ==> RunSane(s, i)
  }

  /** The host is online, or a sweep still means to fail what runs there. */
  predicate Safe(s: State, k: nat) {
    k < |s.rows| && (s.rows[k].online || (s.marked.Some? && s.rows[k].hostId in s.marked.value))
  }

  ghost predicate RunCovered(s: State, i: nat)
    requires i < |s.runs| == |s.progress|
  {
    IsActive(s.runs[i].status) ==> !s.progress[i].New? && Safe(s, s.progress[i].host)
  }

  ghost predicate Covered(s: State) {
    |s.runs| == |s.progress| && forall i :: 0 <= i < |s.runs| ==> RunCovered(s, i)
  }

  ghost predicate OnOnlineHost(s: State, i: nat)
    requires i < |s.runs| == |s.progress|
  {
    var p := s.progress[i];
    !p.New? && p.host < |s.rows| && s.runs[i].target == Some(s.rows[p.host].hostId) && s.rows[p.host].online
  }

  /** Every active run names its own host, and that host is online. */
  ghost predicate AllOnline(s: State) {
    |s.runs| == |s.progress| && forall i :: 0 <= i < |s.runs| && IsActive(s.runs[i].status) ==> OnOnlineHost(s, i)
  }

  /** Between sweeps, covered and online are the same. */
  lemma CoveredIsOnline(s: State)
    requires Sane(s) && s.marked.None?
    ensures Covered(s) <==> AllOnline(s)
  {
    forall i | 0 <= i < |s.runs| ensures RunCovered(s, i) <==> (IsActive(s.runs[i].status) ==> OnOnlineHost(s, i)) {
      assert RunSane(s, i);
    }
  }

  /**
   * The steps that leave an active run without cover: recording the target, or starting the
   * run, on a host that is offline and not in the list of a sweep under way; and a backend stop
   * that forgets such a list while an active run sits on an offline host.
   */
  ghost predicate Strands(s: State, a: Action) {
    match a
    case Record(i) => i < |s.progress| && !s.progress[i].New? && !Safe(s, s.progress[i].host)
    case WorkerStarts(i) => i < |s.progress| && !s.progress[i].New? && !Safe(s, s.progress[i].host)
    case BackendStops =>
      exists i :: 0 <= i < |s.runs| && i < |s.progress| && IsActive(s.runs[i].status)
        && !s.progress[i].New? && s.progress[i].host < |s.rows| && !s.rows[s.progress[i].host].online
    case _ => false
  }

  lemma StepKeepsSane(timeout: nat, s: State, a: Action)
    requires Sane(s) && Step(timeout, s, a).Some?
    ensures Sane(Step(timeout, s, a).value)
  {
    var t := Step(timeout, s, a).value;
    forall i | 0 <= i < |t.runs| ensures RunSane(t, i) {
      if i < |s.runs| { assert RunSane(s, i); }
    }
  }

  /** A sweep remembers every host it takes offline. */
  lemma MarkKeepsSafe(timeout: nat, s: State, k: nat)
    requires Step(timeout, s, Mark).Some? && Safe(s, k)
    ensures Safe(Step(timeout, s, Mark).value, k)
  {
    StaleIdsExact(s.rows, s.clock - timeout, s.rows[k].hostId);
  }

  lemma OtherStepCovers(timeout: nat, s: State, a: Action, i: nat)
    requires Sane(s) && Covered(s) && Step(timeout, s, a).Some? && !Strands(s, a) && !a.BackendStops?
    requires i < |Step(timeout, s, a).value.runs|
    ensures Sane(Step(timeout, s, a).value) && RunCovered(Step(timeout, s, a).value, i)
  {
    StepKeepsSane(timeout, s, a);
    if i < |s.runs| {
      assert RunSane(s, i) && RunCovered(s, i);
      if a.Mark? && !s.progress[i].New? && Safe(s, s.progress[i].host) {
        MarkKeepsSafe(timeout, s, s.progress[i].host);
      }
    }
  }

  lemma BackendStopCovers(timeout: nat, s: State)
    requires Sane(s) && Covered(s)
    ensures Covered(Step(timeout, s, BackendStops).value) <==> !Strands(s, BackendStops)
  {
    var t := Step(timeout, s, BackendStops).value;
    if Strands(s, BackendStops) {
      var i :| 0 <= i < |s.runs| && IsActive(s.runs[i].status) && !s.progress[i].New?
               && s.progress[i].host < |s.rows| && !s.rows[s.progress[i].host].online;
      assert !RunCovered(t, i);
    } else {
      forall i | 0 <= i < |t.runs| ensures RunCovered(t, i) { assert RunCovered(s, i) && RunSane(s, i); }
    }
  }

  /** Every active run stays covered through a step exactly when it is not one of those. */
  lemma CoverLostExactly(timeout: nat, s: State, a: Action)
    requires Sane(s) && Covered(s) && Step(timeout, s, a).Some?
    ensures Covered(Step(timeout, s, a).value) <==> !Strands(s, a)
  {
    var t := Step(timeout, s, a).value;
    StepKeepsSane(timeout, s, a);
    if a.BackendStops? {
      BackendStopCovers(timeout, s);
    } else if Strands(s, a) {
      assert !RunCovered(t, a.run);
    } else {
      forall i | 0 <= i < |t.runs| ensures RunCovered(t, i) { OtherStepCovers(timeout, s, a, i); }
    }
  }

  ghost predicate CoveredThroughout(timeout: nat, s: State, acts: seq<Action>)
    decreases |acts|
  {
    Covered(s) && (acts == [] || (Step(timeout, s, acts[0]).Some? ==>
      CoveredThroughout(timeout, Step(timeout, s, acts[0]).value, acts[1..])))
  }

  ghost predicate NothingStrands(timeout: nat, s: State, acts: seq<Action>)
    decreases |acts|
  {
    acts == [] || (!Strands(s, acts[0]) && (Step(timeout, s, acts[0]).Some? ==>
      NothingStrands(timeout, Step(timeout, s, acts[0]).value, acts[1..])))
  }

  /**
   * In every interleaving, every state reached keeps all active runs covered exactly when no
   * step of the run is one of those. Between sweeps, covered means on an online host.
   */
  lemma {:induction false} CoveredExactly(timeout: nat, s: State, acts: seq<Action>)
    requires Sane(s) && Covered(s) && Exec(timeout, s, acts).Some?
    ensures CoveredThroughout(timeout, s, acts) <==> NothingStrands(timeout, s, acts)
    ensures var t := Exec(timeout, s, acts).value;
            && Sane(t)
            && (NothingStrands(timeout, s, acts) && t.marked.None? ==> AllOnline(t))
    decreases |acts|
  {
    if acts == [] {
      if s.marked.None? { CoveredIsOnline(s); }
    } else {
      StepKeepsSane(timeout, s, acts[0]);
      CoverLostExactly(timeout, s, acts[0]);
      if !Strands(s, acts[0]) { CoveredExactly(timeout, Step(timeout, s, acts[0]).value, acts[1..]); }
      else { SaneThroughout(timeout, Step(timeout, s, acts[0]).value, acts[1..]); }
    }
  }

  lemma {:induction false} SaneThroughout(timeout: nat, s: State, acts: seq<Action>)
    requires Sane(s) && Exec(timeout, s, acts).Some?
    ensures Sane(Exec(timeout, s, acts).value)
    decreases |acts|
  {
    if acts != [] {
      StepKeepsSane(timeout, s, acts[0]);
      SaneThroughout(timeout, Step(timeout, s, acts[0]).value, acts[1..]);
    }
  }

  // --- a finished run keeps its verdict -----------------------------------------------------

  /** The worker, or a sweep, has given the run its final status. */
  predicate Finished(s: State, i: nat) {
    i < |s.runs| && (s.runs[i].status.Passed? || s.runs[i].status.Failed?)
  }

  /**
   * The steps that replace the status of a finished run: the backend's late record, and a worker
   * that handles the message again, when it starts and when it ends with the other result.
   */
  predicate Overwrites(s: State, a: Action, i: nat) {
    match a
    case Record(j) => j == i
    case WorkerStarts(j) => j == i
    case WorkerEnds(j, passed) => j == i && Finished(s, i) && s.runs[i].status != if passed then Passed else Failed
    case _ => false
  }

  lemma VerdictStep(timeout: nat, s: State, a: Action, i: nat)
    requires Finished(s, i) && Step(timeout, s, a).Some?
    ensures var t := Step(timeout, s, a).value;
            i < |t.runs| && (t.runs[i].status == s.runs[i].status <==> !Overwrites(s, a, i))
  {
  }

  ghost predicate VerdictThroughout(timeout: nat, s: State, acts: seq<Action>, i: nat, verdict: Status)
    decreases |acts|
  {
    && i < |s.runs| && s.runs[i].status == verdict
    && (acts == [] || (Step(timeout, s, acts[0]).Some? ==>
          VerdictThroughout(timeout, Step(timeout, s, acts[0]).value, acts[1..], i, verdict)))
  }

  ghost predicate NothingOverwrites(timeout: nat, s: State, acts: seq<Action>, i: nat)
    decreases |acts|
  {
    acts == [] || (!Overwrites(s, acts[0], i) && (Step(timeout, s, acts[0]).Some? ==>
      NothingOverwrites(timeout, Step(timeout, s, acts[0]).value, acts[1..], i)))
  }

  /**
   * In every interleaving, a finished run shows its verdict in every state reached exactly when
   * no step of the run is one of those: sweeps, reaping, crashes and refusals never touch it.
   */
  lemma {:induction false} VerdictKeptExactly(timeout: nat, s: State, acts: seq<Action>, i: nat)
    requires Finished(s, i) && Exec(timeout, s, acts).Some?
    ensures VerdictThroughout(timeout, s, acts, i, s.runs[i].status) <==> NothingOverwrites(timeout, s, acts, i)
    decreases |acts|
  {
    if acts != [] {
      VerdictStep(timeout, s, acts[0], i);
      if !Overwrites(s, acts[0], i) { VerdictKeptExactly(timeout, Step(timeout, s, acts[0]).value, acts[1..], i); }
    }
  }

  // --- where a verdict comes from ---------------------------------------------------------

  predicate Shows(s: State, i: nat, status: Status) {
    i < |s.runs| && s.runs[i].status == status
  }

  /** Refused, ended so by its worker, reaped, or failed by a sweep. */
  ghost predicate SaidFailed(acts: seq<Action>, i: nat) {
    exists a :: a in acts && (a == WorkerEnds(i, false) || a == Refuse(i) || a == FailMarked || a.Reap?)
  }

  lemma SaidStays(some: seq<Action>, acts: seq<Action>, i: nat)
    requires forall a :: a in some ==> a in acts
    ensures SaidFailed(some, i) ==> SaidFailed(acts, i)
  {
  }

  lemma VerdictAppears(timeout: nat, s: State, a: Action, i: nat)
    requires Step(timeout, s, a).Some?
    ensures var t := Step(timeout, s, a).value;
            && (Shows(t, i, Passed) ==> Shows(s, i, Passed) || a == WorkerEnds(i, true))
            && (Shows(t, i, Failed) ==> Shows(s, i, Failed) || SaidFailed([a], i))
            && (Shows(t, i, Cancelled) ==> Shows(s, i, Cancelled))
  {
    assert a in [a];
  }

  /** In every interleaving a run comes to show a verdict only by a step that says so, and is never cancelled. */
  lemma {:induction false} VerdictIsSaid(timeout: nat, s: State, acts: seq<Action>, i: nat)
    requires Exec(timeout, s, acts).Some?
    ensures var t := Exec(timeout, s, acts).value;
            && (Shows(t, i, Passed) ==> Shows(s, i, Passed) || WorkerEnds(i, true) in acts)
            && (Shows(t, i, Failed) ==> Shows(s, i, Failed) || SaidFailed(acts, i))
            && (Shows(t, i, Cancelled) ==> Shows(s, i, Cancelled))
    decreases |acts|
  {
    if acts != [] {
      VerdictAppears(timeout, s, acts[0], i);
      VerdictIsSaid(timeout, Step(timeout, s, acts[0]).value, acts[1..], i);
      SaidStays([acts[0]], acts, i);
      SaidStays(acts[1..], acts, i);
    }
  }

  // --- submissions and sweeps as single steps -----------------------------------------

  datatype Atomic = One(action: Action) | Submit(run: nat, bundle: Bundle) | Sweep

  function AtomicStep(timeout: nat, s: State, a: Atomic): Option<State> {
    match a
    case One(x) =>
      if x.ReserveSlot? || x.Record? || x.Mark? || x.FailMarked? then None else Step(timeout, s, x)
    case Submit(i, b) => Exec(timeout, s, [ReserveSlot(i, b), Record(i)])
    case Sweep =>
      (match Step(timeout, s, Mark)
       case None => None
       case Some(t) => if t.marked.None? then Some(t) else Step(timeout, t, FailMarked))
  }

  function AtomicExec(timeout: nat, s: State, acts: seq<Atomic>): Option<State>
    decreases |acts|
  {
    if acts == [] then Some(s) else
      match AtomicStep(timeout, s, acts[0]) case None => None case Some(t) => AtomicExec(timeout, t, acts[1..])
  }

  /** A run with a new id can always be added, PENDING and without a target, and nothing else changes. */
  lemma NewRunIsAdded(timeout: nat, s: State, testId: string, reservation: Option<string>)
    requires forall j :: 0 <= j < |s.runs| ==> s.runs[j].testId != testId
    ensures var run := Run(testId, None, Pending, reservation, None, s.clock);
            Step(timeout, s, Create(run)) == Some(s.(runs := s.runs + [run], progress := s.progress + [New]))
  {
  }

  /** Submitting whole does what `dispatch` and the record do: one more job on the host chosen, named as target. */
  lemma SubmitIsDispatch(timeout: nat, s: State, i: nat, b: Bundle)
    requires i < |s.runs| == |s.progress| && s.progress[i].New? && s.runs[i].status.Pending?
    ensures match BestIndex(s.rows, b)
      case None =>
        && AtomicStep(timeout, s, Submit(i, b)).None?
        && AtomicStep(timeout, s, One(Refuse(i)))
           == Some(s.(runs := s.runs[i := s.runs[i].(status := Failed, updatedAt := s.clock)]))
      case Some(k) =>
        var run := s.runs[i].(status := Dispatched, target := Some(s.rows[k].hostId), updatedAt := s.clock);
        AtomicStep(timeout, s, Submit(i, b))
        == Some(s.(rows := Place(s.rows, b), runs := s.runs[i := run], progress := s.progress[i := Recorded(k)]))
  {
    var acts := [ReserveSlot(i, b), Record(i)];
    assert acts[1..] == [Record(i)] && [Record(i)][1..] == [];
    if BestIndex(s.rows, b).Some? {
      var k := BestIndex(s.rows, b).value;
      var t := Step(timeout, s, acts[0]).value;
      assert t.progress[i := Recorded(k)] == s.progress[i := Recorded(k)];
      var u := Step(timeout, t, Record(i)).value;
      assert Exec(timeout, u, []) == Some(u) && Exec(timeout, t, [Record(i)]) == Some(u);
    }
  }

  /** Sweeping whole does what `run_maintenance_sweep` does, whenever no sweep is under way. */
  lemma SweepIsMaintenance(timeout: nat, s: State)
    requires s.marked.None?
    ensures AtomicStep(timeout, s, Sweep)
            == Some(s.(rows := Swept(s.rows, s.clock - timeout),
                       runs := OrphansFailed(s.runs, StaleIds(s.rows, s.clock - timeout), s.clock)))
  {
    var ids := StaleIds(s.rows, s.clock - timeout);
    if ids == [] { NothingSelected(s.runs, r => IsOrphan(r, ids), s.clock); }
  }

  // --- what a live host still does -------------------------------------------------------

  /** A live host's heartbeat puts it back online, fresh for every sweep begun up to a timeout later. */
  lemma HeartbeatRevives(timeout: nat, s: State, k: nat, live: nat, cpu: NonNegative, later: nat)
    requires Up(s, k) && later <= timeout
    ensures var t := Step(timeout, s, Heartbeat(k, live, cpu));
            && t.Some? && t.value.rows[k].online
            && !IsStale(t.value.rows[k], s.clock + later - timeout)
  {
  }

  /** A run RUNNING on a live host is failed by its reaper once it has not changed for two hours. */
  lemma ReaperFails(timeout: nat, s: State, k: nat, i: nat, late: nat)
    requires Up(s, k) && i < |s.runs| && late > 7_200_000_000 && s.runs[i].updatedAt <= s.clock
    requires s.runs[i].status.Running? && s.runs[i].target == Some(s.rows[k].hostId)
    ensures var t := Exec(timeout, s, [Tick(late), Reap(k)]);
            t.Some? && |t.value.runs| == |s.runs|
            && t.value.runs[i] == s.runs[i].(status := Failed, updatedAt := s.clock + late)
  {
    var t := Step(timeout, s, Tick(late)).value;
    var u := Step(timeout, t, Reap(k)).value;
    assert [Tick(late), Reap(k)][1..] == [Reap(k)] && [Reap(k)][1..] == [];
    assert Exec(timeout, u, []) == Some(u) && Exec(timeout, t, [Reap(k)]) == Some(u);
    ReapedExactly(t.runs, t.rows[k].hostId, t.clock);
  }

  /** A worker starts a run although its host has been taken offline. */
  ghost predicate StartsOffline(s: State, a: Atomic) {
    && a.One? && a.action.WorkerStarts? && a.action.run < |s.progress| && !s.progress[a.action.run].New?
    && !(s.progress[a.action.run].host < |s.rows| && s.rows[s.progress[a.action.run].host].online)
  }

  lemma SubmitKeepsCover(timeout: nat, s: State, i: nat, b: Bundle)
    requires Sane(s) && Covered(s) && s.marked.None? && AtomicStep(timeout, s, Submit(i, b)).Some?
    ensures var t := AtomicStep(timeout, s, Submit(i, b)).value;
            Sane(t) && Covered(t) && t.marked.None?
  {
    var x := Step(timeout, s, ReserveSlot(i, b)).value;
    assert [ReserveSlot(i, b), Record(i)][1..] == [Record(i)] && [Record(i)][1..] == [];
    assert Exec(timeout, x, [Record(i)]) == Step(timeout, x, Record(i));
    StepKeepsSane(timeout, s, ReserveSlot(i, b));
    CoverLostExactly(timeout, s, ReserveSlot(i, b));
    StepKeepsSane(timeout, x, Record(i));
    CoverLostExactly(timeout, x, Record(i));
  }

  lemma SweepKeepsCover(timeout: nat, s: State)
    requires Sane(s) && Covered(s) && s.marked.None? && AtomicStep(timeout, s, Sweep).Some?
    ensures var t := AtomicStep(timeout, s, Sweep).value;
            Sane(t) && Covered(t) && t.marked.None?
  {
    var x := Step(timeout, s, Mark).value;
    StepKeepsSane(timeout, s, Mark);
    CoverLostExactly(timeout, s, Mark);
    if x.marked.Some? {
      StepKeepsSane(timeout, x, FailMarked);
      CoverLostExactly(timeout, x, FailMarked);
    }
  }

  lemma AtomicCoverLostExactly(timeout: nat, s: State, a: Atomic)
    requires Sane(s) && Covered(s) && s.marked.None? && AtomicStep(timeout, s, a).Some?
    ensures var t := AtomicStep(timeout, s, a).value;
            Sane(t) && t.marked.None? && (Covered(t) <==> !StartsOffline(s, a))
  {
    match a
    case Submit(i, b) => SubmitKeepsCover(timeout, s, i, b);
    case Sweep => SweepKeepsCover(timeout, s);
    case One(x) =>
      StepKeepsSane(timeout, s, x);
      CoverLostExactly(timeout, s, x);
      CoveredIsOnline(s);
      if x.BackendStops? {
        assert forall i :: 0 <= i < |s.runs| && IsActive(s.runs[i].status) ==> OnOnlineHost(s, i);
      }
  }

  ghost predicate OnlineThroughout(timeout: nat, s: State, acts: seq<Atomic>)
    decreases |acts|
  {
    AllOnline(s) && (acts == [] || (AtomicStep(timeout, s, acts[0]).Some? ==>
      OnlineThroughout(timeout, AtomicStep(timeout, s, acts[0]).value, acts[1..])))
  }

  ghost predicate NoneStartsOffline(timeout: nat, s: State, acts: seq<Atomic>)
    decreases |acts|
  {
    acts == [] || (!StartsOffline(s, acts[0]) && (AtomicStep(timeout, s, acts[0]).Some? ==>
      NoneStartsOffline(timeout, AtomicStep(timeout, s, acts[0]).value, acts[1..])))
  }

  /**
   * With submissions and sweeps kept whole, every active run sits on an online host in every
   * state reached, exactly when no worker starts a run while its host is marked offline.
   */
  lemma {:induction false} NoOrphansExactly(timeout: nat, s: State, acts: seq<Atomic>)
    requires Sane(s) && AllOnline(s) && s.marked.None? && AtomicExec(timeout, s, acts).Some?
    ensures OnlineThroughout(timeout, s, acts) <==> NoneStartsOffline(timeout, s, acts)
    decreases |acts|
  {
    if acts != [] {
      var t := AtomicStep(timeout, s, acts[0]).value;
      CoveredIsOnline(s);
      AtomicCoverLostExactly(timeout, s, acts[0]);
      CoveredIsOnline(t);
      if AllOnline(t) { NoOrphansExactly(timeout, t, acts[1..]); }
    }
  }

  // --- timely heartbeats -------------------------------------------------------------------

  /** A run is either not placed yet, or sits on its host; and live hosts with runs are online. */
  ghost predicate RunOk(s: State, i: nat)
    requires i < |s.runs| == |s.progress| && |s.rows| == |s.alive|
  {
    match s.progress[i]
    case New => s.runs[i].target.None? && !IsActive(s.runs[i].status)
    case Reserved(_) => false
    case Recorded(k) =>
      && k < |s.rows| && s.runs[i].target == Some(s.rows[k].hostId)
      && (s.alive[k] || IsActive(s.runs[i].status) ==> s.rows[k].online)
  }

  ghost predicate Ok(s: State) {
    && |s.runs| == |s.progress| && |s.rows| == |s.alive| && s.marked.None?
    && forall i :: 0 <= i < |s.runs| ==> RunOk(s, i)
  }

  lemma SimpleStepKeepsOk(timeout: nat, s: State, a: Action)
    requires Ok(s) && Step(timeout, s, a).Some?
    requires !(a.ReserveSlot? || a.Record? || a.Mark? || a.FailMarked?)
    ensures Ok(Step(timeout, s, a).value)
  {
    var t := Step(timeout, s, a).value;
    forall i | 0 <= i < |t.runs| ensures RunOk(t, i) {
      if i < |s.runs| { assert RunOk(s, i); }
    }
  }

  lemma SubmitKeepsOk(timeout: nat, s: State, i: nat, b: Bundle)
    requires Ok(s) && AtomicStep(timeout, s, Submit(i, b)).Some?
    ensures Ok(AtomicStep(timeout, s, Submit(i, b)).value)
  {
    var acts := [ReserveSlot(i, b), Record(i)];
    var t := Step(timeout, s, acts[0]).value;
    assert acts[1..] == [Record(i)] && [Record(i)][1..] == [];
    var u := Step(timeout, t, Record(i)).value;
    assert Exec(timeout, u, []) == Some(u) && Exec(timeout, t, [Record(i)]) == Some(u);
    assert Exec(timeout, s, acts) == Some(u);
    forall j | 0 <= j < |u.runs| ensures RunOk(u, j) { assert RunOk(s, j); }
  }

  lemma SweepKeepsOk(timeout: nat, s: State)
    requires Ok(s) && Accurate(s, timeout) && AtomicStep(timeout, s, Sweep).Some?
    ensures Ok(AtomicStep(timeout, s, Sweep).value)
  {
    var cutoff := s.clock - timeout;
    var u := AtomicStep(timeout, s, Sweep).value;
    forall i | 0 <= i < |u.runs| ensures RunOk(u, i) {
      assert RunOk(s, i);
      if s.progress[i].Recorded? {
        var k := s.progress[i].host;
        StaleIdsExact(s.rows, cutoff, s.rows[k].hostId);
        assert u.rows[k] == SweptRow(s.rows[k], cutoff);
        assert Up(s, k) == s.alive[k];
      }
    }
  }

  /** At every sweep, no live host looks stale. */
  ghost predicate TimelySweeps(timeout: nat, s: State, acts: seq<Atomic>)
    decreases |acts|
  {
    acts == [] || ((acts[0].Sweep? ==> Accurate(s, timeout)) && (AtomicStep(timeout, s, acts[0]).Some? ==>
      TimelySweeps(timeout, AtomicStep(timeout, s, acts[0]).value, acts[1..])))
  }

  /** When heartbeats are on time at each sweep, that never happens, and no run is orphaned. */
  lemma {:induction false} NoOrphans(timeout: nat, s: State, acts: seq<Atomic>)
    requires Ok(s) && AtomicExec(timeout, s, acts).Some? && TimelySweeps(timeout, s, acts)
    ensures Ok(AtomicExec(timeout, s, acts).value) && AllOnline(AtomicExec(timeout, s, acts).value)
    ensures OnlineThroughout(timeout, s, acts)
    decreases |acts|
  {
    OkIsOnline(s);
    if acts != [] {
      match acts[0] {
        case One(a) => SimpleStepKeepsOk(timeout, s, a);
        case Submit(i, b) => SubmitKeepsOk(timeout, s, i, b);
        case Sweep => SweepKeepsOk(timeout, s);
      }
      NoOrphans(timeout, AtomicStep(timeout, s, acts[0]).value, acts[1..]);
    }
  }

  lemma OkIsOnline(s: State)
    requires Ok(s)
    ensures AllOnline(s)
  {
    forall i | 0 <= i < |s.runs| && IsActive(s.runs[i].status) ensures OnOnlineHost(s, i) {
      assert RunOk(s, i) && s.progress[i].Recorded?;
    }
  }

  // --- an uncovered run on a dead host is stuck for ever --------------------------------------

  /** An uncovered run whose host is dead. */
  ghost predicate Stuck(s: State, i: nat, k: nat) {
    && Sane(s) && UniqueIds(s.rows)
    && i < |s.runs| && k < |s.rows| && !RunCovered(s, i)
    && !s.progress[i].New? && s.progress[i].host == k && !s.alive[k]
  }

  /** A step on the rows leaves a stuck run's host dead, offline and forgotten. */
  lemma RowStepKeepsStuck(timeout: nat, s: State, a: Action, i: nat, k: nat)
    requires Stuck(s, i, k) && Step(timeout, s, a).Some? && Sane(Step(timeout, s, a).value)
    requires a.Mark? || a.Heartbeat? || a.ReserveSlot? || a.Crash? || a.Tick? || a.BackendStops?
    ensures Stuck(Step(timeout, s, a).value, i, k)
  {
    if a.Mark? { SweepForgetsOffline(s.rows, s.clock - timeout, k); }
    if a.Heartbeat? || a.ReserveSlot? { RowWritesKeepIds(timeout, s, a); }
  }

  /** A step on the runs leaves it active. */
  lemma RunStepKeepsStuck(timeout: nat, s: State, a: Action, i: nat, k: nat)
    requires Stuck(s, i, k) && Step(timeout, s, a).Some? && Sane(Step(timeout, s, a).value)
    requires !(a.Mark? || a.Heartbeat? || a.ReserveSlot? || a.Crash? || a.Tick? || a.BackendStops?)
    ensures Stuck(Step(timeout, s, a).value, i, k)
  {
    assert RunSane(s, i);
  }

  lemma StepKeepsStuck(timeout: nat, s: State, a: Action, i: nat, k: nat)
    requires Stuck(s, i, k) && Step(timeout, s, a).Some?
    ensures Stuck(Step(timeout, s, a).value, i, k)
  {
    StepKeepsSane(timeout, s, a);
    if a.Mark? || a.Heartbeat? || a.ReserveSlot? || a.Crash? || a.Tick? || a.BackendStops? {
      RowStepKeepsStuck(timeout, s, a, i, k);
    } else {
      RunStepKeepsStuck(timeout, s, a, i, k);
    }
  }

  lemma RowWritesKeepIds(timeout: nat, s: State, a: Action)
    requires Step(timeout, s, a).Some? && (a.Heartbeat? || a.ReserveSlot?)
    ensures var rows := Step(timeout, s, a).value.rows;
            |rows| == |s.rows| && forall j :: 0 <= j < |rows| ==> rows[j].hostId == s.rows[j].hostId
  {
  }

  /** A sweep does not look at a host that is already offline. */
  lemma SweepForgetsOffline(rows: seq<Host>, cutoff: int, k: nat)
    requires UniqueIds(rows) && k < |rows| && !rows[k].online
    ensures rows[k].hostId !in StaleIds(rows, cutoff)
    ensures UniqueIds(Swept(rows, cutoff)) && Swept(rows, cutoff)[k] == rows[k]
  {
    StaleIdsExact(rows, cutoff, rows[k].hostId);
  }

  /** No later step of anyone, at any time, ends a stuck run: it stays DISPATCHED or RUNNING. */
  lemma {:induction false} StuckForEver(timeout: nat, s: State, acts: seq<Action>, i: nat, k: nat)
    requires Stuck(s, i, k) && Exec(timeout, s, acts).Some?
    ensures Stuck(Exec(timeout, s, acts).value, i, k)
    ensures IsActive(Exec(timeout, s, acts).value.runs[i].status)
    decreases |acts|
  {
    if acts != [] {
      StepKeepsStuck(timeout, s, acts[0], i, k);
      StuckForEver(timeout, Step(timeout, s, acts[0]).value, acts[1..], i, k);
    }
  }
}
