/** Concrete runs of one submission on one host that end stranded, or with the wrong status. */
module OrphanTraces {
  import opened Models
  import opened Scheduler
  import opened Maintenance
  import opened Orphans
  import Worker

  ghost predicate Chain(timeout: nat, states: seq<State>, acts: seq<Action>) {
    && |states| == |acts| + 1
    && forall i :: 0 <= i < |acts| ==> Step(timeout, states[i], acts[i]) == Some(states[i + 1])
  }

  lemma {:induction false} ChainIsExec(timeout: nat, states: seq<State>, acts: seq<Action>)
    requires Chain(timeout, states, acts)
    ensures Exec(timeout, states[0], acts) == Some(states[|acts|])
  {
    if acts != [] {
      assert Step(timeout, states[0], acts[0]) == Some(states[1]);
      forall i | 0 <= i < |acts[1..]| ensures Step(timeout, states[1..][i], acts[1..][i]) == Some(states[1..][i + 1]) {
        assert Step(timeout, states[i + 1], acts[i + 1]) == Some(states[i + 2]);
      }
      ChainIsExec(timeout, states[1..], acts[1..]);
    }
  }

  /** One host and one submitted run, at various points of the two traces below. */
  function OneHost(online: bool, count: nat, alive: bool, run: Run, progress: Progress, clock: int,
                   marked: Option<seq<string>>): State
  {
    State([Host("h", online, count, 1, 0.0, "", false, Some(Aware(0)))], [alive], [run], [progress], clock, marked)
  }

  const SUBMITTED := Run("t", None, Pending, None, None, 0)

  /** The run once its target has been recorded at this time. */
  function Targeted(time: int): Run {
    Run("t", Some("h"), Dispatched, None, None, time)
  }

  lemma ReserveStep(timeout: nat, b: Bundle)
    requires b.requiredTags == [] && !b.requiresEmulation
    ensures Step(timeout, OneHost(true, 0, true, SUBMITTED, New, 0, None), ReserveSlot(0, b))
            == Some(OneHost(true, 1, true, SUBMITTED, Reserved(0), 0, None))
  {
    var s := OneHost(true, 0, true, SUBMITTED, New, 0, None);
    var t := OneHost(true, 1, true, SUBMITTED, Reserved(0), 0, None);
    assert s.rows[..0] == [];
    assert BestIndex(s.rows, b) == Some(0);
    assert s.rows[0 := Reserve(s.rows[0])] == t.rows && s.progress[0 := Reserved(0)] == t.progress;
  }

  lemma RecordStep(timeout: nat, online: bool, alive: bool, clock: int)
    ensures Step(timeout, OneHost(online, 1, alive, SUBMITTED, Reserved(0), clock, None), Record(0))
            == Some(OneHost(online, 1, alive, Targeted(clock), Recorded(0), clock, None))
  {
    var s := OneHost(online, 1, alive, SUBMITTED, Reserved(0), clock, None);
    var r := Worker.WithStatus(SUBMITTED, Dispatched, Some("h"), None, clock);
    assert r == Targeted(clock);
    assert s.runs[0 := r] == [r] && s.progress[0 := Recorded(0)] == [Recorded(0)];
  }

  lemma CrashAndWait(timeout: nat, run: Run, progress: Progress)
    ensures Step(timeout, OneHost(true, 1, true, run, progress, 0, None), Crash(0))
            == Some(OneHost(true, 1, false, run, progress, 0, None))
    ensures Step(timeout, OneHost(true, 1, false, run, progress, 0, None), Tick(timeout + 1))
            == Some(OneHost(true, 1, false, run, progress, timeout + 1, None))
  {
    assert [true][0 := false] == [false];
  }

  lemma MarkStep(timeout: nat, run: Run, progress: Progress)
    ensures Step(timeout, OneHost(true, 1, false, run, progress, timeout + 1, None), Mark)
            == Some(OneHost(false, 1, false, run, progress, timeout + 1, Some(["h"])))
  {
    var s := OneHost(true, 1, false, run, progress, timeout + 1, None);
    assert s.rows[..0] == [];
    assert IsStale(s.rows[0], 1) && StaleIds(s.rows, 1) == ["h"];
    assert Swept(s.rows, 1) == OneHost(false, 1, false, run, progress, timeout + 1, None).rows;
  }

  lemma FailNothing(timeout: nat, clock: int)
    ensures Step(timeout, OneHost(false, 1, false, SUBMITTED, Reserved(0), clock, Some(["h"])), FailMarked)
            == Some(OneHost(false, 1, false, SUBMITTED, Reserved(0), clock, None))
  {
    assert FailWhere([SUBMITTED], r => IsOrphan(r, ["h"]), clock) == [SUBMITTED];
  }

  lemma SweepInsideSubmitRun(timeout: nat, b: Bundle)
    requires b.requiredTags == [] && !b.requiresEmulation
    ensures Exec(timeout, OneHost(true, 0, true, SUBMITTED, New, 0, None),
                 [ReserveSlot(0, b), Crash(0), Tick(timeout + 1), Mark, FailMarked, Record(0)])
            == Some(OneHost(false, 1, false, Targeted(timeout + 1), Recorded(0), timeout + 1, None))
  {
    var late := timeout + 1;
    var states := [
      OneHost(true, 0, true, SUBMITTED, New, 0, None),
      OneHost(true, 1, true, SUBMITTED, Reserved(0), 0, None),
      OneHost(true, 1, false, SUBMITTED, Reserved(0), 0, None),
      OneHost(true, 1, false, SUBMITTED, Reserved(0), late, None),
      OneHost(false, 1, false, SUBMITTED, Reserved(0), late, Some(["h"])),
      OneHost(false, 1, false, SUBMITTED, Reserved(0), late, None),
      OneHost(false, 1, false, Targeted(late), Recorded(0), late, None)];
    ReserveStep(timeout, b);
    CrashAndWait(timeout, SUBMITTED, Reserved(0));
    MarkStep(timeout, SUBMITTED, Reserved(0));
    FailNothing(timeout, late);
    RecordStep(timeout, false, false, late);
    ChainIsExec(timeout, states, [ReserveSlot(0, b), Crash(0), Tick(late), Mark, FailMarked, Record(0)]);
  }

  lemma StopInsideSweepRun(timeout: nat, b: Bundle)
    requires b.requiredTags == [] && !b.requiresEmulation
    ensures Exec(timeout, OneHost(true, 0, true, SUBMITTED, New, 0, None),
                 [ReserveSlot(0, b), Record(0), Crash(0), Tick(timeout + 1), Mark, BackendStops])
            == Some(OneHost(false, 1, false, Targeted(0), Recorded(0), timeout + 1, None))
  {
    var late := timeout + 1;
    var states := [
      OneHost(true, 0, true, SUBMITTED, New, 0, None),
      OneHost(true, 1, true, SUBMITTED, Reserved(0), 0, None),
      OneHost(true, 1, true, Targeted(0), Recorded(0), 0, None),
      OneHost(true, 1, false, Targeted(0), Recorded(0), 0, None),
      OneHost(true, 1, false, Targeted(0), Recorded(0), late, None),
      OneHost(false, 1, false, Targeted(0), Recorded(0), late, Some(["h"])),
      OneHost(false, 1, false, Targeted(0), Recorded(0), late, None)];
    ReserveStep(timeout, b);
    RecordStep(timeout, true, true, 0);
    CrashAndWait(timeout, Targeted(0), Recorded(0));
    MarkStep(timeout, Targeted(0), Recorded(0));
    ChainIsExec(timeout, states, [ReserveSlot(0, b), Record(0), Crash(0), Tick(late), Mark, BackendStops]);
  }

  lemma StartAndEnd(time: int, clock: int)
    ensures var start := OneHost(true, 0, true, SUBMITTED, New, 0, None);
            Ok(start) && Sane(start) && Covered(start)
    ensures Stuck(OneHost(false, 1, false, Targeted(time), Recorded(0), clock, None), 0, 0)
  {
    var start := OneHost(true, 0, true, SUBMITTED, New, 0, None);
    var end := OneHost(false, 1, false, Targeted(time), Recorded(0), clock, None);
    assert RunOk(start, 0) && RunSane(start, 0) && RunCovered(start, 0);
    assert RunSane(end, 0) && !RunCovered(end, 0);
  }

  /** A whole sweep between the slot commit and the target write strands the run. */
  lemma SweepInsideSubmitStrands(timeout: nat, b: Bundle)
    requires b.requiredTags == [] && !b.requiresEmulation
    ensures var start := OneHost(true, 0, true, SUBMITTED, New, 0, None);
            var end := Exec(timeout, start,
              [ReserveSlot(0, b), Crash(0), Tick(timeout + 1), Mark, FailMarked, Record(0)]);
            Ok(start) && Sane(start) && Covered(start) && end.Some? && Stuck(end.value, 0, 0)
  {
    SweepInsideSubmitRun(timeout, b);
    StartAndEnd(timeout + 1, timeout + 1);
  }

  /** A backend stop between the sweep's two commits strands the run. */
  lemma StopInsideSweepStrands(timeout: nat, b: Bundle)
    requires b.requiredTags == [] && !b.requiresEmulation
    ensures var start := OneHost(true, 0, true, SUBMITTED, New, 0, None);
            var end := Exec(timeout, start,
              [ReserveSlot(0, b), Record(0), Crash(0), Tick(timeout + 1), Mark, BackendStops]);
            Ok(start) && Sane(start) && Covered(start) && end.Some? && Stuck(end.value, 0, 0)
  {
    StopInsideSweepRun(timeout, b);
    StartAndEnd(0, timeout + 1);
  }

  /** The host of the next trace, alive throughout. */
  function LiveHost(online: bool, run: Run, clock: int, marked: Option<seq<string>>): State {
    OneHost(online, 1, true, run, Recorded(0), clock, marked)
  }

  lemma LateMark(timeout: nat)
    ensures var late := timeout + 1;
            && Step(timeout, LiveHost(true, Targeted(0), 0, None), Tick(late))
               == Some(LiveHost(true, Targeted(0), late, None))
            && Step(timeout, LiveHost(true, Targeted(0), late, None), Mark)
               == Some(LiveHost(false, Targeted(0), late, Some(["h"])))
  {
    var s := LiveHost(true, Targeted(0), timeout + 1, None);
    assert s.rows[..0] == [];
    assert IsStale(s.rows[0], 1) && StaleIds(s.rows, 1) == ["h"];
    assert Swept(s.rows, 1) == LiveHost(false, Targeted(0), timeout + 1, None).rows;
  }

  lemma LateStart(timeout: nat, late: int)
    ensures var failed := Targeted(0).(status := Failed, updatedAt := late);
            && Step(timeout, LiveHost(false, Targeted(0), late, Some(["h"])), FailMarked)
               == Some(LiveHost(false, failed, late, None))
            && Step(timeout, LiveHost(false, failed, late, None), WorkerStarts(0))
               == Some(LiveHost(false, failed.(status := Running), late, None))
  {
    var failed := Targeted(0).(status := Failed, updatedAt := late);
    assert FailWhere([Targeted(0)], r => IsOrphan(r, ["h"]), late) == [failed];
    assert [failed][0 := failed.(status := Running)] == [failed.(status := Running)];
  }

  lemma LateHeartbeatRun(timeout: nat, b: Bundle)
    requires b.requiredTags == [] && !b.requiresEmulation
    ensures Exec(timeout, OneHost(true, 0, true, SUBMITTED, New, 0, None),
                 [ReserveSlot(0, b), Record(0), Tick(timeout + 1), Mark, FailMarked, WorkerStarts(0)])
            == Some(LiveHost(false, Targeted(0).(status := Running, updatedAt := timeout + 1), timeout + 1, None))
  {
    var late := timeout + 1;
    var failed := Targeted(0).(status := Failed, updatedAt := late);
    var states := [
      OneHost(true, 0, true, SUBMITTED, New, 0, None),
      OneHost(true, 1, true, SUBMITTED, Reserved(0), 0, None),
      LiveHost(true, Targeted(0), 0, None),
      LiveHost(true, Targeted(0), late, None),
      LiveHost(false, Targeted(0), late, Some(["h"])),
      LiveHost(false, failed, late, None),
      LiveHost(false, failed.(status := Running), late, None)];
    ReserveStep(timeout, b);
    RecordStep(timeout, true, true, 0);
    LateMark(timeout);
    LateStart(timeout, late);
    ChainIsExec(timeout, states, [ReserveSlot(0, b), Record(0), Tick(late), Mark, FailMarked, WorkerStarts(0)]);
  }

  /** A late heartbeat is enough: the worker starts a run on a host the sweep took offline meanwhile. */
  lemma LateHeartbeatStrands(timeout: nat, b: Bundle)
    requires b.requiredTags == [] && !b.requiresEmulation
    ensures var start := OneHost(true, 0, true, SUBMITTED, New, 0, None);
            var end := Exec(timeout, start,
              [ReserveSlot(0, b), Record(0), Tick(timeout + 1), Mark, FailMarked, WorkerStarts(0)]);
            && Sane(start) && Covered(start) && end.Some? && end.value.alive == [true]
            && |end.value.runs| == 1 && end.value.runs[0].status.Running? && !AllOnline(end.value)
  {
    LateHeartbeatRun(timeout, b);
    StartAndEnd(0, 0);
  }

  /** The run once the worker has ended it, the record still to come. */
  function Ended(passed: bool): State {
    OneHost(true, 1, true, SUBMITTED.(status := if passed then Passed else Failed, target := Some("h")),
            Reserved(0), 0, None)
  }

  lemma EndedRun(timeout: nat, b: Bundle, passed: bool)
    requires b.requiredTags == [] && !b.requiresEmulation
    ensures Exec(timeout, OneHost(true, 0, true, SUBMITTED, New, 0, None),
                 [ReserveSlot(0, b), WorkerStarts(0), WorkerEnds(0, passed)]) == Some(Ended(passed))
  {
    var started := SUBMITTED.(status := Running, target := Some("h"));
    var states := [
      OneHost(true, 0, true, SUBMITTED, New, 0, None),
      OneHost(true, 1, true, SUBMITTED, Reserved(0), 0, None),
      OneHost(true, 1, true, started, Reserved(0), 0, None),
      Ended(passed)];
    ReserveStep(timeout, b);
    assert [SUBMITTED][0 := started] == [started] && [started][0 := Ended(passed).runs[0]] == Ended(passed).runs;
    assert Step(timeout, states[1], WorkerStarts(0)) == Some(states[2]);
    assert Step(timeout, states[2], WorkerEnds(0, passed)) == Some(states[3]);
    ChainIsExec(timeout, states, [ReserveSlot(0, b), WorkerStarts(0), WorkerEnds(0, passed)]);
  }

  /** The backend's record can land after the worker's last write, and then hides its result. */
  lemma LateRecordHidesResult(timeout: nat, b: Bundle, passed: bool)
    requires b.requiredTags == [] && !b.requiresEmulation
    ensures Exec(timeout, OneHost(true, 0, true, SUBMITTED, New, 0, None),
                 [ReserveSlot(0, b), WorkerStarts(0), WorkerEnds(0, passed)]) == Some(Ended(passed))
    ensures Finished(Ended(passed), 0) && Overwrites(Ended(passed), Record(0), 0)
    ensures Step(timeout, Ended(passed), Record(0)) == Some(OneHost(true, 1, true, Targeted(0), Recorded(0), 0, None))
  {
    EndedRun(timeout, b, passed);
    var run := Ended(passed).runs[0];
    assert [run][0 := Targeted(0)] == [Targeted(0)] && [Reserved(0)][0 := Recorded(0)] == [Recorded(0)];
  }
}
