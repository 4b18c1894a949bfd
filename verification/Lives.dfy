/**
 * The ways a run can go once its message is queued, whatever else is going on: to its end, into a
 * leak, or back to the queue. And what the steps that only write rows mean for bookings.
 */
module Lives {
  import opened Models
  import opened Scheduler
  import opened Capacity
  import Maintenance
  import Tags

  // --- containers -------------------------------------------------------------------------

  /**
   * A container appears running, with its run's launch; it stays where it is until that run's own
   * cleanup removes it, and once it has exited it never runs again.
   */
  lemma ContainersMove(s: State, a: Action, t: string)
    requires Step(s, a).Some?
    ensures var u := Step(s, a).value;
            && (t in s.containers && a != Remove(t) ==>
                  t in u.containers && u.containers[t].host == s.containers[t].host
                  && (u.containers[t].running <==> s.containers[t].running && a != Exit(t)))
            && (a == Remove(t) ==> t !in u.containers)
            && (t !in s.containers && t in u.containers ==>
                  a == Launch(t) && u.containers[t].running && Some(u.containers[t].host) == s.jobs[t].worker)
  {
  }

  // --- one run ----------------------------------------------------------------------------

  /** The state with run t at this stage, taken by the host whose slot it has. */
  function At(s: State, t: string, stage: Stage, container: Option<bool>): State
    requires t in s.jobs
  {
    var k := s.jobs[t].slot;
    s.(jobs := s.jobs[t := s.jobs[t].(worker := Some(k), stage := stage)],
       containers := if container.Some? then s.containers[t := Container(k, container.value)] else s.containers)
  }

  /** Its message is queued and nothing of it runs yet. */
  ghost predicate Waiting(s: State, t: string) {
    Routed(s) && t in s.jobs && s.jobs[t].stage.Queued? && t !in s.containers
  }

  /** A step of the run itself, from what it does to the job, the rows and the containers. */
  lemma OwnStep(x: State, a: Action, y: State)
    requires IsJobAction(a) && a.test in x.jobs && a.test in y.jobs
    requires JobAfter(x.rows, x.jobs[a.test], a) == Some(y.jobs[a.test]) && y.jobs == x.jobs[a.test := y.jobs[a.test]]
    requires y.rows == RowsAfterJob(x.rows, x.jobs[a.test], a)
    requires y.containers == ContainersAfter(x.containers, x.jobs[a.test], a)
    ensures Step(x, a) == Some(y)
  {
  }

  lemma MessageIsTaken(s: State, t: string)
    requires Waiting(s, t)
    ensures Step(s, Take(t, s.jobs[t].slot)) == Some(At(s, t, Taken, None))
  {
    assert JobRouted(s.rows, s.jobs[t]);
    OwnStep(s, Take(t, s.jobs[t].slot), At(s, t, Taken, None));
  }

  lemma ContainerStarts(s: State, t: string)
    requires Waiting(s, t)
    ensures Step(At(s, t, Taken, None), Launch(t)) == Some(At(s, t, Launched, Some(true)))
  {
    OwnStep(At(s, t, Taken, None), Launch(t), At(s, t, Launched, Some(true)));
  }

  lemma ContainerExits(s: State, t: string)
    requires Waiting(s, t)
    ensures Step(At(s, t, Launched, Some(true)), Exit(t)) == Some(At(s, t, Launched, Some(false)))
  {
    var up, down := At(s, t, Launched, Some(true)), At(s, t, Launched, Some(false));
    assert up.containers[t := Container(s.jobs[t].slot, false)] == down.containers;
  }

  lemma CleanupRemoves(s: State, t: string)
    requires Waiting(s, t)
    ensures Step(At(s, t, Launched, Some(false)), Remove(t)) == Some(At(s, t, Removed, None))
  {
    var down, gone := At(s, t, Launched, Some(false)), At(s, t, Removed, None);
    assert down.containers - {t} == gone.containers;
    OwnStep(down, Remove(t), gone);
  }

  /** The inventory once run t has given back its slot. */
  function Freed(s: State, t: string): seq<Host>
    requires t in s.jobs && s.jobs[t].slot < |s.rows|
  {
    s.rows[s.jobs[t].slot := ReleaseSlot(s.rows[s.jobs[t].slot])]
  }

  lemma SlotIsGivenBack(s: State, t: string)
    requires Waiting(s, t) && s.jobs[t].slot < |s.rows|
    ensures Step(At(s, t, Removed, None), Release(t)) == Some(At(s, t, Released, None).(rows := Freed(s, t)))
  {
    OwnStep(At(s, t, Removed, None), Release(t), At(s, t, Released, None).(rows := Freed(s, t)));
  }

  lemma MessageIsAcknowledged(s: State, t: string)
    requires Waiting(s, t) && s.jobs[t].slot < |s.rows|
    ensures Step(At(s, t, Released, None).(rows := Freed(s, t)), Acknowledge(t))
            == Some(At(s, t, Acknowledged, None).(rows := Freed(s, t)))
  {
    OwnStep(At(s, t, Released, None).(rows := Freed(s, t)), Acknowledge(t),
            At(s, t, Acknowledged, None).(rows := Freed(s, t)));
  }

  lemma RunRuns(s: State, t: string, rest: seq<Action>)
    requires Waiting(s, t)
    ensures Exec(s, [Take(t, s.jobs[t].slot), Launch(t), Exit(t)] + rest) == Exec(At(s, t, Launched, Some(false)), rest)
  {
    var k := s.jobs[t].slot;
    MessageIsTaken(s, t);
    ContainerStarts(s, t);
    ContainerExits(s, t);
    ExecCons(At(s, t, Launched, Some(true)), Exit(t), At(s, t, Launched, Some(false)), rest);
    ExecCons(At(s, t, Taken, None), Launch(t), At(s, t, Launched, Some(true)), [Exit(t)] + rest);
    ExecCons(s, Take(t, k), At(s, t, Taken, None), [Launch(t)] + ([Exit(t)] + rest));
    assert [Take(t, k), Launch(t), Exit(t)] + rest == [Take(t, k)] + ([Launch(t)] + ([Exit(t)] + rest));
  }

  lemma RunIsCleanedUp(s: State, t: string)
    requires Waiting(s, t) && s.jobs[t].slot < |s.rows|
    ensures Exec(At(s, t, Launched, Some(false)), [Remove(t), Release(t), Acknowledge(t)])
            == Some(At(s, t, Acknowledged, None).(rows := Freed(s, t)))
  {
    CleanupRemoves(s, t);
    SlotIsGivenBack(s, t);
    MessageIsAcknowledged(s, t);
    ThreeSteps(At(s, t, Launched, Some(false)), Remove(t), At(s, t, Removed, None),
               Release(t), At(s, t, Released, None).(rows := Freed(s, t)),
               Acknowledge(t), At(s, t, Acknowledged, None).(rows := Freed(s, t)));
  }

  /** A queued run can go through to its end, and then its slot is free and its container gone. */
  lemma RunCompletes(s: State, t: string)
    requires Waiting(s, t)
    ensures var k := s.jobs[t].slot;
            var end := Exec(s, [Take(t, k), Launch(t), Exit(t)] + [Remove(t), Release(t), Acknowledge(t)]);
            && k < |s.rows|
            && end == Some(At(s, t, Acknowledged, None).(rows := s.rows[k := ReleaseSlot(s.rows[k])]))
  {
    assert JobRouted(s.rows, s.jobs[t]);
    RunRuns(s, t, [Remove(t), Release(t), Acknowledge(t)]);
    RunIsCleanedUp(s, t);
  }

  lemma OverwriteJob(jobs: map<string, Job>, t: string, first: Job, last: Job)
    ensures jobs[t := first][t := last] == jobs[t := last]
  {
  }

  /** A failure before the try leaves the run over. */
  lemma SetupFailureLeaks(s: State, t: string)
    requires Waiting(s, t)
    ensures Step(At(s, t, Taken, None), SetupFails(t)) == Some(At(s, t, Leaked, None))
  {
    OwnStep(At(s, t, Taken, None), SetupFails(t), At(s, t, Leaked, None));
  }

  /** So does one of removing the container, which may be left behind. */
  lemma RemovalFailureLeaks(s: State, t: string)
    requires Waiting(s, t)
    ensures Step(At(s, t, Launched, Some(false)), RemoveFails(t)) == Some(At(s, t, Leaked, Some(false)))
  {
    var down, over := At(s, t, Launched, Some(false)), At(s, t, Leaked, Some(false));
    OverwriteJob(s.jobs, t, down.jobs[t], over.jobs[t]);
    OwnStep(down, RemoveFails(t), down.(jobs := over.jobs));
  }

  /** And one of giving back the slot. */
  lemma ReleaseFailureLeaks(s: State, t: string)
    requires Waiting(s, t)
    ensures Step(At(s, t, Removed, None), ReleaseFails(t)) == Some(At(s, t, Leaked, None))
  {
    OwnStep(At(s, t, Removed, None), ReleaseFails(t), At(s, t, Leaked, None));
  }

  /** When the worker process dies the message comes back, at any point from taking it to acknowledging it. */
  lemma MessageComesBack(s: State, t: string)
    requires t in s.jobs
    ensures Step(s, Redeliver(t)) ==
            if s.jobs[t].stage in {Taken, Launched, Removed, Released}
            then Some(s.(jobs := s.jobs[t := s.jobs[t].(stage := Queued)])) else None
  {
  }

  // --- rows and bookings --------------------------------------------------------------------

  /** A host the sweep finds silent gets no job until it is heard from; counts stay as they are. */
  lemma SweepStopsBookings(s: State, cutoff: int, b: Bundle, k: nat)
    requires k < |s.rows| && (s.rows[k].heartbeat.Some? ==> s.rows[k].heartbeat.value.utc < cutoff)
    ensures var t := Step(s, Sweep(cutoff));
            && t.Some? && |t.value.rows| == |s.rows| && BestIndex(t.value.rows, b) != Some(k)
            && forall i :: 0 <= i < |s.rows| ==> t.value.rows[i].active == s.rows[i].active
  {
    var rows := Maintenance.Swept(s.rows, cutoff);
    assert Step(s, Sweep(cutoff)) == Some(s.(rows := rows));
    assert forall i :: 0 <= i < |rows| ==> rows[i] == Maintenance.SweptRow(s.rows[i], cutoff);
  }

  /** A host is booked on the terms last configured for it; counts stay as they are. */
  lemma ConfiguredTermsHold(s: State, k: nat, tags: string, emulation: bool, cap: int, b: Bundle)
    requires k < |s.rows|
    ensures var t := Step(s, Configure(k, tags, emulation, cap));
            && t.Some? && |t.value.rows| == |s.rows|
            && (forall i :: 0 <= i < |s.rows| ==> t.value.rows[i].active == s.rows[i].active)
            && (BestIndex(t.value.rows, b) == Some(k) ==>
                  && s.rows[k].online && s.rows[k].active < cap && (b.requiresEmulation ==> emulation)
                  && forall x :: x in b.requiredTags ==> Tags.IsTagOf(x, tags))
  {
    var t := Step(s, Configure(k, tags, emulation, cap)).value;
    FilterIsNeed(t.rows[k], b);
  }
}
