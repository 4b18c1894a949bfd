/** Concrete runs on one host in which its count ends too high, and how such runs start. */
module DriftTraces {
  import opened Models
  import opened Scheduler
  import opened Capacity
  import Tags

  lemma FourSteps(s: State, a: Action, t: State, b: Action, u: State, c: Action, v: State, d: Action, w: State)
    requires Step(s, a) == Some(t) && Step(t, b) == Some(u) && Step(u, c) == Some(v) && Step(v, d) == Some(w)
    ensures Exec(s, [a, b, c, d]) == Some(w)
  {
    ThreeSteps(t, b, u, c, v, d, w);
    ExecCons(s, a, t, [b, c, d]);
    assert [a, b, c, d] == [a] + [b, c, d];
  }

  // --- one dispatched run -----------------------------------------------------------------

  /** The single host, job and container of these traces. */
  function Snapshot(t: string, count: nat, stage: Stage, live: bool): State {
    State([Host("h", true, count, 1, 0.0, "", false, Some(Aware(0)))],
          map[t := Job(0, "queue_h", 0, Some(0), stage)],
          if live then map[t := Container(0, true)] else map[])
  }

  lemma SnapshotIsRouted(t: string, count: nat, stage: Stage, live: bool)
    requires live ==> stage.Queued? || stage.Taken? || stage.Launched? || stage.Leaked?
    ensures Routed(Snapshot(t, count, stage, live))
  {
    var s := Snapshot(t, count, stage, live);
    assert Tags.StripLeft("h") == "h" && Tags.StripRight("h") == "h";
    assert "queue_" + "h" == "queue_h" && s.rows[0].hostId == "h";
    assert QueueNameFor(s.rows[0].hostId) == Some("queue_h");
  }

  /** An idle host, and the same host with its one slot reserved for a run on its way. */
  function Idle(): State {
    State([Host("h", true, 0, 1, 0.0, "", false, Some(Aware(0)))], map[], map[])
  }

  function Started(t: string, stage: Stage): State {
    Snapshot(t, 1, Taken, false).(jobs := map[t := Job(0, "queue_h", 0, if stage.Taken? then Some(0) else None, stage)])
  }

  lemma BookSteps(b: Bundle)
    requires b.requiredTags == [] && !b.requiresEmulation
    ensures Step(Idle(), Book(b)) == Some(Started(b.testId, Sending))
    ensures Step(Started(b.testId, Sending), Send(b.testId)) == Some(Started(b.testId, Queued))
  {
    var s, t := Idle(), b.testId;
    assert s.rows[..0] == [] && BestIndex(s.rows, b) == Some(0);
    assert Tags.StripLeft("h") == "h" && Tags.StripRight("h") == "h" && "queue_" + "h" == "queue_h";
    assert s.rows[0].hostId == "h" && Step(s, Book(b)).value.rows == Started(t, Sending).rows;
    assert Step(Started(t, Sending), Send(t)).value.jobs == Started(t, Queued).jobs;
  }

  lemma LaunchSteps(t: string)
    ensures Step(Started(t, Queued), Take(t, 0)) == Some(Started(t, Taken))
    ensures Step(Started(t, Taken), Launch(t)) == Some(Snapshot(t, 1, Launched, true))
  {
    var queued, taken, up := Started(t, Queued), Started(t, Taken), Snapshot(t, 1, Launched, true);
    assert Tags.StripLeft("h") == "h" && Tags.StripRight("h") == "h" && "queue_" + "h" == "queue_h";
    assert queued.rows[0].hostId == "h";
    assert Step(queued, Take(t, 0)).value.jobs == taken.jobs;
    assert Step(taken, Launch(t)).value.jobs == up.jobs && Step(taken, Launch(t)).value.containers == up.containers;
  }

  /** One dispatched run leads from the idle host to the state the traces start from. */
  lemma SnapshotIsReached(b: Bundle)
    requires b.requiredTags == [] && !b.requiresEmulation
    ensures var t := b.testId;
            && Routed(Idle()) && Excess(Idle(), 0) == 0
            && Exec(Idle(), [Book(b), Send(t), Take(t, 0), Launch(t)]) == Some(Snapshot(t, 1, Launched, true))
  {
    var t := b.testId;
    BookSteps(b);
    LaunchSteps(t);
    FourSteps(Idle(), Book(b), Started(t, Sending), Send(t), Started(t, Queued), Take(t, 0), Started(t, Taken),
              Launch(t), Snapshot(t, 1, Launched, true));
  }

  // --- dispatches that are not undone, or undone from a stale row --------------------------

  /** A host with room for two, one slot of which is held, or was, by the run t. */
  function Shared(t: string, count: nat, stage: Stage, more: map<string, Job>): State {
    State([Host("h", true, count, 2, 0.0, "", false, Some(Aware(0)))],
          map[t := Job(0, "queue_h", 0, Some(0), stage)] + more, map[])
  }

  lemma SharedIsRouted(t: string)
    ensures Routed(Shared(t, 1, Removed, map[]))
  {
    var s := Shared(t, 1, Removed, map[]);
    assert Tags.StripLeft("h") == "h" && Tags.StripRight("h") == "h" && "queue_" + "h" == "queue_h";
    assert s.rows[0].hostId == "h" && QueueNameFor(s.rows[0].hostId) == Some("queue_h");
  }

  /** The other dispatch, at this stage. */
  function Other(b: Bundle, before: nat, stage: Stage): map<string, Job> {
    map[b.testId := Job(0, "queue_h", before, None, stage)]
  }

  lemma BookBeside(t: string, b: Bundle)
    requires b.requiredTags == [] && !b.requiresEmulation && b.testId != t
    ensures Step(Shared(t, 1, Removed, map[]), Book(b)) == Some(Shared(t, 2, Removed, Other(b, 1, Sending)))
  {
    var s, x := Shared(t, 1, Removed, map[]), Shared(t, 2, Removed, Other(b, 1, Sending));
    assert s.rows[..0] == [] && BestIndex(s.rows, b) == Some(0);
    assert Tags.StripLeft("h") == "h" && Tags.StripRight("h") == "h" && "queue_" + "h" == "queue_h";
    assert s.rows[0].hostId == "h" && Step(s, Book(b)).value.rows == x.rows;
    assert Step(s, Book(b)).value.jobs == x.jobs;
  }

  lemma ReleaseBeside(t: string, b: Bundle)
    requires b.testId != t
    ensures Step(Shared(t, 2, Removed, Other(b, 1, Sending)), Release(t))
            == Some(Shared(t, 1, Released, Other(b, 1, Sending)))
  {
    var x, y := Shared(t, 2, Removed, Other(b, 1, Sending)), Shared(t, 1, Released, Other(b, 1, Sending));
    assert Step(x, Release(t)).value.jobs == y.jobs && Step(x, Release(t)).value.rows == y.rows;
  }

  lemma SendFailsBeside(t: string, b: Bundle)
    requires b.testId != t
    ensures Step(Shared(t, 1, Released, Other(b, 1, Sending)), SendFails(b.testId))
            == Some(Shared(t, 1, Released, Other(b, 1, Undoing(true))))
  {
    var x, y := Shared(t, 1, Released, Other(b, 1, Sending)), Shared(t, 1, Released, Other(b, 1, Undoing(true)));
    assert Step(x, SendFails(b.testId)).value.jobs == y.jobs;
  }

  lemma UndoBeside(t: string, b: Bundle)
    requires b.testId != t
    ensures Step(Shared(t, 1, Released, Other(b, 1, Undoing(true))), Undo(b.testId, true))
            == Some(Shared(t, 1, Released, Other(b, 1, Abandoned)))
  {
    var y, z := Shared(t, 1, Released, Other(b, 1, Undoing(true))), Shared(t, 1, Released, Other(b, 1, Abandoned));
    assert Step(y, Undo(b.testId, true)).value.jobs == z.jobs && Step(y, Undo(b.testId, true)).value.rows == z.rows;
  }

  lemma StaleUndoRun(t: string, b: Bundle)
    requires b.requiredTags == [] && !b.requiresEmulation && b.testId != t
    ensures Exec(Shared(t, 1, Removed, map[]), [Book(b), Release(t), SendFails(b.testId), Undo(b.testId, true)])
            == Some(Shared(t, 1, Released, Other(b, 1, Abandoned)))
  {
    BookBeside(t, b);
    ReleaseBeside(t, b);
    SendFailsBeside(t, b);
    UndoBeside(t, b);
    FourSteps(Shared(t, 1, Removed, map[]), Book(b), Shared(t, 2, Removed, Other(b, 1, Sending)), Release(t),
              Shared(t, 1, Released, Other(b, 1, Sending)), SendFails(b.testId),
              Shared(t, 1, Released, Other(b, 1, Undoing(true))), Undo(b.testId, true),
              Shared(t, 1, Released, Other(b, 1, Abandoned)));
  }

  lemma SharedExcess(t: string, b: Bundle)
    requires b.testId != t
    ensures Excess(Shared(t, 1, Removed, map[]), 0) == 0
    ensures Excess(Shared(t, 1, Released, Other(b, 1, Abandoned)), 0) == 1
  {
    assert UnreleasedOn(Shared(t, 1, Removed, map[]), 0) == {t};
    assert UnreleasedOn(Shared(t, 1, Released, Other(b, 1, Abandoned)), 0) == {};
  }

  /** A release between commit and compensation is lost when the session's row is stale. */
  lemma StaleUndoDrifts(t: string, b: Bundle)
    requires b.requiredTags == [] && !b.requiresEmulation && b.testId != t
    ensures var s := Shared(t, 1, Removed, map[]);
            var end := Exec(s, [Book(b), Release(t), SendFails(b.testId), Undo(b.testId, true)]);
            Routed(s) && Excess(s, 0) == 0 && end.Some? && Excess(end.value, 0) == 1
  {
    SharedIsRouted(t);
    StaleUndoRun(t, b);
    SharedExcess(t, b);
  }

  /** A failed send whose compensation fails too leaves a slot nobody holds. */
  lemma GiveUpDrifts(b: Bundle)
    requires b.requiredTags == [] && !b.requiresEmulation
    ensures var end := Exec(Idle(), [Book(b), SendFails(b.testId), GiveUp(b.testId)]);
            Routed(Idle()) && Excess(Idle(), 0) == 0 && end.Some? && Excess(end.value, 0) == 1
  {
    var s, f := Idle(), Faults(true, false, false);
    assert s.rows[..0] == [] && BestIndex(s.rows, b) == Some(0);
    assert Tags.StripLeft("h") == "h" && Tags.StripRight("h") == "h";
    AttemptIsSteps(s, b, f, false);
    assert AttemptSteps(b, f, false) == [Book(b), SendFails(b.testId), GiveUp(b.testId)];
    var end := Exec(s, AttemptSteps(b, f, false)).value;
    assert UnreleasedOn(end, 0) == {};
  }

  // --- the order of cleanup and release matters ------------------------------------------

  /** The protocol with the last two steps of a run exchanged: release first, then remove. */
  function SwappedStep(s: State, a: Action): Option<State> {
    match a
    case Release(t) =>
      if t in s.jobs && s.jobs[t].stage.Launched? && s.jobs[t].worker.Some? && s.jobs[t].worker.value < |s.rows| then
        var w := s.jobs[t].worker.value;
        Some(s.(rows := s.rows[w := ReleaseSlot(s.rows[w])], jobs := s.jobs[t := s.jobs[t].(stage := Released)]))
      else None
    case Remove(t) =>
      if t in s.jobs && s.jobs[t].stage.Released?
      then Some(s.(jobs := s.jobs[t := s.jobs[t].(stage := Acknowledged)], containers := s.containers - {t}))
      else None
    case _ => Step(s, a)
  }

  function SwappedExec(s: State, acts: seq<Action>): Option<State>
    decreases |acts|
  {
    if acts == [] then Some(s) else
      match SwappedStep(s, acts[0]) case None => None case Some(t) => SwappedExec(t, acts[1..])
  }

  lemma SwappedCons(s: State, a: Action, t: State, rest: seq<Action>)
    requires SwappedStep(s, a) == Some(t)
    ensures SwappedExec(s, [a] + rest) == SwappedExec(t, rest)
  {
    assert ([a] + rest)[1..] == rest;
  }

  lemma SwappedRelease(t: string)
    ensures SwappedStep(Snapshot(t, 1, Launched, true), Release(t)) == Some(Snapshot(t, 0, Released, true))
  {
    var x, y := SwappedStep(Snapshot(t, 1, Launched, true), Release(t)).value, Snapshot(t, 0, Released, true);
    assert x.rows == y.rows && x.jobs == y.jobs;
  }

  lemma SwappedHeartbeat(t: string)
    ensures SwappedStep(Snapshot(t, 0, Released, true), Heartbeat("h", true, 0.0, 0))
            == Some(Snapshot(t, 1, Released, true))
  {
    var s := Snapshot(t, 0, Released, true);
    assert LiveOn(s, 0) == {t};
    assert s.rows[0].hostId == "h" && |s.rows| == 1;
    assert SwappedStep(s, Heartbeat("h", true, 0.0, 0)).value.rows == Snapshot(t, 1, Released, true).rows;
  }

  lemma SwappedRemove(t: string)
    ensures SwappedStep(Snapshot(t, 1, Released, true), Remove(t)) == Some(Snapshot(t, 1, Acknowledged, false))
  {
    var x, y := SwappedStep(Snapshot(t, 1, Released, true), Remove(t)).value, Snapshot(t, 1, Acknowledged, false);
    assert x.jobs == y.jobs && x.containers == y.containers;
  }

  lemma SwappedRun(t: string)
    ensures SwappedExec(Snapshot(t, 1, Launched, true), [Release(t), Heartbeat("h", true, 0.0, 0), Remove(t)])
            == Some(Snapshot(t, 1, Acknowledged, false))
  {
    var beat := Heartbeat("h", true, 0.0, 0);
    SwappedRelease(t);
    SwappedHeartbeat(t);
    SwappedRemove(t);
    SwappedCons(Snapshot(t, 1, Launched, true), Release(t), Snapshot(t, 0, Released, true), [beat, Remove(t)]);
    SwappedCons(Snapshot(t, 0, Released, true), beat, Snapshot(t, 1, Released, true), [Remove(t)]);
    SwappedCons(Snapshot(t, 1, Released, true), Remove(t), Snapshot(t, 1, Acknowledged, false), []);
    assert [Release(t)] + [beat, Remove(t)] == [Release(t), beat, Remove(t)];
    assert [beat] + [Remove(t)] == [beat, Remove(t)] && [Remove(t)] + [] == [Remove(t)];
  }

  /** With the order exchanged, a heartbeat between release and removal leaves the count too high. */
  lemma SwappedOrderDrifts(t: string)
    ensures var s, end := Snapshot(t, 1, Launched, true), Snapshot(t, 1, Acknowledged, false);
            && Routed(s) && Excess(s, 0) == 0
            && SwappedExec(s, [Release(t), Heartbeat("h", true, 0.0, 0), Remove(t)]) == Some(end)
            && Excess(end, 0) == 1
  {
    var s, end := Snapshot(t, 1, Launched, true), Snapshot(t, 1, Acknowledged, false);
    SwappedRun(t);
    assert UnreleasedOn(s, 0) == {t} && UnreleasedOn(end, 0) == {};
    SnapshotIsRouted(t, 1, Launched, true);
  }
}
