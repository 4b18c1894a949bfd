/**
 * How far a host's count can fall short of the slots held there, and so how far dispatch can
 * overbook the host.
 */
module Overbooking {
  import opened Models
  import opened Scheduler
  import opened Capacity
  import Tags

  /** How far the count on host k falls short of the slots held there. */
  function Shortfall(s: State, k: nat): nat {
    if k < |s.rows| && |UnreleasedOn(s, k)| > s.rows[k].active
    then |UnreleasedOn(s, k)| - s.rows[k].active else 0
  }

  function Min(a: nat, b: nat): nat {
    if a <= b then a else b
  }

  /**
   * What a step adds to the shortfall on k. A heartbeat: the held slots it no longer counts. A
   * compensation for a commit that failed: one, while the count is positive and not too high. One
   * that writes the count its session remembers: the held slots, its own apart, that this no longer
   * counts. A run delivered again after giving back its slot: that slot, unless the count is too
   * high.
   */
  function Dip(s: State, a: Action, k: nat): nat {
    if k >= |s.rows| then 0 else
      var count, held := s.rows[k].active, UnreleasedOn(s, k);
      var counted := Min(count, |held|);
      match a
      case Heartbeat(id, up, _, _) =>
        if RowOf(s, id) == k && up && counted > |LiveOn(s, k)| then counted - |LiveOn(s, k)| else 0
      case Undo(t, cached) =>
        if t !in s.jobs || s.jobs[t].slot != k then 0
        else if !cached then if t !in held && 0 < count <= |held| then 1 else 0
        else if counted > s.jobs[t].before + 1 then counted - (s.jobs[t].before + 1) else 0
      case Redeliver(t) =>
        if t in s.jobs && s.jobs[t].slot == k && s.jobs[t].stage.Released? && count <= |held| then 1 else 0
      case _ => 0
  }

  lemma ShortfallFromMoves(s: State, a: Action, k: nat, shortfall: nat)
    requires k < |s.rows| && MovesTogether(s, a, k)
    requires a.Undo? && a.cached ==> a.test in s.jobs && (s.jobs[a.test].slot == k ==> a.test in UnreleasedOn(s, k))
    requires shortfall == if |HoldersAfter(s, a, k)| > CountAfter(s, a, k)
                          then |HoldersAfter(s, a, k)| - CountAfter(s, a, k) else 0
    ensures shortfall <= Shortfall(s, k) + Dip(s, a, k)
    ensures Dip(s, a, k) > 0 ==> shortfall == Shortfall(s, k) + Dip(s, a, k)
  {
  }

  /** Exactly these steps raise the shortfall on a host, and by exactly this much. */
  lemma ShortfallGrowsExactly(s: State, a: Action, k: nat)
    requires Routed(s) && Step(s, a).Some?
    ensures Shortfall(Step(s, a).value, k) > Shortfall(s, k) <==> Dip(s, a, k) > 0
    ensures Dip(s, a, k) > 0 ==> Shortfall(Step(s, a).value, k) == Shortfall(s, k) + Dip(s, a, k)
    ensures Shortfall(Step(s, a).value, k) <= Shortfall(s, k) + Dip(s, a, k)
  {
    HoldersStep(s, a, k);
    if k < |s.rows| {
      CountStep(s, a, k);
      StepArithmetic(s, a, k);
      ShortfallFromMoves(s, a, k, Shortfall(Step(s, a).value, k));
    } else {
      UnregisteredStaysEmpty(s, a, k);
    }
  }

  /** A step onto a host that was not registered leaves it without holders. */
  lemma UnregisteredStaysEmpty(s: State, a: Action, k: nat)
    requires Routed(s) && Step(s, a).Some? && k >= |s.rows|
    ensures UnreleasedOn(Step(s, a).value, k) == {}
  {
    UnregisteredIsEmpty(s, k);
    HoldersStep(s, a, k);
    if a.Redeliver? { assert JobRouted(s.rows, s.jobs[a.test]); }
  }

  function Dips(s: State, acts: seq<Action>, k: nat): nat
    decreases |acts|
  {
    if acts == [] || Step(s, acts[0]).None? then 0
    else Dip(s, acts[0], k) + Dips(Step(s, acts[0]).value, acts[1..], k)
  }

  /** In every run, the slots held on a host exceed its count by at most this. */
  lemma {:induction false} ShortfallWithinDips(s: State, acts: seq<Action>, k: nat)
    requires Routed(s) && Exec(s, acts).Some?
    ensures Shortfall(Exec(s, acts).value, k) <= Shortfall(s, k) + Dips(s, acts, k)
    decreases |acts|
  {
    if acts != [] {
      ShortfallGrowsExactly(s, acts[0], k);
      StepKeepsRouted(s, acts[0]);
      ShortfallWithinDips(Step(s, acts[0]).value, acts[1..], k);
    }
  }

  /**
   * So dispatch overbooks a host, whatever happened before, by at most that much: when it books
   * on k, no more slots are held there than the cap, the shortfall at the start and the dips.
   */
  lemma BookedWithinCap(s: State, acts: seq<Action>, b: Bundle, k: nat)
    requires Routed(s) && Exec(s, acts).Some? && Step(Exec(s, acts).value, Book(b)).Some?
    requires BestIndex(Exec(s, acts).value.rows, b) == Some(k)
    ensures var t := Step(Exec(s, acts).value, Book(b)).value;
            && k < |t.rows|
            && |UnreleasedOn(t, k)| <= t.rows[k].cap + Shortfall(s, k) + Dips(s, acts, k)
  {
    var u := Exec(s, acts).value;
    ShortfallWithinDips(s, acts, k);
    RoutedStays(s, acts);
    HoldersStep(u, Book(b), k);
    CountStep(u, Book(b), k);
    StepArithmetic(u, Book(b), k);
  }

  lemma {:induction false} RoutedStays(s: State, acts: seq<Action>)
    requires Routed(s) && Exec(s, acts).Some?
    ensures Routed(Exec(s, acts).value)
    decreases |acts|
  {
    if acts != [] {
      StepKeepsRouted(s, acts[0]);
      RoutedStays(Step(s, acts[0]).value, acts[1..]);
    }
  }

  // --- overbooking happens ---------------------------------------------------------------------

  /** One host with this cap and count, and these runs on their way there. */
  function Slots(cap: nat, count: nat, jobs: map<string, Job>): State {
    State([Host("h", true, count, cap, 0.0, "", false, Some(Aware(0)))], jobs, map[])
  }

  /** A run of that host, booked when its count was `before`. */
  function Bound(before: nat, stage: Stage): Job {
    Job(0, "queue_h", before, if stage.Released? then Some(0) else None, stage)
  }

  lemma BookStep(cap: nat, count: nat, b: Bundle, jobs: map<string, Job>, ok: bool)
    requires b.requiredTags == [] && !b.requiresEmulation && b.testId !in jobs && count < cap
    ensures Step(Slots(cap, count, jobs), if ok then Book(b) else BookFails(b))
            == Some(Slots(cap, if ok then count + 1 else count,
                          jobs[b.testId := Bound(count, if ok then Sending else Undoing(false))]))
  {
    var s, a := Slots(cap, count, jobs), if ok then Book(b) else BookFails(b);
    assert s.rows[..0] == [] && BestIndex(s.rows, b) == Some(0);
    assert Tags.StripLeft("h") == "h" && Tags.StripRight("h") == "h" && "queue_" + "h" == "queue_h";
    assert s.rows[0].hostId == "h" && Step(s, a).value.rows == Slots(cap, if ok then count + 1 else count, jobs).rows;
  }

  lemma SlotsRouted(cap: nat, count: nat, jobs: map<string, Job>)
    requires forall t :: t in jobs ==> exists before, stage :: jobs[t] == Bound(before, stage)
    requires forall t :: t in jobs ==> jobs[t].stage !in {Taken, Launched, Removed}
    ensures Routed(Slots(cap, count, jobs))
  {
    assert Tags.StripLeft("h") == "h" && Tags.StripRight("h") == "h" && "queue_" + "h" == "queue_h";
    assert Slots(cap, count, jobs).rows[0].hostId == "h";
    assert QueueNameFor("h") == Some("queue_h");
  }

  lemma BeatStep(jobs: map<string, Job>)
    ensures Step(Slots(1, 1, jobs), Heartbeat("h", true, 0.0, 0)) == Some(Slots(1, 0, jobs))
  {
    var s := Slots(1, 1, jobs);
    assert LiveOn(s, 0) == {} && s.rows[0].hostId == "h" && |s.rows| == 1;
    assert Step(s, Heartbeat("h", true, 0.0, 0)).value.rows == Slots(1, 0, jobs).rows;
  }

  /** A heartbeat before the first run's container is up lets a second one be booked on its slot. */
  lemma HeartbeatOverbooks(b: Bundle, c: Bundle)
    requires b.requiredTags == c.requiredTags == [] && !b.requiresEmulation && !c.requiresEmulation
    requires b.testId != c.testId
    ensures var s := Slots(1, 0, map[]);
            var end := Exec(s, [Book(b), Heartbeat("h", true, 0.0, 0), Book(c)]);
            && Routed(s) && Shortfall(s, 0) == 0 && end.Some?
            && |end.value.rows| == 1 && end.value.rows[0].cap == 1 && |UnreleasedOn(end.value, 0)| == 2
  {
    var s, held := Slots(1, 0, map[]), map[b.testId := Bound(0, Sending)];
    var both := map[b.testId := Bound(0, Sending), c.testId := Bound(0, Sending)];
    BookStep(1, 0, b, map[], true);
    BeatStep(held);
    BookStep(1, 0, c, held, true);
    SlotsRouted(1, 0, map[]);
    assert map[][b.testId := Bound(0, Sending)] == held && held[c.testId := Bound(0, Sending)] == both;
    ThreeSteps(s, Book(b), Slots(1, 1, held), Heartbeat("h", true, 0.0, 0), Slots(1, 0, held),
               Book(c), Slots(1, 1, both));
    assert UnreleasedOn(Slots(1, 1, both), 0) == {b.testId, c.testId};
  }

  lemma ReleasedAtFirst(t: string)
    ensures var s := Slots(1, 0, map[t := Bound(0, Released)]); Routed(s) && Shortfall(s, 0) == 0
  {
    SlotsRouted(1, 0, map[t := Bound(0, Released)]);
    assert UnreleasedOn(Slots(1, 0, map[t := Bound(0, Released)]), 0) == {};
  }

  lemma RedeliverStep(t: string)
    ensures Step(Slots(1, 0, map[t := Bound(0, Released)]), Redeliver(t))
            == Some(Slots(1, 0, map[t := Bound(0, Released).(stage := Queued)]))
  {
    var s := Slots(1, 0, map[t := Bound(0, Released)]);
    assert Step(s, Redeliver(t)).value.jobs == map[t := Bound(0, Released).(stage := Queued)];
  }

  /** A message delivered again after its slot was given back runs on a slot nobody has booked for it. */
  lemma RedeliveryOverbooks(t: string, c: Bundle)
    requires c.requiredTags == [] && !c.requiresEmulation && c.testId != t
    ensures var s := Slots(1, 0, map[t := Bound(0, Released)]);
            var end := Exec(s, [Redeliver(t), Book(c)]);
            && Routed(s) && Shortfall(s, 0) == 0
            && end == Some(Slots(1, 1, map[t := Bound(0, Released).(stage := Queued), c.testId := Bound(0, Sending)]))
            && UnreleasedOn(end.value, 0) == {t, c.testId}
  {
    var s := Slots(1, 0, map[t := Bound(0, Released)]);
    var again := Bound(0, Released).(stage := Queued);
    var held, both := map[t := again], map[t := again, c.testId := Bound(0, Sending)];
    ReleasedAtFirst(t);
    RedeliverStep(t);
    BookStep(1, 0, c, held, true);
    assert held[c.testId := Bound(0, Sending)] == both;
    TwoSteps(s, Redeliver(t), Slots(1, 0, held), Book(c), Slots(1, 1, both));
    assert UnreleasedOn(Slots(1, 1, both), 0) == {t, c.testId};
  }

  lemma QueuedAtFirst(t: string)
    ensures var s := Slots(2, 1, map[t := Bound(0, Queued)]); Routed(s) && Shortfall(s, 0) == 0
  {
    SlotsRouted(2, 1, map[t := Bound(0, Queued)]);
    assert UnreleasedOn(Slots(2, 1, map[t := Bound(0, Queued)]), 0) == {t};
  }

  lemma FailedCommitSteps(t: string, b: Bundle)
    requires b.requiredTags == [] && !b.requiresEmulation && b.testId != t
    ensures var jobs := map[t := Bound(0, Queued)];
            var failed := jobs[b.testId := Bound(1, Undoing(false))];
            && Step(Slots(2, 1, jobs), BookFails(b)) == Some(Slots(2, 1, failed))
            && Step(Slots(2, 1, failed), Undo(b.testId, false))
               == Some(Slots(2, 0, jobs[b.testId := Bound(1, Abandoned)]))
  {
    var jobs := map[t := Bound(0, Queued)];
    BookStep(2, 1, b, jobs, false);
    var x := Slots(2, 1, jobs[b.testId := Bound(1, Undoing(false))]);
    assert Step(x, Undo(b.testId, false)).value.jobs == jobs[b.testId := Bound(1, Abandoned)];
    assert Step(x, Undo(b.testId, false)).value.rows == Slots(2, 0, jobs).rows;
  }

  lemma OneTooFew(t: string, b: Bundle)
    requires b.testId != t
    ensures Shortfall(Slots(2, 0, map[t := Bound(0, Queued)][b.testId := Bound(1, Abandoned)]), 0) == 1
  {
    assert UnreleasedOn(Slots(2, 0, map[t := Bound(0, Queued)][b.testId := Bound(1, Abandoned)]), 0) == {t};
  }

  /** A commit that fails is compensated for all the same: the count falls below the slots held. */
  lemma FailedCommitUndercounts(t: string, b: Bundle)
    requires b.requiredTags == [] && !b.requiresEmulation && b.testId != t
    ensures var jobs := map[t := Bound(0, Queued)];
            var s, end := Slots(2, 1, jobs), Slots(2, 0, jobs[b.testId := Bound(1, Abandoned)]);
            && Routed(s) && Shortfall(s, 0) == 0
            && Exec(s, [BookFails(b), Undo(b.testId, false)]) == Some(end) && Shortfall(end, 0) == 1
  {
    var jobs := map[t := Bound(0, Queued)];
    QueuedAtFirst(t);
    FailedCommitSteps(t, b);
    TwoSteps(Slots(2, 1, jobs), BookFails(b), Slots(2, 1, jobs[b.testId := Bound(1, Undoing(false))]),
             Undo(b.testId, false), Slots(2, 0, jobs[b.testId := Bound(1, Abandoned)]));
    OneTooFew(t, b);
  }

  /** Two runs booked one after the other, the first of them at this stage. */
  function Pair(b: Bundle, c: Bundle, stage: Stage): map<string, Job> {
    map[b.testId := Bound(0, stage), c.testId := Bound(1, Sending)]
  }

  lemma FirstSendFails(b: Bundle, c: Bundle)
    requires b.testId != c.testId
    ensures Step(Slots(2, 2, Pair(b, c, Sending)), SendFails(b.testId)) == Some(Slots(2, 2, Pair(b, c, Undoing(true))))
  {
    var x := Slots(2, 2, Pair(b, c, Sending));
    assert Step(x, SendFails(b.testId)).value.jobs == Pair(b, c, Undoing(true));
  }

  lemma FirstIsUndone(b: Bundle, c: Bundle)
    requires b.testId != c.testId
    ensures Step(Slots(2, 2, Pair(b, c, Undoing(true))), Undo(b.testId, true))
            == Some(Slots(2, 0, Pair(b, c, Abandoned)))
  {
    var y, z := Slots(2, 2, Pair(b, c, Undoing(true))), Slots(2, 0, Pair(b, c, Abandoned));
    assert Step(y, Undo(b.testId, true)).value.jobs == z.jobs && Step(y, Undo(b.testId, true)).value.rows == z.rows;
  }

  lemma BothBooked(b: Bundle, c: Bundle)
    requires b.requiredTags == c.requiredTags == [] && !b.requiresEmulation && !c.requiresEmulation
    requires b.testId != c.testId
    ensures Exec(Slots(2, 0, map[]), [Book(b), Book(c)]) == Some(Slots(2, 2, Pair(b, c, Sending)))
  {
    var one := map[b.testId := Bound(0, Sending)];
    BookStep(2, 0, b, map[], true);
    BookStep(2, 1, c, one, true);
    assert map[][b.testId := Bound(0, Sending)] == one && one[c.testId := Bound(1, Sending)] == Pair(b, c, Sending);
    TwoSteps(Slots(2, 0, map[]), Book(b), Slots(2, 1, one), Book(c), Slots(2, 2, Pair(b, c, Sending)));
  }

  lemma PairCounts(b: Bundle, c: Bundle)
    requires b.testId != c.testId
    ensures Routed(Slots(2, 0, map[])) && Shortfall(Slots(2, 0, map[]), 0) == 0
    ensures Shortfall(Slots(2, 0, Pair(b, c, Abandoned)), 0) == 1
  {
    SlotsRouted(2, 0, map[]);
    assert UnreleasedOn(Slots(2, 0, map[]), 0) == {};
    assert UnreleasedOn(Slots(2, 0, Pair(b, c, Abandoned)), 0) == {c.testId};
  }

  /** A compensation from a stale row forgets a booking made in between. */
  lemma StaleUndoUndercounts(b: Bundle, c: Bundle)
    requires b.requiredTags == c.requiredTags == [] && !b.requiresEmulation && !c.requiresEmulation
    requires b.testId != c.testId
    ensures var s, both := Slots(2, 0, map[]), Slots(2, 2, Pair(b, c, Sending));
            var end := Slots(2, 0, Pair(b, c, Abandoned));
            && Routed(s) && Shortfall(s, 0) == 0 && Exec(s, [Book(b), Book(c)]) == Some(both)
            && Exec(both, [SendFails(b.testId), Undo(b.testId, true)]) == Some(end) && Shortfall(end, 0) == 1
  {
    BothBooked(b, c);
    FirstSendFails(b, c);
    FirstIsUndone(b, c);
    TwoSteps(Slots(2, 2, Pair(b, c, Sending)), SendFails(b.testId), Slots(2, 2, Pair(b, c, Undoing(true))),
             Undo(b.testId, true), Slots(2, 0, Pair(b, c, Abandoned)));
    PairCounts(b, c);
  }
}
