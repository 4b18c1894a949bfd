/**
 * One host's count when releases, failed-send compensations and heartbeats read the row in
 * one transaction and write an absolute value later, without a lock. Reservations hold the
 * row lock and stay atomic. How far the count strays from the slots held is decided by what
 * falls between the reads and the writes.
 */
module LostUpdates {
  import opened Models

  /** A heartbeat reads the row, too, before it commits: `loaded` is the count it found there. */
  datatype Task = Release(run: nat) | Beat(loaded: Option<nat>)

  /**
   * The value a task has read, and what happened until its write closes the window: how many
   * slots were given back and booked, and whether anyone else wrote the count.
   */
  datatype Window = Window(task: Task, seen: nat, given: nat, booked: nat, touched: bool, open: bool)

  /** `held` are the runs with a slot on the host; `reserved` counts the reservations ever made. */
  datatype State = State(count: nat, held: set<nat>, windows: seq<Window>, reserved: nat)

  datatype Event =
    | Reserve(run: nat)
    | ReadForRelease(run: nat)
    | ReadForHeartbeat(live: Option<nat>)
    | LoadRow(at: nat)
    | Write(at: nat)

  function Seen(w: Window, given: nat, booked: nat, wrote: bool): Window {
    w.(given := w.given + given, booked := w.booked + booked, touched := w.touched || wrote)
  }

  function Note(windows: seq<Window>, given: nat, booked: nat, wrote: bool): seq<Window> {
    seq(|windows|, i requires 0 <= i < |windows| => Seen(windows[i], given, booked, wrote))
  }

  /** The row already showed the count to be written: the commit leaves the column alone. */
  predicate Skips(w: Window) {
    w.task == Beat(Some(w.seen))
  }

  /** This run's release is under way. */
  predicate Releasing(s: State, run: nat) {
    exists i :: 0 <= i < |s.windows| && s.windows[i].open && s.windows[i].task == Release(run)
  }

  function Step(s: State, e: Event): Option<State> {
    match e
    case Reserve(r) =>
      if r in s.held then None
      else Some(State(s.count + 1, s.held + {r}, Note(s.windows, 0, 1, true), s.reserved + 1))
    case ReadForRelease(r) =>
      if r !in s.held || Releasing(s, r) then None
      else if s.count == 0 then
        // a row seen at zero is not written: the release is over
        Some(s.(held := s.held - {r}, windows := Note(s.windows, 1, 0, false)))
      else Some(s.(windows := s.windows + [Window(Release(r), s.count, 0, 0, false, true)]))
    case ReadForHeartbeat(live) =>
      // what Docker runs belongs to runs that hold a slot; without Docker, the row's own count
      if live.Some? && live.value > |s.held| then None else
        var seen := if live.Some? then live.value else s.count;
        Some(s.(windows := s.windows + [Window(Beat(None), seen, 0, 0, false, true)]))
    case LoadRow(i) =>
      if i >= |s.windows| || !s.windows[i].open || s.windows[i].task != Beat(None) then None
      else Some(s.(windows := s.windows[i := s.windows[i].(task := Beat(Some(s.count)))]))
    case Write(i) =>
      if i >= |s.windows| || !s.windows[i].open then None else
        var w := s.windows[i];
        var rest := s.windows[i := w.(open := false)];
        match w.task
        case Release(r) =>
          Some(s.(count := if w.seen > 0 then w.seen - 1 else 0, held := s.held - {r},
                  windows := Note(rest, 1, 0, true)))
        case Beat(loaded) =>
          if loaded.None? then None
          else if Skips(w) then Some(s.(windows := rest))
          else Some(s.(count := w.seen, windows := Note(rest, 0, 0, true)))
  }

  function Exec(s: State, es: seq<Event>): Option<State>
    decreases |es|
  {
    if es == [] then Some(s) else
      match Step(s, es[0]) case None => None case Some(t) => Exec(t, es[1..])
  }

  /** A release under way is of a held slot, and has seen a positive count. */
  ghost predicate OkAt(s: State, i: nat)
    requires i < |s.windows|
  {
    s.windows[i].open && s.windows[i].task.Release? ==> s.windows[i].task.run in s.held && s.windows[i].seen > 0
  }

  ghost predicate DistinctRuns(s: State, i: nat, j: nat)
    requires i < |s.windows| && j < |s.windows|
  {
    s.windows[i].open && s.windows[j].open && s.windows[i].task.Release? ==> s.windows[i].task != s.windows[j].task
  }

  ghost predicate Ok(s: State) {
    && (forall i :: 0 <= i < |s.windows| ==> OkAt(s, i))
    && (forall i, j :: 0 <= i < j < |s.windows| ==> DistinctRuns(s, i, j))
  }

  lemma StepKeepsOk(s: State, e: Event)
    requires Ok(s) && Step(s, e).Some?
    ensures Ok(Step(s, e).value)
  {
    var t := Step(s, e).value;
    forall i, j | 0 <= i < j < |t.windows| ensures DistinctRuns(t, i, j) {
      if j < |s.windows| { assert DistinctRuns(s, i, j); }
    }
    forall i | 0 <= i < |t.windows| ensures OkAt(t, i) {
      if i < |s.windows| { assert OkAt(s, i); }
      if e.Write? {
        if i < e.at { assert DistinctRuns(s, i, e.at); } else if e.at < i { assert DistinctRuns(s, e.at, i); }
      }
    }
  }

  /** The count less the slots held. */
  function Drift(s: State): int {
    s.count - |s.held|
  }

  // --- what each step does to the drift ---------------------------------------------------

  /** How stale the value is on which this step acts. */
  function Slip(s: State, e: Event): int {
    match e
    case Write(i) => if i < |s.windows| && !Skips(s.windows[i]) then s.windows[i].seen - s.count else 0
    case ReadForRelease(_) => if s.count == 0 then 1 else 0
    case _ => 0
  }

  /**
   * The drift moves by just that; so a write keeps it exactly when it has seen the current count,
   * or is a heartbeat's that leaves the count alone.
   */
  lemma DriftStep(s: State, e: Event)
    requires Ok(s) && Step(s, e).Some?
    ensures Drift(Step(s, e).value) == Drift(s) + Slip(s, e)
    ensures e.Write? ==>
      (Drift(Step(s, e).value) == Drift(s) <==> s.windows[e.at].seen == s.count || Skips(s.windows[e.at]))
  {
    if e.Write? { assert OkAt(s, e.at); }
    if e.Write? && s.windows[e.at].task.Release? { assert |s.held - {s.windows[e.at].task.run}| == |s.held| - 1; }
    if e.ReadForRelease? && s.count == 0 { assert |s.held - {e.run}| == |s.held| - 1; }
  }

  function Slips(s: State, es: seq<Event>): int
    decreases |es|
  {
    if es == [] || Step(s, es[0]).None? then 0 else Slip(s, es[0]) + Slips(Step(s, es[0]).value, es[1..])
  }

  /** Over a run the drift is the sum, over the writes, of the value seen less the count it replaces. */
  lemma {:induction false} DriftIsSumOfSlips(s: State, es: seq<Event>)
    requires Ok(s) && Exec(s, es).Some?
    ensures Ok(Exec(s, es).value) && Drift(Exec(s, es).value) == Drift(s) + Slips(s, es)
    decreases |es|
  {
    if es != [] {
      StepKeepsOk(s, es[0]);
      DriftStep(s, es[0]);
      DriftIsSumOfSlips(Step(s, es[0]).value, es[1..]);
    }
  }

  // --- runs without interference ------------------------------------------------------------

  /** Only releases are under way, and those whose window is untouched have seen the current count. */
  ghost predicate Fresh(s: State) {
    forall i :: 0 <= i < |s.windows| && s.windows[i].open ==>
      s.windows[i].task.Release? && (!s.windows[i].touched ==> s.windows[i].seen == s.count)
  }

  /** No heartbeat, and nobody else writes the count between a task's read and its write. */
  ghost predicate Undisturbed(s: State, es: seq<Event>)
    decreases |es|
  {
    es == [] || (
      && !es[0].ReadForHeartbeat?
      && (es[0].Write? && es[0].at < |s.windows| ==> !s.windows[es[0].at].touched)
      && (Step(s, es[0]).Some? ==> Undisturbed(Step(s, es[0]).value, es[1..])))
  }

  /** Then the count follows the slots held exactly. */
  lemma {:induction false} UndisturbedKeepsDrift(s: State, es: seq<Event>)
    requires Ok(s) && Fresh(s) && Drift(s) >= 0
    requires Exec(s, es).Some? && Undisturbed(s, es)
    ensures Drift(Exec(s, es).value) == Drift(s)
    decreases |es|
  {
    if es != [] {
      StepKeepsOk(s, es[0]);
      DriftStep(s, es[0]);
      UndisturbedStep(s, es[0]);
      UndisturbedKeepsDrift(Step(s, es[0]).value, es[1..]);
    }
  }

  lemma UndisturbedStep(s: State, e: Event)
    requires Ok(s) && Fresh(s) && Drift(s) >= 0 && Step(s, e).Some? && !e.ReadForHeartbeat?
    requires e.Write? ==> !s.windows[e.at].touched
    ensures Fresh(Step(s, e).value) && Slip(s, e) == 0
  {
    if e.ReadForRelease? { assert s.held != {}; }
  }

  // --- how far interference can take the count ------------------------------------------------

  /** The slots given back, or booked, between this write and the read it rests on. */
  function GivenInWindow(s: State, e: Event): nat {
    if e.Write? && e.at < |s.windows| then s.windows[e.at].given else 0
  }

  function BookedInWindow(s: State, e: Event): nat {
    if e.Write? && e.at < |s.windows| then s.windows[e.at].booked else 0
  }

  function Overlaps(s: State, es: seq<Event>): nat
    decreases |es|
  {
    if es == [] || Step(s, es[0]).None? then 0
    else GivenInWindow(s, es[0]) + Overlaps(Step(s, es[0]).value, es[1..])
  }

  function Overtakes(s: State, es: seq<Event>): nat
    decreases |es|
  {
    if es == [] || Step(s, es[0]).None? then 0
    else BookedInWindow(s, es[0]) + Overtakes(Step(s, es[0]).value, es[1..])
  }

  /** Neither the count nor a value waiting to be written is more than b too high. */
  ghost predicate Below(s: State, b: nat) {
    && Drift(s) <= b
    && forall i :: 0 <= i < |s.windows| && s.windows[i].open ==>
         s.windows[i].seen - |s.held| <= b + s.windows[i].given
  }

  lemma WriteKeepsBelow(s: State, at: nat, b: nat)
    requires Ok(s) && Below(s, b) && Step(s, Write(at)).Some?
    ensures Below(Step(s, Write(at)).value, b + s.windows[at].given)
  {
    assert OkAt(s, at);
    if s.windows[at].task.Release? { assert |s.held - {s.windows[at].task.run}| == |s.held| - 1; }
  }

  lemma StepKeepsBelow(s: State, e: Event, b: nat)
    requires Ok(s) && Below(s, b) && Step(s, e).Some?
    ensures Below(Step(s, e).value, b + GivenInWindow(s, e))
  {
    if e.Write? { WriteKeepsBelow(s, e.at, b); }
    if e.ReadForRelease? && s.count == 0 { assert |s.held - {e.run}| == |s.held| - 1; }
  }

  /**
   * In every interleaving, heartbeats included, the count exceeds the slots held by no more than
   * at the start plus the slots given back inside the windows of the writes made.
   */
  lemma {:induction false} OverlapsBoundDrift(s: State, es: seq<Event>, b: nat)
    requires Ok(s) && Below(s, b) && Exec(s, es).Some?
    ensures Drift(Exec(s, es).value) <= b + Overlaps(s, es)
    decreases |es|
  {
    if es != [] {
      StepKeepsOk(s, es[0]);
      StepKeepsBelow(s, es[0], b);
      OverlapsBoundDrift(Step(s, es[0]).value, es[1..], b + GivenInWindow(s, es[0]));
    }
  }

  /** Neither the count nor a value waiting to be written falls more than this below. */
  ghost predicate Above(s: State, l: int) {
    && Drift(s) >= l
    && forall i :: 0 <= i < |s.windows| && s.windows[i].open ==>
         s.windows[i].task.Release? && s.windows[i].seen - |s.held| >= l - s.windows[i].booked
  }

  lemma StepKeepsAbove(s: State, e: Event, l: int)
    requires Ok(s) && Above(s, l) && Step(s, e).Some? && !e.ReadForHeartbeat?
    ensures Above(Step(s, e).value, l - BookedInWindow(s, e))
  {
    if e.ReadForRelease? && s.count == 0 { assert |s.held - {e.run}| == |s.held| - 1; }
    if e.Write? && s.windows[e.at].task.Release? {
      assert OkAt(s, e.at);
      assert |s.held - {s.windows[e.at].task.run}| == |s.held| - 1;
    }
  }

  /** Without heartbeats it falls short by no more than the bookings inside those windows. */
  lemma {:induction false} OvertakesBoundDrift(s: State, es: seq<Event>, l: int)
    requires Ok(s) && Above(s, l) && Exec(s, es).Some?
    requires forall i :: 0 <= i < |es| ==> !es[i].ReadForHeartbeat?
    ensures Drift(Exec(s, es).value) >= l - Overtakes(s, es)
    decreases |es|
  {
    if es != [] {
      StepKeepsOk(s, es[0]);
      StepKeepsAbove(s, es[0], l);
      OvertakesBoundDrift(Step(s, es[0]).value, es[1..], l - BookedInWindow(s, es[0]));
    }
  }

  /** Neither the count nor any value waiting to be written exceeds the reservations ever made. */
  ghost predicate Capped(s: State) {
    && s.count <= s.reserved && |s.held| <= s.reserved
    && forall i :: 0 <= i < |s.windows| ==> s.windows[i].seen <= s.reserved
  }

  /** No step changes a value once read. */
  lemma SeenStays(s: State, e: Event, i: nat)
    requires Step(s, e).Some? && i < |s.windows|
    ensures i < |Step(s, e).value.windows| && Step(s, e).value.windows[i].seen == s.windows[i].seen
  {
  }

  /** A new one is at most the slots held, or the count. */
  lemma NewSeen(s: State, e: Event)
    requires Step(s, e).Some? && |Step(s, e).value.windows| > |s.windows|
    ensures var t := Step(s, e).value;
            && |t.windows| == |s.windows| + 1 && t.reserved == s.reserved
            && (t.windows[|s.windows|].seen <= s.count || t.windows[|s.windows|].seen <= |s.held|)
  {
  }

  /** Nor does any push the count past a value read, but for a reservation. */
  lemma CountMoves(s: State, e: Event)
    requires Step(s, e).Some?
    ensures var t := Step(s, e).value;
            && t.reserved == s.reserved + (if e.Reserve? then 1 else 0)
            && |t.held| <= |s.held| + (if e.Reserve? then 1 else 0)
            && t.count <= (if e.Reserve? then s.count + 1
                           else if e.Write? && s.windows[e.at].seen > s.count then s.windows[e.at].seen else s.count)
  {
    if e.ReadForRelease? && s.count == 0 { assert |s.held - {e.run}| == |s.held| - 1; }
    if e.Write? && s.windows[e.at].task.Release? {
      var gone := {s.windows[e.at].task.run};
      assert s.held == (s.held - gone) + (s.held * gone) && |s.held| == |s.held - gone| + |s.held * gone|;
    }
  }

  lemma StepKeepsCapped(s: State, e: Event)
    requires Capped(s) && Step(s, e).Some?
    ensures Capped(Step(s, e).value)
  {
    var t := Step(s, e).value;
    CountMoves(s, e);
    forall i | 0 <= i < |t.windows| ensures t.windows[i].seen <= t.reserved {
      if i < |s.windows| { SeenStays(s, e, i); } else { NewSeen(s, e); }
    }
  }

  /** Whatever overlaps, the count stays between zero and the reservations made. */
  lemma {:induction false} CountStaysCapped(s: State, es: seq<Event>)
    requires Capped(s) && Exec(s, es).Some?
    ensures Capped(Exec(s, es).value)
    decreases |es|
  {
    if es != [] {
      StepKeepsCapped(s, es[0]);
      CountStaysCapped(Step(s, es[0]).value, es[1..]);
    }
  }

  // --- both bounds are reached --------------------------------------------------------------------

  ghost predicate Chain(states: seq<State>, es: seq<Event>) {
    && |states| == |es| + 1
    && forall i :: 0 <= i < |es| ==> Step(states[i], es[i]) == Some(states[i + 1])
  }

  lemma {:induction false} ChainIsExec(states: seq<State>, es: seq<Event>)
    requires Chain(states, es)
    ensures Exec(states[0], es) == Some(states[|es|])
  {
    if es != [] {
      assert Step(states[0], es[0]) == Some(states[1]);
      forall i | 0 <= i < |es[1..]| ensures Step(states[1..][i], es[1..][i]) == Some(states[1..][i + 1]) {
        assert Step(states[i + 1], es[i + 1]) == Some(states[i + 2]);
      }
      ChainIsExec(states[1..], es[1..]);
    }
  }

  /** Two releases that overlap give back one slot: the count ends one too high. */
  lemma OverlappingReleasesLoseOne()
    ensures var s := State(2, {0, 1}, [], 2);
            var es := [ReadForRelease(0), ReadForRelease(1), Write(0), Write(1)];
            Ok(s) && Below(s, 0) && Exec(s, es).Some? && Drift(Exec(s, es).value) == 1
  {
    var u, v := Window(Release(0), 2, 0, 0, false, true), Window(Release(1), 2, 0, 0, false, true);
    var states := [State(2, {0, 1}, [], 2), State(2, {0, 1}, [u], 2), State(2, {0, 1}, [u, v], 2),
                   State(1, {1}, [Window(Release(0), 2, 1, 0, true, false),
                                  Window(Release(1), 2, 1, 0, true, true)], 2),
                   State(1, {}, [Window(Release(0), 2, 2, 0, true, false),
                                 Window(Release(1), 2, 2, 0, true, false)], 2)];
    assert {0, 1} - {0} == {1} && {1} - {1} == {};
    assert states[0].windows + [u] == [u] && [u] + [v] == [u, v];
    assert Note([u, v][0 := u.(open := false)], 1, 0, true) == states[3].windows;
    assert Note(states[3].windows[1 := states[3].windows[1].(open := false)], 1, 0, true) == states[4].windows;
    assert Step(states[0], ReadForRelease(0)) == Some(states[1]);
    assert Step(states[1], ReadForRelease(1)) == Some(states[2]);
    assert Step(states[2], Write(0)) == Some(states[3]);
    assert Step(states[3], Write(1)) == Some(states[4]);
    ChainIsExec(states, [ReadForRelease(0), ReadForRelease(1), Write(0), Write(1)]);
  }

  /** The heartbeat and the release of the next trace, which meet in the order given. */
  function BeatWindow(given: nat, touched: bool, loaded: Option<nat>, open: bool): Window {
    Window(Beat(loaded), 1, given, 0, touched, open)
  }

  function ReleaseWindow(given: nat, touched: bool, open: bool): Window {
    Window(Release(0), 1, given, 0, touched, open)
  }

  lemma ReleaseMeetsBeat()
    ensures Step(State(1, {0}, [], 1), ReadForHeartbeat(Some(1)))
            == Some(State(1, {0}, [BeatWindow(0, false, None, true)], 1))
    ensures Step(State(1, {0}, [BeatWindow(0, false, None, true)], 1), ReadForRelease(0))
            == Some(State(1, {0}, [BeatWindow(0, false, None, true), ReleaseWindow(0, false, true)], 1))
    ensures Step(State(1, {0}, [BeatWindow(0, false, None, true), ReleaseWindow(0, false, true)], 1), Write(1))
            == Some(State(0, {}, [BeatWindow(1, true, None, true), ReleaseWindow(1, true, false)], 1))
  {
    var beat, release := BeatWindow(0, false, None, true), ReleaseWindow(0, false, true);
    assert [] + [beat] == [beat] && [beat] + [release] == [beat, release] && {0} - {0} == {};
    assert Note([beat, release][1 := release.(open := false)], 1, 0, true)
           == [BeatWindow(1, true, None, true), ReleaseWindow(1, true, false)];
  }

  lemma BeatLoadsAndWrites()
    ensures Step(State(0, {}, [BeatWindow(1, true, None, true), ReleaseWindow(1, true, false)], 1), LoadRow(0))
            == Some(State(0, {}, [BeatWindow(1, true, Some(0), true), ReleaseWindow(1, true, false)], 1))
    ensures Step(State(0, {}, [BeatWindow(1, true, Some(0), true), ReleaseWindow(1, true, false)], 1), Write(0))
            == Some(State(1, {}, [BeatWindow(1, true, Some(0), false), ReleaseWindow(1, true, false)], 1))
  {
    var beat, loaded := BeatWindow(1, true, None, true), BeatWindow(1, true, Some(0), true);
    var over := ReleaseWindow(1, true, false);
    assert [beat, over][0 := loaded] == [loaded, over];
    assert Note([loaded, over][0 := loaded.(open := false)], 0, 0, true) == [loaded.(open := false), over];
  }

  /** A release inside a heartbeat's window is forgotten: the count ends one too high. */
  lemma ReleaseInsideHeartbeatIsLost()
    ensures var s := State(1, {0}, [], 1);
            var es := [ReadForHeartbeat(Some(1)), ReadForRelease(0), Write(1), LoadRow(0), Write(0)];
            Ok(s) && Below(s, 0) && Exec(s, es).Some? && Drift(Exec(s, es).value) == 1
  {
    var es := [ReadForHeartbeat(Some(1)), ReadForRelease(0), Write(1), LoadRow(0), Write(0)];
    var states := [State(1, {0}, [], 1), State(1, {0}, [BeatWindow(0, false, None, true)], 1),
                   State(1, {0}, [BeatWindow(0, false, None, true), ReleaseWindow(0, false, true)], 1),
                   State(0, {}, [BeatWindow(1, true, None, true), ReleaseWindow(1, true, false)], 1),
                   State(0, {}, [BeatWindow(1, true, Some(0), true), ReleaseWindow(1, true, false)], 1),
                   State(1, {}, [BeatWindow(1, true, Some(0), false), ReleaseWindow(1, true, false)], 1)];
    ReleaseMeetsBeat();
    BeatLoadsAndWrites();
    ChainIsExec(states, es);
  }

  /** Undisturbed, a heartbeat writes Docker's count, and without Docker leaves the count as it is. */
  lemma QuietHeartbeatWrites(s: State, live: Option<nat>)
    requires live.Some? ==> live.value <= |s.held|
    ensures var n := |s.windows|;
            var t := Exec(s, [ReadForHeartbeat(live), LoadRow(n), Write(n)]);
            && t.Some? && t.value.held == s.held && t.value.reserved == s.reserved
            && t.value.count == if live.Some? then live.value else s.count
  {
    var n := |s.windows|;
    var x := Step(s, ReadForHeartbeat(live)).value;
    var y := Step(x, LoadRow(n)).value;
    var z := Step(y, Write(n)).value;
    ChainIsExec([s, x, y, z], [ReadForHeartbeat(live), LoadRow(n), Write(n)]);
  }

  /** A reservation inside a release's window is forgotten: the count ends one too low. */
  lemma ReservationInsideReleaseIsLost()
    ensures var s := State(1, {0}, [], 1);
            var es := [ReadForRelease(0), Reserve(1), Write(0)];
            Ok(s) && Above(s, 0) && Exec(s, es).Some? && Drift(Exec(s, es).value) == -1
  {
    var states := [State(1, {0}, [], 1), State(1, {0}, [Window(Release(0), 1, 0, 0, false, true)], 1),
                   State(2, {0, 1}, [Window(Release(0), 1, 0, 1, true, true)], 2),
                   State(0, {1}, [Window(Release(0), 1, 1, 1, true, false)], 2)];
    assert {0} + {1} == {0, 1} && {0, 1} - {0} == {1};
    assert states[0].windows + states[1].windows == states[1].windows;
    assert Note(states[1].windows, 0, 1, true) == states[2].windows;
    assert Note(states[2].windows[0 := states[2].windows[0].(open := false)], 1, 0, true) == states[3].windows;
    assert Step(states[0], ReadForRelease(0)) == Some(states[1]);
    assert Step(states[1], Reserve(1)) == Some(states[2]);
    assert Step(states[2], Write(0)) == Some(states[3]);
    ChainIsExec(states, [ReadForRelease(0), Reserve(1), Write(0)]);
  }
}
