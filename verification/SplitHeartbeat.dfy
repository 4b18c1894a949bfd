/**
 * The heartbeat as it really runs: a count is read first, then the row, and then the row is
 * committed, with other tasks' transactions in between. The count is Docker's, or the row's own
 * when Docker cannot be asked. A commit writes only the columns whose new value differs from the
 * one read. At most one heartbeat per host is in flight.
 */
module SplitHeartbeat {
  import opened Models
  import opened Scheduler
  import opened Capacity
  import opened DriftTraces
  import Worker

  /** The row as the heartbeat's session read it, and what dispatches not undone have added since. */
  datatype Loaded = Loaded(row: Host, growth: nat)

  /**
   * The count read, where from, how many slots of the host were given up since, and the row once
   * it has been read.
   */
  datatype Flight = Flight(value: nat, docker: bool, departures: nat, loaded: Option<Loaded>)

  /**
   * What may have driven a host's count up since the last heartbeat written with a Docker count:
   * the slots given up inside the flight of each heartbeat written since, that one included,
   * and what dispatches added that were not properly undone (with the excess there was at first).
   */
  datatype Ledger = Ledger(other: nat, windows: seq<nat>)

  /** A host's heartbeat task: what it has in flight, and its ledger. */
  datatype Pulse = Pulse(flight: Option<Flight>, ledger: Ledger)

  /** `pulses` follow the rows of the hosts that were registered at the start. */
  datatype SplitState = SplitState(base: State, pulses: seq<Pulse>)

  datatype Event =
    | Task(action: Action)
    | Read(host: nat, docker: bool)
    | Load(host: nat)
    | Write(host: nat, cpu: NonNegative, now: int)

  /** The slots on host k that a step of another task gives up. */
  function Gone(s: State, a: Action, k: nat): nat {
    if EndsHold(a) && a.test in UnreleasedOn(s, k) then 1 else 0
  }

  /** How such a step shows in the flight of host k's heartbeat. */
  function Aged(s: State, a: Action, k: nat, f: Flight): Flight {
    var loaded := if f.loaded.None? then None
                  else Some(f.loaded.value.(growth := f.loaded.value.growth + Growth(s, a, k)));
    f.(departures := f.departures + Gone(s, a, k), loaded := loaded)
  }

  /** And in its pulse. */
  function Noted(s: State, a: Action, k: nat, p: Pulse): Pulse {
    Pulse(if p.flight.None? then None else Some(Aged(s, a, k, p.flight.value)),
          p.ledger.(other := p.ledger.other + Growth(s, a, k)))
  }

  /** The row already showed the count to be written, so that the commit leaves the column alone. */
  predicate Skips(f: Flight) {
    f.loaded.Some? && f.loaded.value.row.active == f.value
  }

  /** A column after the commit: left alone if it was read with the value to be written. */
  function Column<T(==)>(now: T, read: T, value: T): T {
    if read == value then now else value
  }

  /** The row after the commit, from the row now and the row as it was read. */
  function Committed(h: Host, read: Host, count: nat, cpu: NonNegative, now: int): Host {
    h.(online := Column(h.online, read.online, true),
       active := Column(h.active, read.active, count),
       cpu := Column(h.cpu, read.cpu, cpu),
       heartbeat := Column(h.heartbeat, read.heartbeat, Some(Aware(now))))
  }

  /** Nothing in between, the commit leaves the reconciled row. */
  lemma CommittedIsReconciled(h: Host, count: nat, cpu: NonNegative, now: int)
    ensures Committed(h, h, count, cpu, now) == Worker.Reconcile(h, count, cpu, now)
  {
  }

  /** What has driven the count up past the value read, if the commit leaves it alone. */
  function Late(f: Flight): nat {
    if Skips(f) then f.loaded.value.growth else 0
  }

  /** The ledger once this flight has been committed. */
  function Entered(l: Ledger, f: Flight): Ledger {
    if f.docker then Ledger(Late(f), [f.departures]) else l.(windows := l.windows + [f.departures])
  }

  function TaskStep(x: SplitState, a: Action): Option<SplitState> {
    if a.Heartbeat? then None else
      match Capacity.Step(x.base, a)
      case None => None
      case Some(s) =>
        Some(SplitState(s, seq(|x.pulses|, k requires 0 <= k < |x.pulses| => Noted(x.base, a, k, x.pulses[k]))))
  }

  function Step(x: SplitState, e: Event): Option<SplitState> {
    match e
    case Task(a) => TaskStep(x, a)
    case Read(k, docker) =>
      if k >= |x.pulses| || k >= |x.base.rows| || x.pulses[k].flight.Some? then None else
        var value := if docker then |LiveOn(x.base, k)| else x.base.rows[k].active;
        Some(x.(pulses := x.pulses[k := x.pulses[k].(flight := Some(Flight(value, docker, 0, None)))]))
    case Load(k) =>
      if k >= |x.pulses| || k >= |x.base.rows| || x.pulses[k].flight.None? then None else
        var f := x.pulses[k].flight.value;
        if f.loaded.Some? then None else
          Some(x.(pulses := x.pulses[k := x.pulses[k].(flight := Some(f.(loaded := Some(Loaded(x.base.rows[k], 0)))))]))
    case Write(k, cpu, now) =>
      if k >= |x.pulses| || k >= |x.base.rows| || x.pulses[k].flight.None? then None else
        var f := x.pulses[k].flight.value;
        if f.loaded.None? then None else
        var row := Committed(x.base.rows[k], f.loaded.value.row, f.value, cpu, now);
        Some(SplitState(x.base.(rows := x.base.rows[k := row]),
                        x.pulses[k := Pulse(None, Entered(x.pulses[k].ledger, f))]))
  }

  function Exec(x: SplitState, es: seq<Event>): Option<SplitState>
    decreases |es|
  {
    if es == [] then Some(x) else
      match Step(x, es[0]) case None => None case Some(y) => Exec(y, es[1..])
  }

  function Allowance(l: Ledger): nat {
    l.other + Sum(l.windows)
  }

  /**
   * The bound on a host's excess, and what makes it inductive: a value read is off by at most the
   * slots given up since; and where the row already showed that value, so was the row.
   */
  ghost predicate PulseOk(p: Pulse, excess: nat, held: nat) {
    && excess <= Allowance(p.ledger)
    && (p.flight.Some? ==>
          var f := p.flight.value;
          && f.value <= held + f.departures + (if f.docker then 0 else Allowance(p.ledger))
          && (f.loaded.Some? ==> f.loaded.value.growth <= p.ledger.other)
          && (f.docker && Skips(f) ==> excess <= f.departures + f.loaded.value.growth))
  }

  ghost predicate Bounded(x: SplitState, k: nat) {
    && Routed(x.base) && k < |x.base.rows| && k < |x.pulses|
    && PulseOk(x.pulses[k], Excess(x.base, k), |UnreleasedOn(x.base, k)|)
  }

  /** No step makes more holders disappear than it notes. */
  lemma HoldersNoted(s: State, a: Action, k: nat)
    requires Routed(s) && Capacity.Step(s, a).Some? && k < |s.rows|
    ensures |UnreleasedOn(Capacity.Step(s, a).value, k)|
            >= |UnreleasedOn(s, k)| - Gone(s, a, k)
  {
    HoldersStep(s, a, k);
    StepArithmetic(s, a, k);
    if a.Release? && a.test !in UnreleasedOn(s, k) { assert HoldersAfter(s, a, k) == UnreleasedOn(s, k); }
  }

  lemma NotedIsOk(s: State, a: Action, k: nat, p: Pulse, excess: nat, held: nat, excess': nat, held': nat)
    requires PulseOk(p, excess, held)
    requires excess' <= excess + Growth(s, a, k) && held' + Gone(s, a, k) >= held
    ensures PulseOk(Noted(s, a, k, p), excess', held')
  {
  }

  lemma TaskKeepsBound(x: SplitState, a: Action, k: nat)
    requires Bounded(x, k) && TaskStep(x, a).Some?
    ensures Bounded(TaskStep(x, a).value, k)
  {
    var s := Capacity.Step(x.base, a).value;
    StepKeepsRouted(x.base, a);
    RowsKeepIds(x.base, a);
    ExcessGrowsExactly(x.base, a, k);
    HoldersNoted(x.base, a, k);
    var y := TaskStep(x, a).value;
    assert y.pulses[k] == Noted(x.base, a, k, x.pulses[k]);
    NotedIsOk(x.base, a, k, x.pulses[k], Excess(x.base, k), |UnreleasedOn(x.base, k)|,
              Excess(s, k), |UnreleasedOn(s, k)|);
  }

  /** Rewriting a row, ids kept, leaves the routing as it was. */
  lemma RowWriteKeepsRouted(s: State, t: State)
    requires Routed(s) && t.jobs == s.jobs && t.containers == s.containers
    requires SameIds(s.rows, t.rows) && UniqueIds(t.rows)
    ensures Routed(t)
  {
    forall x | x in t.jobs ensures JobRouted(t.rows, t.jobs[x]) { RoutedWithIds(s.rows, t.rows, s.jobs[x]); }
    forall x | x in t.containers ensures ContainerOwned(t.jobs, x, t.containers[x]) {
      assert ContainerOwned(s.jobs, x, s.containers[x]);
    }
  }

  lemma ReadKeepsBound(x: SplitState, host: nat, docker: bool, k: nat)
    requires Bounded(x, k) && Step(x, Read(host, docker)).Some?
    ensures Bounded(Step(x, Read(host, docker)).value, k)
  {
    LiveWithinUnreleased(x.base, k);
  }

  lemma LoadKeepsBound(x: SplitState, host: nat, k: nat)
    requires Bounded(x, k) && Step(x, Load(host)).Some?
    ensures Bounded(Step(x, Load(host)).value, k)
  {
  }

  lemma WriteKeepsRouted(x: SplitState, host: nat, cpu: NonNegative, now: int)
    requires Routed(x.base) && Step(x, Write(host, cpu, now)).Some?
    ensures var y := Step(x, Write(host, cpu, now)).value;
            && Routed(y.base) && y.base.jobs == x.base.jobs
            && y.base.rows == x.base.rows[host := y.base.rows[host]]
            && y.base.rows[host].active
               == if Skips(x.pulses[host].flight.value) then x.base.rows[host].active
                  else x.pulses[host].flight.value.value
  {
    RowWriteKeepsRouted(x.base, Step(x, Write(host, cpu, now)).value.base);
  }

  lemma EnteredAllowance(l: Ledger, f: Flight)
    ensures Allowance(Entered(l, f)) == f.departures + if f.docker then Late(f) else Allowance(l)
  {
    assert (l.windows + [f.departures])[..|l.windows|] == l.windows;
    assert [f.departures][..0] == [] && Sum([f.departures]) == f.departures;
  }

  lemma WriteKeepsBound(x: SplitState, host: nat, cpu: NonNegative, now: int, k: nat)
    requires Bounded(x, k) && Step(x, Write(host, cpu, now)).Some?
    ensures Bounded(Step(x, Write(host, cpu, now)).value, k)
  {
    WriteKeepsRouted(x, host, cpu, now);
    JobsUnchanged(x.base, Step(x, Write(host, cpu, now)).value.base, k);
    EnteredAllowance(x.pulses[host].ledger, x.pulses[host].flight.value);
  }

  /**
   * The commit raises the excess exactly when it writes a count above both the row's and the slots
   * held; one that leaves the column alone keeps the excess, whatever it was.
   */
  lemma WriteRaisesExactly(x: SplitState, k: nat, cpu: NonNegative, now: int)
    requires Routed(x.base) && Step(x, Write(k, cpu, now)).Some?
    ensures var y, f := Step(x, Write(k, cpu, now)).value, x.pulses[k].flight.value;
            && (Excess(y.base, k) > Excess(x.base, k)
                <==> !Skips(f) && f.value > x.base.rows[k].active && f.value > |UnreleasedOn(x.base, k)|)
            && (Skips(f) ==> Excess(y.base, k) == Excess(x.base, k))
            && (!Skips(f) && f.value >= |UnreleasedOn(x.base, k)| ==>
                  Excess(y.base, k) == f.value - |UnreleasedOn(x.base, k)|)
  {
    WriteKeepsRouted(x, k, cpu, now);
    JobsUnchanged(x.base, Step(x, Write(k, cpu, now)).value.base, k);
  }

  lemma StepKeepsBound(x: SplitState, e: Event, k: nat)
    requires Bounded(x, k) && Step(x, e).Some?
    ensures Bounded(Step(x, e).value, k)
  {
    match e
    case Task(a) => TaskKeepsBound(x, a, k);
    case Read(host, docker) => ReadKeepsBound(x, host, docker, k);
    case Load(host) => LoadKeepsBound(x, host, k);
    case Write(host, cpu, now) => WriteKeepsBound(x, host, cpu, now, k);
  }

  /** Every raising dispatch among the events was undone, from a fresh read of the row. */
  predicate AllCompensated(es: seq<Event>) {
    forall i :: 0 <= i < |es| && es[i].Task? ==>
      !es[i].action.GiveUp? && !(es[i].action.Undo? && es[i].action.cached)
  }

  lemma OtherStep(x: SplitState, e: Event, k: nat)
    requires Bounded(x, k) && Step(x, e).Some?
    ensures |Step(x, e).value.pulses| == |x.pulses|
    ensures AllCompensated([e]) ==> Step(x, e).value.pulses[k].ledger.other <= x.pulses[k].ledger.other
    ensures (e.Write? && e.host == k) || Step(x, e).value.pulses[k].ledger.windows == x.pulses[k].ledger.windows
  {
    if e.Task? { assert [e][0].Task?; }
  }

  lemma {:induction false} OtherStays(x: SplitState, es: seq<Event>, k: nat)
    requires Bounded(x, k) && Exec(x, es).Some? && AllCompensated(es)
    ensures k < |Exec(x, es).value.pulses|
    ensures Exec(x, es).value.pulses[k].ledger.other <= x.pulses[k].ledger.other
    decreases |es|
  {
    if es != [] {
      assert [es[0]][0] == es[0];
      OtherStep(x, es[0], k);
      StepKeepsBound(x, es[0], k);
      OtherStays(Step(x, es[0]).value, es[1..], k);
    }
  }

  lemma {:induction false} BoundedStays(x: SplitState, es: seq<Event>, k: nat)
    requires Bounded(x, k) && Exec(x, es).Some?
    ensures Bounded(Exec(x, es).value, k)
    decreases |es|
  {
    if es != [] {
      StepKeepsBound(x, es[0], k);
      BoundedStays(Step(x, es[0]).value, es[1..], k);
    }
  }

  /**
   * In every interleaving, a host's count stays within the slots held there plus those given
   * up inside the flights of the heartbeats written since, and including, the last one that
   * reached Docker; beyond that only dispatches not properly undone count.
   */
  lemma SplitBound(x: SplitState, es: seq<Event>, k: nat)
    requires Bounded(x, k) && Exec(x, es).Some?
    ensures var y := Exec(x, es).value;
            && Bounded(y, k)
            && y.base.rows[k].active
               <= |UnreleasedOn(y.base, k)| + y.pulses[k].ledger.other + Sum(y.pulses[k].ledger.windows)
            && (AllCompensated(es) ==> y.pulses[k].ledger.other <= x.pulses[k].ledger.other)
  {
    BoundedStays(x, es, k);
    if AllCompensated(es) { OtherStays(x, es, k); }
  }

  ghost predicate NoWriteFor(es: seq<Event>, k: nat) {
    forall i :: 0 <= i < |es| ==> !(es[i].Write? && es[i].host == k)
  }

  lemma {:induction false} WindowsStay(x: SplitState, es: seq<Event>, k: nat)
    requires Bounded(x, k) && Exec(x, es).Some? && NoWriteFor(es, k)
    ensures k < |Exec(x, es).value.pulses|
    ensures Exec(x, es).value.pulses[k].ledger.windows == x.pulses[k].ledger.windows
    decreases |es|
  {
    if es != [] {
      OtherStep(x, es[0], k);
      StepKeepsBound(x, es[0], k);
      WindowsStay(Step(x, es[0]).value, es[1..], k);
    }
  }

  /**
   * A heartbeat that reached Docker, with no slot given up in its flight, removes the excess
   * until the next heartbeat is written; all but what came after its row was read, if that row
   * showed the very count it writes.
   */
  lemma QuietHeartbeatCorrects(x: SplitState, beat: Event, rest: seq<Event>)
    requires beat.Write? && Bounded(x, beat.host) && Step(x, beat).Some?
    requires x.pulses[beat.host].flight.value.docker && x.pulses[beat.host].flight.value.departures == 0
    requires Exec(Step(x, beat).value, rest).Some? && NoWriteFor(rest, beat.host)
    ensures var k, y := beat.host, Exec(Step(x, beat).value, rest).value;
            && k < |y.pulses| && Excess(y.base, k) <= y.pulses[k].ledger.other
            && (AllCompensated(rest) ==> Excess(y.base, k) <= Late(x.pulses[k].flight.value))
  {
    var k, z := beat.host, Step(x, beat).value;
    StepKeepsBound(x, beat, k);
    SplitBound(z, rest, k);
    WindowsStay(z, rest, k);
    assert z.pulses[k].ledger == Ledger(Late(x.pulses[k].flight.value), [0]) && [0][..0] == [] && Sum([0]) == 0;
  }

  // --- the allowance is used ------------------------------------------------------------

  ghost predicate Chain(states: seq<SplitState>, es: seq<Event>) {
    && |states| == |es| + 1
    && forall i :: 0 <= i < |es| ==> Step(states[i], es[i]) == Some(states[i + 1])
  }

  lemma {:induction false} ChainIsExec(states: seq<SplitState>, es: seq<Event>)
    requires Chain(states, es)
    ensures Exec(states[0], es) == Some(states[|es|])
  {
    if es != [] {
      assert Step(states[0], es[0]) == Some(states[1]);
      forall i | 0 <= i < |es[1..]| ensures Step(states[1..][i], es[1..][i]) == Some(states[1..][i + 1]) {
        assert Step(states[i + 1], es[i + 1]) == Some(states[i + 2]);
      }
      ChainIsExec(states[1..], es[1..]);
    }
  }

  /** The one host of the trace, with its run at this stage, a heartbeat in flight or not, and its windows. */
  function Point(t: string, count: nat, stage: Stage, flight: Option<Flight>, windows: seq<nat>): SplitState {
    SplitState(Snapshot(t, count, stage, stage.Launched?), [Pulse(flight, Ledger(0, windows))])
  }

  /** The flights of the trace: the two counts read, before and after the row is read. */
  function DockerFlight(departures: nat, loaded: bool): Flight {
    Flight(1, true, departures, if loaded then Some(Loaded(Snapshot("", 0, Released, false).rows[0], 0)) else None)
  }

  function CachedFlight(loaded: bool): Flight {
    Flight(1, false, 0, if loaded then Some(Loaded(Snapshot("", 1, Released, false).rows[0], 0)) else None)
  }

  lemma ReadSteps(t: string)
    ensures Step(Point(t, 1, Launched, None, []), Read(0, true))
            == Some(Point(t, 1, Launched, Some(DockerFlight(0, false)), []))
    ensures Step(Point(t, 1, Released, None, [1]), Read(0, false))
            == Some(Point(t, 1, Released, Some(CachedFlight(false)), [1]))
  {
    assert LiveOn(Snapshot(t, 1, Launched, true), 0) == {t};
    var x, y := Point(t, 1, Launched, None, []), Point(t, 1, Released, None, [1]);
    assert Step(x, Read(0, true)).value.pulses == Point(t, 1, Launched, Some(DockerFlight(0, false)), []).pulses;
    assert Step(y, Read(0, false)).value.pulses == Point(t, 1, Released, Some(CachedFlight(false)), [1]).pulses;
  }

  lemma RemoveStep(t: string)
    ensures Step(Point(t, 1, Launched, Some(DockerFlight(0, false)), []), Task(Remove(t)))
            == Some(Point(t, 1, Removed, Some(DockerFlight(0, false)), []))
  {
    var f := Some(DockerFlight(0, false));
    var x, y := Point(t, 1, Launched, f, []), Point(t, 1, Removed, f, []);
    var z := Step(x, Task(Remove(t))).value;
    assert z.base.jobs == y.base.jobs && z.base.containers == y.base.containers && z.pulses == y.pulses;
  }

  lemma ReleaseStep(t: string)
    ensures Step(Point(t, 1, Removed, Some(DockerFlight(0, false)), []), Task(Release(t)))
            == Some(Point(t, 0, Released, Some(DockerFlight(1, false)), []))
  {
    var x := Point(t, 1, Removed, Some(DockerFlight(0, false)), []);
    var y := Point(t, 0, Released, Some(DockerFlight(1, false)), []);
    var z := Step(x, Task(Release(t))).value;
    assert z.base.jobs == y.base.jobs && z.base.rows == y.base.rows;
    assert t in UnreleasedOn(x.base, 0);
    assert z.pulses == y.pulses;
  }

  lemma LoadSteps(t: string)
    ensures Step(Point(t, 0, Released, Some(DockerFlight(1, false)), []), Load(0))
            == Some(Point(t, 0, Released, Some(DockerFlight(1, true)), []))
    ensures Step(Point(t, 1, Released, Some(CachedFlight(false)), [1]), Load(0))
            == Some(Point(t, 1, Released, Some(CachedFlight(true)), [1]))
  {
    var x := Point(t, 0, Released, Some(DockerFlight(1, false)), []);
    var y := Point(t, 1, Released, Some(CachedFlight(false)), [1]);
    assert Step(x, Load(0)).value.pulses == [Pulse(Some(DockerFlight(1, true)), Ledger(0, []))];
    assert Step(y, Load(0)).value.pulses == [Pulse(Some(CachedFlight(true)), Ledger(0, [1]))];
  }

  lemma WriteSteps(t: string)
    ensures Step(Point(t, 0, Released, Some(DockerFlight(1, true)), []), Write(0, 0.0, 0))
            == Some(Point(t, 1, Released, None, [1]))
    ensures Step(Point(t, 1, Released, Some(CachedFlight(true)), [1]), Write(0, 0.0, 0))
            == Some(Point(t, 1, Released, None, [1, 0]))
  {
    var x := Point(t, 0, Released, Some(DockerFlight(1, true)), []);
    var y := Point(t, 1, Released, Some(CachedFlight(true)), [1]);
    var x', y' := Step(x, Write(0, 0.0, 0)).value, Step(y, Write(0, 0.0, 0)).value;
    assert x'.base.rows == Snapshot(t, 1, Released, false).rows == y'.base.rows;
    assert [1] + [0] == [1, 0];
    assert x'.pulses == [Pulse(None, Ledger(0, [1]))] && y'.pulses == [Pulse(None, Ledger(0, [1, 0]))];
  }

  lemma PointExcess(t: string)
    ensures Bounded(Point(t, 1, Launched, None, []), 0) && Excess(Snapshot(t, 1, Launched, true), 0) == 0
    ensures Excess(Snapshot(t, 1, Released, false), 0) == 1
  {
    SnapshotIsRouted(t, 1, Launched, true);
    assert UnreleasedOn(Snapshot(t, 1, Launched, true), 0) == {t};
    assert UnreleasedOn(Snapshot(t, 1, Released, false), 0) == {};
  }

  lemma DockerBeat(t: string)
    ensures Exec(Point(t, 1, Launched, None, []),
                 [Read(0, true), Task(Remove(t)), Task(Release(t)), Load(0), Write(0, 0.0, 0)])
            == Some(Point(t, 1, Released, None, [1]))
  {
    var states := [Point(t, 1, Launched, None, []), Point(t, 1, Launched, Some(DockerFlight(0, false)), []),
                   Point(t, 1, Removed, Some(DockerFlight(0, false)), []),
                   Point(t, 0, Released, Some(DockerFlight(1, false)), []),
                   Point(t, 0, Released, Some(DockerFlight(1, true)), []), Point(t, 1, Released, None, [1])];
    ReadSteps(t);
    RemoveStep(t);
    ReleaseStep(t);
    LoadSteps(t);
    WriteSteps(t);
    ChainIsExec(states, [Read(0, true), Task(Remove(t)), Task(Release(t)), Load(0), Write(0, 0.0, 0)]);
  }

  lemma CachedBeat(t: string)
    ensures Exec(Point(t, 1, Released, None, [1]), [Read(0, false), Load(0), Write(0, 0.0, 0)])
            == Some(Point(t, 1, Released, None, [1, 0]))
  {
    var states := [Point(t, 1, Released, None, [1]), Point(t, 1, Released, Some(CachedFlight(false)), [1]),
                   Point(t, 1, Released, Some(CachedFlight(true)), [1]), Point(t, 1, Released, None, [1, 0])];
    ReadSteps(t);
    LoadSteps(t);
    WriteSteps(t);
    ChainIsExec(states, [Read(0, false), Load(0), Write(0, 0.0, 0)]);
  }

  /**
   * One release inside the flight of a Docker count leaves the count one too high, and a next
   * heartbeat that cannot reach Docker keeps it so although nothing happened in its own flight.
   */
  lemma ExcessHappens(t: string)
    ensures var x, y := Point(t, 1, Launched, None, []), Point(t, 1, Released, None, [1]);
            && Bounded(x, 0) && Excess(x.base, 0) == 0 && Excess(y.base, 0) == 1
            && Exec(x, [Read(0, true), Task(Remove(t)), Task(Release(t)), Load(0), Write(0, 0.0, 0)]) == Some(y)
            && Exec(y, [Read(0, false), Load(0), Write(0, 0.0, 0)]) == Some(Point(t, 1, Released, None, [1, 0]))
  {
    PointExcess(t);
    DockerBeat(t);
    CachedBeat(t);
  }
}
