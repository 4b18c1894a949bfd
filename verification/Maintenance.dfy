/** The backend's central sweep, and the worker's own reaper. */
module Maintenance {
  import opened Models

  /** Some positions below n, in increasing order. */
  ghost predicate Picks(at: seq<nat>, n: nat) {
    (forall p :: 0 <= p < |at| ==> at[p] < n) && forall p, q :: 0 <= p < q < |at| ==> at[p] < at[q]
  }

  // --- stale hosts --------------------------------------------------------------

  /** Online, but with no heartbeat at or after the cutoff. */
  predicate IsStale(h: Host, cutoff: int) {
    h.online && (h.heartbeat.None? || h.heartbeat.value.utc < cutoff)
  }

  function SweptRow(h: Host, cutoff: int): Host {
    if IsStale(h, cutoff) then h.(online := false) else h
  }

  function Swept(rows: seq<Host>, cutoff: int): seq<Host> {
    seq(|rows|, i requires 0 <= i < |rows| => SweptRow(rows[i], cutoff))
  }

  function StaleIds(rows: seq<Host>, cutoff: int): seq<string> {
    if rows == [] then [] else
      StaleIds(rows[..|rows| - 1], cutoff) +
      if IsStale(rows[|rows| - 1], cutoff) then [rows[|rows| - 1].hostId] else []
  }

  /** The hosts that were online with no heartbeat, or one before the cutoff, are offline; nothing else changed. */
  ghost predicate TookOffline(rows: seq<Host>, after: seq<Host>, cutoff: int) {
    && |after| == |rows|
    && forall i :: 0 <= i < |rows| ==>
         after[i] == if rows[i].online && (rows[i].heartbeat.Some? ==> rows[i].heartbeat.value.utc < cutoff)
                     then rows[i].(online := false) else rows[i]
  }

  /** These are the ids of the hosts that went offline, in table order. */
  ghost predicate WentOffline(ids: seq<string>, rows: seq<Host>, after: seq<Host>) {
    && |after| == |rows|
    && exists at: seq<nat> :: Picks(at, |rows|) && |at| == |ids|
         && (forall p :: 0 <= p < |at| ==> ids[p] == rows[at[p]].hostId)
         && forall i: nat :: i < |rows| ==> (i in at <==> rows[i].online && !after[i].online)
  }

  lemma {:induction false} StaleIdsListed(rows: seq<Host>, cutoff: int) returns (at: seq<nat>)
    ensures Picks(at, |rows|) && |at| == |StaleIds(rows, cutoff)|
    ensures forall p :: 0 <= p < |at| ==> StaleIds(rows, cutoff)[p] == rows[at[p]].hostId
    ensures forall i: nat :: i < |rows| ==> (i in at <==> IsStale(rows[i], cutoff))
  {
    at := [];
    if rows != [] {
      var last := |rows| - 1;
      at := StaleIdsListed(rows[..last], cutoff);
      if IsStale(rows[last], cutoff) { at := at + [last]; }
    }
  }

  lemma SweepIsExact(rows: seq<Host>, cutoff: int)
    ensures TookOffline(rows, Swept(rows, cutoff), cutoff)
    ensures WentOffline(StaleIds(rows, cutoff), rows, Swept(rows, cutoff))
  {
    var at := StaleIdsListed(rows, cutoff);
    assert forall i: nat :: i < |rows| ==> Swept(rows, cutoff)[i] == SweptRow(rows[i], cutoff);
  }

  /** The first n rows swept, the others as they were. */
  ghost predicate SweptUpTo(hosts: seq<WorkerHost>, before: seq<Host>, cutoff: int, n: nat)
    requires |before| == |hosts|
    reads hosts
  {
    forall j :: 0 <= j < |hosts| ==> hosts[j].Row() == if j < n then SweptRow(before[j], cutoff) else before[j]
  }

  lemma AllSwept(hosts: seq<WorkerHost>, before: seq<Host>, cutoff: int)
    requires |before| == |hosts| && SweptUpTo(hosts, before, cutoff, |hosts|)
    ensures Rows(hosts) == Swept(before, cutoff)
  {
  }

  /** One turn of the loop: sweep row i. */
  method SweepRow(hosts: seq<WorkerHost>, i: nat, ghost before: seq<Host>, cutoff: int) returns (isStale: bool)
    requires DistinctHosts(hosts) && i < |hosts| == |before| && SweptUpTo(hosts, before, cutoff, i)
    modifies hosts
    ensures SweptUpTo(hosts, before, cutoff, i + 1)
    ensures isStale == IsStale(before[i], cutoff)
  {
    var host := hosts[i];
    assert host.Row() == before[i];
    isStale := host.online && (host.heartbeat.None? || host.heartbeat.value.utc < cutoff);
    if isStale {
      host.online := false;
    }
  }

  /** Mark the stale hosts offline and report them; `now` and the age are in microseconds. */
  method SweepStaleHosts(hosts: seq<WorkerHost>, now: int, maxAge: int) returns (affected: seq<string>)
    requires DistinctHosts(hosts)
    modifies hosts
    ensures Rows(hosts) == Swept(old(Rows(hosts)), now - maxAge)
    ensures affected == StaleIds(old(Rows(hosts)), now - maxAge)
  {
    var cutoff := now - maxAge;
    ghost var before := Rows(hosts);
    affected := [];
    for i := 0 to |hosts|
      invariant SweptUpTo(hosts, before, cutoff, i)
      invariant affected == StaleIds(before[..i], cutoff)
    {
      assert before[..i + 1][..i] == before[..i] && before[i].hostId == hosts[i].hostId;
      var isStale := SweepRow(hosts, i, before, cutoff);
      if isStale {
        affected := affected + [hosts[i].hostId];
      }
    }
    AllSwept(hosts, before, cutoff);
    assert before[..|hosts|] == before;
  }

  /** The report names exactly the hosts that were online with a missing or too-old heartbeat. */
  lemma {:induction false} StaleIdsExact(rows: seq<Host>, cutoff: int, id: string)
    ensures id in StaleIds(rows, cutoff)
            <==> exists i :: 0 <= i < |rows| && rows[i].hostId == id && IsStale(rows[i], cutoff)
  {
    if rows != [] {
      var last := |rows| - 1;
      StaleIdsExact(rows[..last], cutoff, id);
      if IsStale(rows[last], cutoff) { assert id == rows[last].hostId ==> id in StaleIds(rows, cutoff); }
      if id in StaleIds(rows[..last], cutoff) {
        var i :| 0 <= i < last && rows[..last][i].hostId == id && IsStale(rows[..last][i], cutoff);
        assert rows[i].hostId == id && IsStale(rows[i], cutoff);
      }
      if i :| 0 <= i < |rows| && rows[i].hostId == id && IsStale(rows[i], cutoff) {
        if i < last { assert rows[..last][i] == rows[i]; }
      }
    }
  }

  /** Two sweeps, the second no earlier, leave the table the second alone would have left... */
  lemma SweepTwice(rows: seq<Host>, first: int, second: int)
    requires first <= second
    ensures Swept(Swept(rows, first), second) == Swept(rows, second)
  {
    var once, twice := Swept(rows, first), Swept(Swept(rows, first), second);
    forall i | 0 <= i < |rows| ensures twice[i] == SweptRow(rows[i], second) {
      assert once[i] == SweptRow(rows[i], first);
      assert twice[i] == SweptRow(once[i], second);
    }
  }

  /** What one row adds to a report. */
  function Reported(h: Host, cutoff: int): multiset<string> {
    if IsStale(h, cutoff) then multiset{h.hostId} else multiset{}
  }

  lemma Unfold(rows: seq<Host>, cutoff: int)
    requires rows != []
    ensures multiset(StaleIds(rows, cutoff))
            == multiset(StaleIds(rows[..|rows| - 1], cutoff)) + Reported(rows[|rows| - 1], cutoff)
  {
  }

  lemma RowReportedOnce(h: Host, first: int, second: int)
    requires first <= second
    ensures Reported(h, first) + Reported(SweptRow(h, first), second) == Reported(h, second)
  {
  }

  /** ...and between them report the same hosts. */
  lemma {:induction false} SweepTwiceReports(rows: seq<Host>, first: int, second: int)
    requires first <= second
    ensures multiset(StaleIds(rows, first)) + multiset(StaleIds(Swept(rows, first), second))
            == multiset(StaleIds(rows, second))
  {
    if rows != [] {
      var last, front := rows[|rows| - 1], rows[..|rows| - 1];
      SweepTwiceReports(front, first, second);
      var once := Swept(rows, first);
      assert once[..|once| - 1] == Swept(front, first) && once[|once| - 1] == SweptRow(last, first);
      RowReportedOnce(last, first, second);
      Unfold(rows, first);
      Unfold(once, second);
      Unfold(rows, second);
    }
  }

  lemma SweepsReportDisjointly(rows: seq<Host>, first: int, second: int, id: string)
    requires UniqueIds(rows) && id in StaleIds(rows, first)
    ensures id !in StaleIds(Swept(rows, first), second)
  {
    StaleIdsExact(rows, first, id);
    StaleIdsExact(Swept(rows, first), second, id);
  }

  // --- orphaned runs -----------------------------------------------------------------

  predicate IsActive(s: Status) {
    s.Dispatched? || s.Running?
  }

  /** In flight on one of these hosts. */
  predicate IsOrphan(r: Run, hostIds: seq<string>) {
    r.target.Some? && r.target.value in hostIds && IsActive(r.status)
  }

  /** Running on this host and untouched since the cutoff. */
  predicate IsStuck(r: Run, hostId: string, cutoff: int) {
    r.target == Some(hostId) && r.status.Running? && r.updatedAt < cutoff
  }

  /** Fail the selected runs. */
  function FailWhere(runs: seq<Run>, select: Run -> bool, now: int): seq<Run> {
    seq(|runs|, i requires 0 <= i < |runs| => FailRow(runs[i], select, now))
  }

  /** The reservations the selected runs hold, in table order. */
  function Reservations(runs: seq<Run>, select: Run -> bool): seq<string> {
    if runs == [] then [] else
      var last := runs[|runs| - 1];
      Reservations(runs[..|runs| - 1], select) +
      if select(last) && HasReservation(last.reservation) then [last.reservation.value] else []
  }

  function CountWhere(runs: seq<Run>, select: Run -> bool): nat {
    if runs == [] then 0 else
      CountWhere(runs[..|runs| - 1], select) + if select(runs[|runs| - 1]) then 1 else 0
  }

  /** The reservations of the runs that changed, in table order: those present and not empty. */
  ghost predicate OfChanged(tried: seq<string>, runs: seq<Run>, after: seq<Run>) {
    && |after| == |runs|
    && exists at: seq<nat> :: Picks(at, |runs|) && |at| == |tried|
         && (forall p :: 0 <= p < |at| ==> runs[at[p]].reservation == Some(tried[p]))
         && forall i: nat :: i < |runs| ==>
              (i in at <==> after[i] != runs[i] && runs[i].reservation.Some? && runs[i].reservation.value != "")
  }

  /** Where the selected runs with a reservation stand in the table. */
  ghost function Positions(runs: seq<Run>, select: Run -> bool): seq<nat> {
    if runs == [] then [] else
      var last := |runs| - 1;
      Positions(runs[..last], select) +
      if select(runs[last]) && runs[last].reservation.Some? && runs[last].reservation.value != "" then [last] else []
  }

  lemma {:induction false} PositionsPick(runs: seq<Run>, select: Run -> bool)
    ensures Picks(Positions(runs, select), |runs|)
  {
    if runs != [] { PositionsPick(runs[..|runs| - 1], select); }
  }

  lemma {:induction false} PositionsAre(runs: seq<Run>, select: Run -> bool, i: nat)
    requires i < |runs|
    ensures i in Positions(runs, select)
            <==> select(runs[i]) && runs[i].reservation.Some? && runs[i].reservation.value != ""
  {
    var last := |runs| - 1;
    PositionsPick(runs[..last], select);
    if i < last { PositionsAre(runs[..last], select, i); }
  }

  lemma {:induction false} ReservationsListed(runs: seq<Run>, select: Run -> bool)
    ensures |Reservations(runs, select)| == |Positions(runs, select)|
    ensures forall p :: 0 <= p < |Positions(runs, select)| ==>
      Positions(runs, select)[p] < |runs|
      && runs[Positions(runs, select)[p]].reservation == Some(Reservations(runs, select)[p])
  {
    if runs != [] {
      ReservationsListed(runs[..|runs| - 1], select);
    }
  }

  /** When every selected run was active, the reservations tried are those of the runs that changed. */
  lemma TriedIsOfChanged(runs: seq<Run>, select: Run -> bool, now: int)
    requires forall r :: r in runs && select(r) ==> !r.status.Failed?
    ensures OfChanged(Reservations(runs, select), runs, FailWhere(runs, select, now))
  {
    var after, at := FailWhere(runs, select, now), Positions(runs, select);
    PositionsPick(runs, select);
    ReservationsListed(runs, select);
    forall i: nat | i < |runs|
      ensures i in at <==> after[i] != runs[i] && runs[i].reservation.Some? && runs[i].reservation.value != ""
    {
      PositionsAre(runs, select, i);
      assert runs[i] in runs;
    }
  }

  /** The hardware reservation service: every call is recorded, and any call may fail. */
  class QualiClient {
    var attempts: seq<string>

    constructor ()
      ensures attempts == []
    {
      attempts := [];
    }

    method ReleaseReservation(id: string) returns (ok: bool)
      modifies this
      ensures attempts == old(attempts) + [id]
    {
      attempts := attempts + [id];
      ok := *;
    }
  }

  function FailRow(r: Run, select: Run -> bool, now: int): Run {
    if select(r) then r.(status := Failed, updatedAt := now) else r
  }

  /** One turn of the loop; a failed release is logged and does not stop it. */
  method FailRun(run: TestExecution, quali: QualiClient, now: int)
    modifies run, quali
    ensures run.Row() == old(run.Row()).(status := Failed, updatedAt := now)
    ensures quali.attempts == old(quali.attempts) +
      if HasReservation(run.reservation) then [run.reservation.value] else []
  {
    run.status := Failed;
    run.updatedAt := now;
    if HasReservation(run.reservation) {
      var ok := quali.ReleaseReservation(run.reservation.value);
    }
  }

  /** The first n rows handled, the others as they were. */
  ghost predicate HandledUpTo(runs: seq<TestExecution>, before: seq<Run>, select: Run -> bool, now: int, n: nat)
    requires |before| == |runs|
    reads runs
  {
    forall j :: 0 <= j < |runs| ==> runs[j].Row() == if j < n then FailRow(before[j], select, now) else before[j]
  }

  lemma AllHandled(runs: seq<TestExecution>, before: seq<Run>, select: Run -> bool, now: int)
    requires |before| == |runs| && HandledUpTo(runs, before, select, now, |runs|)
    ensures RunRows(runs) == FailWhere(before, select, now)
  {
  }

  /** One turn of the loop: fail row i if it is selected. */
  method HandleRow(runs: seq<TestExecution>, i: nat, ghost before: seq<Run>, select: Run -> bool,
                   quali: QualiClient, now: int) returns (selected: bool)
    requires DistinctRuns(runs) && i < |runs| == |before| && HandledUpTo(runs, before, select, now, i)
    modifies runs, quali
    ensures HandledUpTo(runs, before, select, now, i + 1)
    ensures selected == select(before[i])
    ensures quali.attempts == old(quali.attempts) +
      if selected && HasReservation(before[i].reservation) then [before[i].reservation.value] else []
  {
    assert runs[i].Row() == before[i];
    selected := select(runs[i].Row());
    if selected {
      FailRun(runs[i], quali, now);
    }
  }

  /** Fail the selected runs one by one. */
  method FailRuns(runs: seq<TestExecution>, select: Run -> bool, quali: QualiClient, now: int)
    returns (failed: nat)
    requires DistinctRuns(runs)
    modifies runs, quali
    ensures RunRows(runs) == FailWhere(old(RunRows(runs)), select, now)
    ensures quali.attempts == old(quali.attempts) + Reservations(old(RunRows(runs)), select)
    ensures failed == CountWhere(old(RunRows(runs)), select)
  {
    ghost var before := RunRows(runs);
    failed := 0;
    for i := 0 to |runs|
      invariant HandledUpTo(runs, before, select, now, i)
      invariant failed == CountWhere(before[..i], select)
      invariant quali.attempts == old(quali.attempts) + Reservations(before[..i], select)
    {
      OneMore(before, select, i, old(quali.attempts));
      var selected := HandleRow(runs, i, before, select, quali, now);
      if selected {
        failed := failed + 1;
      }
    }
    AllHandled(runs, before, select, now);
    assert before[..|runs|] == before;
  }

  lemma OneMore(before: seq<Run>, select: Run -> bool, n: nat, tried: seq<string>)
    requires n < |before|
    ensures CountWhere(before[..n + 1], select) == CountWhere(before[..n], select) + if select(before[n]) then 1 else 0
    ensures tried + Reservations(before[..n + 1], select) == tried + Reservations(before[..n], select) +
      if select(before[n]) && HasReservation(before[n].reservation) then [before[n].reservation.value] else []
  {
    assert before[..n + 1][..n] == before[..n];
  }

  /** The table once what was in flight on these hosts has been failed. */
  function OrphansFailed(runs: seq<Run>, hostIds: seq<string>, now: int): seq<Run> {
    FailWhere(runs, r => IsOrphan(r, hostIds), now)
  }

  /** Fail what was in flight on these hosts. */
  method FailOrphanedRuns(runs: seq<TestExecution>, hostIds: seq<string>, quali: QualiClient, now: int)
    returns (failed: nat)
    requires DistinctRuns(runs)
    modifies runs, quali
    ensures RunRows(runs) == OrphansFailed(old(RunRows(runs)), hostIds, now)
    ensures quali.attempts == old(quali.attempts) + Reservations(old(RunRows(runs)), r => IsOrphan(r, hostIds))
  {
    if hostIds == [] {
      NothingSelected(RunRows(runs), r => IsOrphan(r, hostIds), now);
      return 0;
    }
    failed := FailRuns(runs, r => IsOrphan(r, hostIds), quali, now);
  }

  /**
   * What was DISPATCHED or RUNNING on one of these hosts is FAILED now; nothing else changed. The
   * reservations tried are those of the runs that changed, and the number returned is theirs.
   */
  lemma OrphansFailedExactly(runs: seq<Run>, hostIds: seq<string>, now: int)
    ensures var after := OrphansFailed(runs, hostIds, now);
            && |after| == |runs|
            && (forall i :: 0 <= i < |runs| ==>
                  after[i] == if runs[i].target.Some? && runs[i].target.value in hostIds
                                 && (runs[i].status.Dispatched? || runs[i].status.Running?)
                              then runs[i].(status := Failed, updatedAt := now) else runs[i])
            && OfChanged(Reservations(runs, r => IsOrphan(r, hostIds)), runs, after)
            && CountWhere(runs, r => IsOrphan(r, hostIds)) == |Changed(runs, after)|
  {
    CountIsRowsChanged(runs, hostIds, now);
    TriedIsOfChanged(runs, r => IsOrphan(r, hostIds), now);
  }

  /** How long a run may stay RUNNING without any change: two hours, in microseconds. */
  const REAP_AGE := 7_200_000_000

  /** The table once this host's stuck runs have been failed. */
  function Reaped(runs: seq<Run>, hostId: string, now: int): seq<Run> {
    FailWhere(runs, r => IsStuck(r, hostId, now - REAP_AGE), now)
  }

  /** A worker's reaper: runs stuck RUNNING here for more than two hours. */
  method ReapStale(runs: seq<TestExecution>, hostId: string, quali: QualiClient, now: int)
    requires DistinctRuns(runs)
    modifies runs, quali
    ensures RunRows(runs) == Reaped(old(RunRows(runs)), hostId, now)
    ensures quali.attempts == old(quali.attempts)
              + Reservations(old(RunRows(runs)), r => IsStuck(r, hostId, now - REAP_AGE))
  {
    var failed := FailRuns(runs, r => IsStuck(r, hostId, now - REAP_AGE), quali, now);
  }

  /**
   * What was RUNNING here and untouched for more than two hours is FAILED now; nothing else
   * changed, and no such run is left. The reservations tried are those of the runs that changed.
   */
  lemma ReapedExactly(runs: seq<Run>, hostId: string, now: int)
    ensures var after := Reaped(runs, hostId, now);
            && |after| == |runs|
            && (forall i :: 0 <= i < |runs| ==>
                  after[i] == if runs[i].target == Some(hostId) && runs[i].status.Running?
                                 && runs[i].updatedAt < now - 7_200_000_000
                              then runs[i].(status := Failed, updatedAt := now) else runs[i])
            && OfChanged(Reservations(runs, r => IsStuck(r, hostId, now - REAP_AGE)), runs, after)
            && forall r :: r in after && r.target == Some(hostId) && r.status.Running? ==>
                 r.updatedAt >= now - 7_200_000_000
  {
    TriedIsOfChanged(runs, r => IsStuck(r, hostId, now - REAP_AGE), now);
  }

  lemma {:induction false} NothingSelected(runs: seq<Run>, select: Run -> bool, now: int)
    requires forall r :: r in runs ==> !select(r)
    ensures FailWhere(runs, select, now) == runs
    ensures Reservations(runs, select) == [] && CountWhere(runs, select) == 0
  {
    if runs != [] { NothingSelected(runs[..|runs| - 1], select, now); }
  }

  /** The rows a call changed. */
  ghost function Changed(runs: seq<Run>, after: seq<Run>): set<nat>
    requires |after| == |runs|
  {
    set i: nat | i < |runs| && after[i] != runs[i]
  }

  lemma ChangedOneMore(runs: seq<Run>, hostIds: seq<string>, now: int)
    requires runs != []
    ensures var last, select := |runs| - 1, r => IsOrphan(r, hostIds);
            Changed(runs, FailWhere(runs, select, now)) ==
              Changed(runs[..last], FailWhere(runs[..last], select, now)) +
              if select(runs[last]) then {last} else {}
  {
    var last, select := |runs| - 1, r => IsOrphan(r, hostIds);
    var after, before := FailWhere(runs, select, now), FailWhere(runs[..last], select, now);
    assert forall i :: 0 <= i < last ==> after[i] == before[i] && runs[i] == runs[..last][i];
  }

  /** The number reported is the number of rows the call changed. */
  lemma {:induction false} CountIsRowsChanged(runs: seq<Run>, hostIds: seq<string>, now: int)
    ensures CountWhere(runs, r => IsOrphan(r, hostIds))
            == |Changed(runs, FailWhere(runs, r => IsOrphan(r, hostIds), now))|
  {
    if runs == [] {
      assert Changed(runs, FailWhere(runs, r => IsOrphan(r, hostIds), now)) == {};
    } else {
      CountIsRowsChanged(runs[..|runs| - 1], hostIds, now);
      ChangedOneMore(runs, hostIds, now);
    }
  }

  /** A host a sweep took offline is among those it reports. */
  lemma OfflinedIsReported(rows: seq<Host>, cutoff: int, h: Host)
    requires h in rows && h !in Swept(rows, cutoff)
    ensures h.hostId in StaleIds(rows, cutoff)
  {
    var i :| 0 <= i < |rows| && rows[i] == h;
    assert Swept(rows, cutoff)[i] == SweptRow(h, cutoff);
    StaleIdsExact(rows, cutoff, h.hostId);
  }

  lemma OfflinedHasNoRun(rows: seq<Host>, after: seq<Host>, runs: seq<Run>, left: seq<Run>, now: int, cutoff: int)
    requires after == Swept(rows, cutoff) && left == OrphansFailed(runs, StaleIds(rows, cutoff), now)
    ensures forall h, r :: h in rows && h !in after && r in left ==> !(r.target == Some(h.hostId) && IsActive(r.status))
  {
    forall h, r | h in rows && h !in after && r in left ensures !(r.target == Some(h.hostId) && IsActive(r.status)) {
      OfflinedIsReported(rows, cutoff, h);
    }
  }

  /** The run is in flight on a host that went offline. */
  ghost predicate LostHost(r: Run, rows: seq<Host>, after: seq<Host>)
    requires |after| == |rows|
  {
    && (r.status.Dispatched? || r.status.Running?)
    && exists k :: 0 <= k < |rows| && r.target == Some(rows[k].hostId) && rows[k].online && !after[k].online
  }

  /** The runs the whole sweep fails are exactly those in flight on a host it took offline. */
  lemma SweepFailsExactly(rows: seq<Host>, runs: seq<Run>, cutoff: int, now: int)
    ensures var after, left := Swept(rows, cutoff), OrphansFailed(runs, StaleIds(rows, cutoff), now);
            && |left| == |runs|
            && forall i :: 0 <= i < |runs| ==>
                 left[i] == if LostHost(runs[i], rows, after)
                            then runs[i].(status := Failed, updatedAt := now) else runs[i]
  {
    forall i | 0 <= i < |runs|
      ensures IsOrphan(runs[i], StaleIds(rows, cutoff)) <==> LostHost(runs[i], rows, Swept(rows, cutoff))
    {
      if runs[i].target.Some? { StaleIdsExact(rows, cutoff, runs[i].target.value); }
      assert forall k :: 0 <= k < |rows| ==> Swept(rows, cutoff)[k] == SweptRow(rows[k], cutoff);
    }
  }

  /** The whole sweep: what it takes offline, it leaves without an active run. */
  method RunMaintenanceSweep(hosts: seq<WorkerHost>, runs: seq<TestExecution>, quali: QualiClient,
                             now: int, maxAge: int)
    requires DistinctHosts(hosts) && DistinctRuns(runs)
    modifies hosts, runs, quali
    ensures Rows(hosts) == Swept(old(Rows(hosts)), now - maxAge)
    ensures RunRows(runs) == OrphansFailed(old(RunRows(runs)), StaleIds(old(Rows(hosts)), now - maxAge), now)
    ensures quali.attempts == old(quali.attempts) +
      Reservations(old(RunRows(runs)), r => IsOrphan(r, StaleIds(old(Rows(hosts)), now - maxAge)))
    ensures forall h, r :: h in old(Rows(hosts)) && h !in Rows(hosts) && r in RunRows(runs) ==>
      !(r.target == Some(h.hostId) && IsActive(r.status))
  {
    ghost var before, were := Rows(hosts), RunRows(runs);
    var offline := SweepStaleHosts(hosts, now, maxAge);
    ghost var swept := Rows(hosts);
    assert RunRows(runs) == were;
    if offline != [] {
      var failed := FailOrphanedRuns(runs, offline, quali, now);
    } else {
      NothingSelected(were, r => IsOrphan(r, offline), now);
    }
    assert Rows(hosts) == swept;
    OfflinedHasNoRun(before, swept, were, RunRows(runs), now, now - maxAge);
  }
}
