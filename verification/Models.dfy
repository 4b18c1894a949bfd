/** The rows of the central database, as values and as the objects tasks change in place. */
module Models {
  datatype Option<+T> = None | Some(value: T)

  /** CPU load and workload scores; the scheduler asserts that neither is negative. */
  type NonNegative = r: real | r >= 0.0

  datatype Status = Pending | Dispatched | Running | Passed | Failed | Cancelled

  /** A stored instant in UTC microseconds; older rows come back without a time zone. */
  datatype Stamp = Naive(utc: int) | Aware(utc: int)

  datatype Bundle = Bundle(
    testId: string,
    requiredTags: seq<string>,
    requiresEmulation: bool,
    reservation: Option<string>)

  /** One inventory row. `active` is a nat: every writer below is checked to keep it so. */
  datatype Host = Host(
    hostId: string,
    online: bool,
    active: nat,
    cap: int,
    cpu: NonNegative,
    tags: string,
    emulation: bool,
    heartbeat: Option<Stamp>)

  /** One execution row. */
  datatype Run = Run(
    testId: string,
    target: Option<string>,
    status: Status,
    reservation: Option<string>,
    artifactUrl: Option<string>,
    updatedAt: int)

  class WorkerHost {
    const hostId: string
    var online: bool
    var active: nat
    var cap: int
    var cpu: NonNegative
    var tags: string
    var emulation: bool
    var heartbeat: Option<Stamp>

    /** A new row: the column defaults. */
    constructor (hostId: string, cap: int)
      ensures this.hostId == hostId
      ensures Row() == Host(hostId, false, 0, cap, 0.0, "", false, None)
    {
      this.hostId := hostId;
      online, active, this.cap, cpu := false, 0, cap, 0.0;
      tags, emulation, heartbeat := "", false, None;
    }

    function Row(): Host
      reads this
    {
      Host(hostId, online, active, cap, cpu, tags, emulation, heartbeat)
    }
  }

  class TestExecution {
    const testId: string
    var target: Option<string>
    var status: Status
    const reservation: Option<string>
    var artifactUrl: Option<string>
    var updatedAt: int

    constructor (testId: string, reservation: Option<string>, now: int)
      ensures Row() == Run(testId, None, Pending, reservation, None, now)
    {
      this.testId, this.reservation := testId, reservation;
      target, status, artifactUrl, updatedAt := None, Pending, None, now;
    }

    function Row(): Run
      reads this
    {
      Run(testId, target, status, reservation, artifactUrl, updatedAt)
    }
  }

  function Rows(hosts: seq<WorkerHost>): seq<Host>
    reads hosts
  {
    seq(|hosts|, i requires 0 <= i < |hosts| reads hosts => hosts[i].Row())
  }

  function RunRows(runs: seq<TestExecution>): seq<Run>
    reads runs
  {
    seq(|runs|, i requires 0 <= i < |runs| reads runs => runs[i].Row())
  }

  function Sum(xs: seq<nat>): nat {
    if xs == [] then 0 else Sum(xs[..|xs| - 1]) + xs[|xs| - 1]
  }

  /** `host_id` is a unique column. */
  ghost predicate UniqueIds(rows: seq<Host>) {
    forall i, j :: 0 <= i < j < |rows| ==> rows[i].hostId != rows[j].hostId
  }

  /** The same of row objects; ids never change, so this holds in every state once it holds. */
  ghost predicate DistinctHosts(hosts: seq<WorkerHost>) {
    forall i, j :: 0 <= i < j < |hosts| ==> hosts[i].hostId != hosts[j].hostId
  }

  lemma DistinctHostsHaveUniqueIds(hosts: seq<WorkerHost>)
    requires DistinctHosts(hosts)
    ensures UniqueIds(Rows(hosts))
  {
    assert forall i :: 0 <= i < |hosts| ==> Rows(hosts)[i].hostId == hosts[i].hostId;
  }

  /** `test_id` is a unique column too. */
  ghost predicate DistinctRuns(runs: seq<TestExecution>) {
    forall i, j :: 0 <= i < j < |runs| ==> runs[i].testId != runs[j].testId
  }

  /** A truthy Quali reservation: present and not the empty string. */
  predicate HasReservation(reservation: Option<string>) {
    reservation.Some? && reservation.value != ""
  }
}
