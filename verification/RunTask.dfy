/** `run_test_bundle`: the try block, its handler, and what happens finally. */
module RunTask {
  import opened Models
  import Scheduler
  import opened Worker
  import Maintenance

  const LOG_CHECKPOINT_EVERY := 25

  /** The outside world's answers: which call raises, what the container prints and returns. */
  datatype Script = Script(
    preambleOk: bool,            // everything before the try, up to recording RUNNING
    startOk: bool,               // runner lookup, config, output directory, container start
    lines: seq<string>,          // what the log stream yields
    streamOk: bool,              // whether the stream then ends, rather than raising
    influxFails: set<nat>,       // the lines at which each sink raises
    fanoutFails: set<nat>,
    indexFails: set<nat>,
    waitOk: bool,
    exitCode: int,
    listOk: bool,
    files: seq<string>,
    uploads: map<string, string>, // the artifact URL of each file whose upload succeeds
    finalStatusOk: bool,
    failStatusOk: bool,
    cleanupOk: bool,
    releaseOk: bool,
    closeOk: bool)

  datatype Op =
    | RecordStatus(status: Status)
    | StartContainer
    | Cleanup
    | Release
    | CloseInflux

  datatype Result = Returned(status: Status) | Raised

  /** Everything a run sends out, in order. */
  class Effects {
    var ops: seq<Op>
    var influx: seq<(nat, string)>
    var fanout: seq<string>
    var index: seq<nat>

    constructor ()
      ensures ops == [] && influx == [] && fanout == [] && index == []
    {
      ops, influx, fanout, index := [], [], [], [];
    }
  }

  // --- log streaming ------------------------------------------------------------------

  /** The line numbers below n that get a relational index row. */
  function Checkpoints(n: nat): seq<nat> {
    if n == 0 then [] else
      Checkpoints(n - 1) + if (n - 1) % LOG_CHECKPOINT_EVERY == 0 then [n - 1] else []
  }

  /** They are the multiples of 25, ceil(n / 25) of them. */
  lemma {:induction false} CheckpointsAreMultiples(n: nat)
    ensures |Checkpoints(n)| == (n + 24) / 25
    ensures forall j :: 0 <= j < |Checkpoints(n)| ==> Checkpoints(n)[j] == 25 * j
  {
    if n > 0 { CheckpointsAreMultiples(n - 1); }
  }

  /** No sink raises at line i. */
  ghost predicate LineOk(s: Script, i: nat) {
    i !in s.influxFails && i !in s.fanoutFails && (i % 25 == 0 ==> i !in s.indexFails)
  }

  /**
   * Each sink got the first lines in order, the history with their numbers and the index every
   * 25th; no sink is more than one line ahead of another.
   */
  ghost predicate PrefixesSent(lines: seq<string>, influx: seq<(nat, string)>, fanout: seq<string>, index: seq<nat>) {
    && |influx| <= |lines| && (forall n :: 0 <= n < |influx| ==> influx[n] == (n, lines[n]))
    && fanout <= lines && |fanout| <= |influx| <= |fanout| + 1
    && (forall j :: 0 <= j < |index| ==> index[j] == 25 * j)
    && (|index| == (|fanout| + 24) / 25 || (|influx| == |fanout| > 0 && |index| == (|fanout| + 23) / 25))
  }

  /** All of them got all the lines. */
  ghost predicate AllSent(lines: seq<string>, influx: seq<(nat, string)>, fanout: seq<string>, index: seq<nat>) {
    PrefixesSent(lines, influx, fanout, index) && |influx| == |fanout| == |lines| && |index| == (|lines| + 24) / 25
  }

  /**
   * Each sink receives a prefix of the lines in order; the prefixes end within one line of
   * each other, and all lines arrive when nothing raises. Streaming stops at the first line at
   * which a sink raises, and at no other.
   */
  method StreamLogs(s: Script, out: Effects) returns (raised: bool)
    requires out.influx == [] && out.fanout == [] && out.index == []
    modifies out
    ensures out.ops == old(out.ops)
    ensures raised <==> !(s.streamOk && forall i :: 0 <= i < |s.lines| ==> LineOk(s, i))
    ensures PrefixesSent(s.lines, out.influx, out.fanout, out.index)
    ensures forall i :: 0 <= i < |out.influx| - 1 ==> LineOk(s, i)
    ensures |out.influx| < |s.lines| ==> !LineOk(s, |out.influx|) || (|out.influx| > 0 && !LineOk(s, |out.influx| - 1))
    ensures !raised ==> AllSent(s.lines, out.influx, out.fanout, out.index)
  {
    for n := 0 to |s.lines|
      invariant out.ops == old(out.ops)
      invariant |out.influx| == n && forall i :: 0 <= i < n ==> out.influx[i] == (i, s.lines[i])
      invariant out.fanout == s.lines[..n] && out.index == Checkpoints(n)
      invariant forall i :: 0 <= i < n ==> LineOk(s, i)
    {
      CheckpointsAreMultiples(n);
      var line := s.lines[n];
      if n in s.influxFails {
        assert !LineOk(s, n);
        return true;
      }
      out.influx := out.influx + [(n, line)];
      if n in s.fanoutFails {
        assert !LineOk(s, n);
        return true;
      }
      out.fanout := out.fanout + [line];
      if n % LOG_CHECKPOINT_EVERY == 0 {
        if n in s.indexFails {
          assert !LineOk(s, n);
          return true;
        }
        out.index := out.index + [n];
      }
    }
    CheckpointsAreMultiples(|s.lines|);
    raised := !s.streamOk;
  }

  // --- artifacts ------------------------------------------------------------------------

  predicate EndsWith(s: string, suffix: string) {
    |s| >= |suffix| && s[|s| - |suffix|..] == suffix
  }

  predicate IsArtifact(name: string) {
    EndsWith(name, ".log") || EndsWith(name, ".dmp") || EndsWith(name, ".core") || EndsWith(name, ".tar.gz")
  }

  /** A name is an artifact's by its ending. */
  lemma ArtifactsAre(name: string)
    ensures IsArtifact(name) <==>
      exists stem ::
        name == stem + ".log" || name == stem + ".dmp" || name == stem + ".core" || name == stem + ".tar.gz"
  {
    if EndsWith(name, ".log") { assert name == name[..|name| - 4] + ".log"; }
    if EndsWith(name, ".dmp") { assert name == name[..|name| - 4] + ".dmp"; }
    if EndsWith(name, ".core") { assert name == name[..|name| - 5] + ".core"; }
    if EndsWith(name, ".tar.gz") { assert name == name[..|name| - 7] + ".tar.gz"; }
  }

  /** The first artifact in directory order that could be uploaded, if any. */
  ghost predicate FirstUpload(files: seq<string>, uploads: map<string, string>, url: Option<string>) {
    match url
    case None => forall i :: 0 <= i < |files| && IsArtifact(files[i]) ==> files[i] !in uploads
    case Some(u) =>
      exists k :: 0 <= k < |files| && IsArtifact(files[k]) && files[k] in uploads && uploads[files[k]] == u
        && forall i :: 0 <= i < k && IsArtifact(files[i]) ==> files[i] !in uploads
  }

  /** Upload what can be uploaded; a failing upload is logged and skipped. */
  method UploadArtifacts(files: seq<string>, uploads: map<string, string>) returns (url: Option<string>)
    ensures FirstUpload(files, uploads, url)
  {
    var urls: seq<string> := [];
    for n := 0 to |files|
      invariant urls == [] ==> forall i :: 0 <= i < n && IsArtifact(files[i]) ==> files[i] !in uploads
      invariant urls != [] ==> FirstUpload(files, uploads, Some(urls[0]))
    {
      if IsArtifact(files[n]) && files[n] in uploads {
        urls := urls + [uploads[files[n]]];
      }
    }
    url := if urls != [] then Some(urls[0]) else None;
  }

  // --- the run as a whole -----------------------------------------------------------------------------

  /** Nothing inside the try raises. */
  ghost predicate CleanRun(s: Script) {
    && s.startOk && s.streamOk && (forall i :: 0 <= i < |s.lines| ==> LineOk(s, i))
    && s.waitOk && s.listOk && s.finalStatusOk
  }

  method TryBlock(s: Script, row: TestExecution?, out: Effects, now: int) returns (r: Result)
    requires out.influx == [] && out.fanout == [] && out.index == []
    modifies out, if row == null then {} else {row}
    ensures r.Returned? <==> CleanRun(s)
    ensures r.Returned? ==> r.status == if s.exitCode == 0 then Passed else Failed
    ensures out.ops == old(out.ops) + (if s.startOk then [StartContainer] else [])
                       + if r.Returned? then [RecordStatus(r.status)] else []
    ensures row != null && r.Returned? ==>
      row.status == r.status && FirstUploadKept(s, old(row.artifactUrl), row.artifactUrl)
    ensures row != null && r.Raised? ==> row.status == old(row.status) && row.artifactUrl == old(row.artifactUrl)
    ensures row != null ==> row.target == old(row.target)
    ensures PrefixesSent(s.lines, out.influx, out.fanout, out.index)
    ensures r.Returned? ==> AllSent(s.lines, out.influx, out.fanout, out.index)
  {
    if !s.startOk {
      return Raised;
    }
    out.ops := out.ops + [StartContainer];
    var raised := StreamLogs(s, out);
    if raised || !s.waitOk || !s.listOk {
      return Raised;
    }
    var url := UploadArtifacts(s.files, s.uploads);
    if !s.finalStatusOk {
      return Raised;
    }
    var final := if s.exitCode == 0 then Passed else Failed;
    SetStatus(row, final, None, url, now);
    out.ops := out.ops + [RecordStatus(final)];
    r := Returned(final);
  }

  /** The stored URL is the first uploaded artifact's, or what was there before. */
  ghost predicate FirstUploadKept(s: Script, was: Option<string>, now: Option<string>) {
    exists url :: FirstUpload(s.files, s.uploads, url) && now == if url.Some? then url else was
  }

  /** Record the failure and, if that worked, release the hardware. */
  method HandleFailure(s: Script, row: TestExecution?, reservation: Option<string>, out: Effects,
                       quali: Maintenance.QualiClient, now: int)
    modifies out`ops, quali, if row == null then {} else {row}
    ensures row != null ==> row.status == if s.failStatusOk then Failed else old(row.status)
    ensures row != null ==> row.target == old(row.target) && row.artifactUrl == old(row.artifactUrl)
    ensures out.ops == old(out.ops) + if s.failStatusOk then [RecordStatus(Failed)] else []
    ensures quali.attempts == old(quali.attempts) +
      if s.failStatusOk && reservation.Some? && reservation.value != "" then [reservation.value] else []
  {
    if !s.failStatusOk {
      return;  // the status write raised; the rest of the handler is skipped
    }
    SetStatus(row, Failed, None, None, now);
    out.ops := out.ops + [RecordStatus(Failed)];
    if HasReservation(reservation) {
      var ok := quali.ReleaseReservation(reservation.value);
    }
  }

  /** Remove the container first, then give back the slot, then close the log client. */
  method Finally(s: Script, hosts: seq<WorkerHost>, hostId: string, out: Effects) returns (raised: bool)
    requires DistinctHosts(hosts)
    modifies hosts, out`ops
    ensures out.ops == old(out.ops) + [Cleanup] + (if s.cleanupOk then [Release] else [])
                       + if s.cleanupOk && s.releaseOk then [CloseInflux] else []
    ensures raised <==> !s.cleanupOk || !s.releaseOk || !s.closeOk
    ensures SlotGivenBack(old(Rows(hosts)), Rows(hosts), hostId, s.cleanupOk && s.releaseOk)
  {
    out.ops := out.ops + [Cleanup];
    if !s.cleanupOk {
      return true;
    }
    out.ops := out.ops + [Release];
    if !s.releaseOk {
      return true;
    }
    DecrementActiveContainers(hosts, hostId);
    out.ops := out.ops + [CloseInflux];
    raised := !s.closeOk;
  }

  /** The named host counts one container less, unless it counts none; nothing else changed. */
  ghost predicate SlotGivenBack(rows: seq<Host>, after: seq<Host>, hostId: string, happened: bool) {
    && |after| == |rows|
    && forall i :: 0 <= i < |rows| ==>
         after[i] == if happened && rows[i].hostId == hostId && rows[i].active > 0
                     then rows[i].(active := rows[i].active - 1) else rows[i]
  }

  /** The try block and its handler, after the run has been recorded as RUNNING here. */
  method TryAndHandle(s: Script, row: TestExecution?, reservation: Option<string>, hostId: string,
                      out: Effects, quali: Maintenance.QualiClient, now: int) returns (r: Result)
    requires out.ops == [] && out.influx == [] && out.fanout == [] && out.index == []
    modifies out, quali, if row == null then {} else {row}
    ensures r.Returned? <==> CleanRun(s)
    ensures r.Returned? ==> r.status == if s.exitCode == 0 then Passed else Failed
    ensures out.ops == [RecordStatus(Running)] + (if s.startOk then [StartContainer] else [])
                       + if r.Returned? then [RecordStatus(r.status)]
                         else if s.failStatusOk then [RecordStatus(Failed)] else []
    ensures row != null ==>
      && row.target == Some(hostId)
      && row.status == (if r.Returned? then r.status else if s.failStatusOk then Failed else Running)
      && if r.Returned? then FirstUploadKept(s, old(row.artifactUrl), row.artifactUrl)
         else row.artifactUrl == old(row.artifactUrl)
    ensures PrefixesSent(s.lines, out.influx, out.fanout, out.index)
    ensures r.Returned? ==> AllSent(s.lines, out.influx, out.fanout, out.index)
    ensures quali.attempts == old(quali.attempts) +
      if r.Raised? && s.failStatusOk && reservation.Some? && reservation.value != "" then [reservation.value] else []
  {
    SetStatus(row, Running, Some(hostId), None, now);
    out.ops := [RecordStatus(Running)];
    r := TryBlock(s, row, out, now);
    if r.Raised? {
      HandleFailure(s, row, reservation, out, quali, now);
    }
  }

  /**
   * The run from first to last. It returns exactly when no call raises, with PASSED for exit code
   * 0 and FAILED for any other; the row ends with that status, or FAILED when the try raised, or
   * still RUNNING when recording the failure raised too. Wherever the try fails, cleanup comes
   * next, exactly once, and then exactly one release.
   */
  method RunTestBundle(s: Script, row: TestExecution?, reservation: Option<string>, hosts: seq<WorkerHost>,
                       hostId: string, out: Effects, quali: Maintenance.QualiClient, now: int)
    returns (r: Result, ghost clean: bool)
    requires DistinctHosts(hosts)
    requires out.ops == [] && out.influx == [] && out.fanout == [] && out.index == []
    modifies hosts, out, quali, if row == null then {} else {row}
    ensures clean <==>
      && s.startOk && s.streamOk && s.waitOk && s.listOk && s.finalStatusOk
      && forall i :: 0 <= i < |s.lines| ==>
           i !in s.influxFails && i !in s.fanoutFails && (i % 25 == 0 ==> i !in s.indexFails)
    ensures r.Returned? <==> s.preambleOk && clean && s.cleanupOk && s.releaseOk && s.closeOk
    ensures r.Returned? ==> (r.status.Passed? <==> s.exitCode == 0) && (r.status.Failed? <==> s.exitCode != 0)
    ensures row != null && s.preambleOk ==>
      && row.target == Some(hostId)
      && (row.status.Passed? <==> clean && s.exitCode == 0)
      && (row.status.Failed? <==> if clean then s.exitCode != 0 else s.failStatusOk)
      && (row.status.Running? <==> !clean && !s.failStatusOk)
      && if clean then FirstUploadKept(s, old(row.artifactUrl), row.artifactUrl)
         else row.artifactUrl == old(row.artifactUrl)
    ensures row != null && !s.preambleOk ==> row.Row() == old(row.Row())
    ensures SlotGivenBack(old(Rows(hosts)), Rows(hosts), hostId, s.preambleOk && s.cleanupOk && s.releaseOk)
    ensures out.ops == if !s.preambleOk then [] else
              [RecordStatus(Running)] + (if s.startOk then [StartContainer] else [])
              + (if clean then [RecordStatus(if s.exitCode == 0 then Passed else Failed)]
                 else if s.failStatusOk then [RecordStatus(Failed)] else [])
              + [Cleanup] + (if s.cleanupOk then [Release] else [])
              + if s.cleanupOk && s.releaseOk then [CloseInflux] else []
    ensures PrefixesSent(s.lines, out.influx, out.fanout, out.index)
    ensures r.Returned? ==> AllSent(s.lines, out.influx, out.fanout, out.index)
    ensures quali.attempts == old(quali.attempts) +
      if s.preambleOk && !clean && s.failStatusOk && reservation.Some? && reservation.value != ""
      then [reservation.value] else []
  {
    clean := CleanRun(s);
    assert forall i :: 0 <= i < |s.lines| ==>
      (LineOk(s, i) <==> i !in s.influxFails && i !in s.fanoutFails && (i % 25 == 0 ==> i !in s.indexFails));
    if !s.preambleOk {
      return Raised, clean;
    }
    ghost var before := Rows(hosts);
    r := TryAndHandle(s, row, reservation, hostId, out, quali, now);
    assert Rows(hosts) == before;
    var raised := Finally(s, hosts, hostId, out);
    if raised {
      r := Raised;
    }
  }
}
