/** What a worker host's tasks write: the slot release, the heartbeat, and execution statuses. */
module Worker {
  import opened Models
  import opened Scheduler
  import Tags

  /** The `worker_hosts` table. */
  class Inventory {
    var hosts: seq<WorkerHost>

    constructor ()
      ensures hosts == []
    {
      hosts := [];
    }
  }

  /** The position of the row with this id (`one_or_none`). */
  function Find(rows: seq<Host>, hostId: string): (k: Option<nat>)
    ensures k.Some? ==> k.value < |rows| && rows[k.value].hostId == hostId
    ensures k.None? ==> forall i :: 0 <= i < |rows| ==> rows[i].hostId != hostId
  {
    if rows == [] then None
    else if rows[|rows| - 1].hostId == hostId then Some(|rows| - 1)
    else Find(rows[..|rows| - 1], hostId)
  }

  /** The row a heartbeat writes: the live count replaces whatever was there. */
  function Reconcile(h: Host, live: nat, cpu: NonNegative, now: int): Host {
    h.(online := true, active := live, cpu := cpu, heartbeat := Some(Aware(now)))
  }

  /** The row a host's first heartbeat creates. */
  function NewRow(hostId: string): Host {
    Host(hostId, false, 0, 10, 0.0, "", false, None)
  }

  /** The table after a heartbeat: this host's row reconciled, or created and reconciled. */
  function Beat(rows: seq<Host>, hostId: string, docker: Option<nat>, cpu: NonNegative, now: int): seq<Host> {
    match Find(rows, hostId)
    case Some(k) =>
      rows[k := Reconcile(rows[k], if docker.Some? then docker.value else rows[k].active, cpu, now)]
    case None =>
      rows + [Reconcile(NewRow(hostId), if docker.Some? then docker.value else 0, cpu, now)]
  }

  /**
   * The host's row is online now, with this load, this time stamp, and the live count or, without
   * Docker, its last count; a host without a row gets one, with room for ten, no tags and no
   * emulation. No other row changes.
   */
  ghost predicate BeatRows(rows: seq<Host>, after: seq<Host>, hostId: string, docker: Option<nat>,
                           cpu: NonNegative, now: int)
  {
    var known := exists i :: 0 <= i < |rows| && rows[i].hostId == hostId;
    && |after| == |rows| + (if known then 0 else 1)
    && (forall i :: 0 <= i < |rows| ==>
          after[i] == if rows[i].hostId != hostId then rows[i]
                      else rows[i].(online := true, cpu := cpu, heartbeat := Some(Aware(now)),
                                    active := if docker.Some? then docker.value else rows[i].active))
    && (!known ==>
          after[|rows|] == Host(hostId, true, if docker.Some? then docker.value else 0, 10, cpu, "", false,
                                Some(Aware(now))))
  }

  lemma BeatIsExact(rows: seq<Host>, hostId: string, docker: Option<nat>, cpu: NonNegative, now: int)
    requires UniqueIds(rows)
    ensures BeatRows(rows, Beat(rows, hostId, docker, cpu, now), hostId, docker, cpu, now)
  {
  }

  /** Give back one slot of this host; no other row moves. */
  method DecrementActiveContainers(hosts: seq<WorkerHost>, hostId: string)
    requires DistinctHosts(hosts)
    modifies hosts
    ensures forall i :: 0 <= i < |hosts| ==>
      var was := old(hosts[i].Row());
      hosts[i].Row() == if was.hostId == hostId && was.active > 0 then was.(active := was.active - 1) else was
  {
    var k := Find(Rows(hosts), hostId);
    if k.Some? && hosts[k.value].active > 0 {
      ghost var before := Rows(hosts);
      hosts[k.value].active := hosts[k.value].active - 1;
      assert forall i :: 0 <= i < |hosts| ==> before[i].hostId == hosts[i].hostId;
    } else {
      assert forall i :: 0 <= i < |hosts| ==> Rows(hosts)[i].hostId == hosts[i].hostId;
    }
  }

  /** The four column writes of a heartbeat. */
  method Stamp(host: WorkerHost, live: nat, cpu: NonNegative, now: int)
    modifies host
    ensures host.Row() == Reconcile(old(host.Row()), live, cpu, now)
  {
    host.online := true;
    host.active := live;
    host.cpu := cpu;
    host.heartbeat := Some(Aware(now));
  }

  /** The row for this id, added with the column defaults when there is none. */
  method FindOrAdd(inv: Inventory, hostId: string) returns (host: WorkerHost, ghost at: nat)
    requires DistinctHosts(inv.hosts)
    modifies inv
    ensures at < |inv.hosts| && inv.hosts[at] == host
    ensures match Find(old(Rows(inv.hosts)), hostId)
      case Some(k) => at == k && inv.hosts == old(inv.hosts)
      case None => at == |old(inv.hosts)| && inv.hosts == old(inv.hosts) + [host]
                   && host.Row() == NewRow(hostId) && fresh(host)
  {
    var k := Find(Rows(inv.hosts), hostId);
    if k.None? {
      at := |inv.hosts|;
      host := new WorkerHost(hostId, 10);
      inv.hosts := inv.hosts + [host];
    } else {
      host, at := inv.hosts[k.value], k.value;
    }
  }

  /**
   * Upsert this host's row. `docker` is the live count, or None when Docker cannot be
   * asked, and then the last known count stands.
   */
  method PublishHeartbeat(inv: Inventory, hostId: string, docker: Option<nat>, cpu: NonNegative, now: int)
    requires DistinctHosts(inv.hosts)
    modifies inv, inv.hosts
    ensures Rows(inv.hosts) == Beat(old(Rows(inv.hosts)), hostId, docker, cpu, now)
    ensures BeatRows(old(Rows(inv.hosts)), Rows(inv.hosts), hostId, docker, cpu, now)
  {
    BeatIsExact(Rows(inv.hosts), hostId, docker, cpu, now);
    ghost var before := Rows(inv.hosts);
    assert forall i :: 0 <= i < |before| ==> before[i].hostId == inv.hosts[i].hostId;
    var liveCount: nat;
    if docker.Some? {
      liveCount := docker.value;
    } else {
      var cached := Find(Rows(inv.hosts), hostId);
      liveCount := if cached.Some? then inv.hosts[cached.value].active else 0;
    }
    var host, at := FindOrAdd(inv, hostId);
    assert forall i :: 0 <= i < |inv.hosts| && i != at ==> inv.hosts[i] != host;
    Stamp(host, liveCount, cpu, now);
    assert forall i :: 0 <= i < |before| && i != at ==> inv.hosts[i].Row() == before[i];
  }

  /** The execution row after `_set_status`; the timestamp moves only if something changed. */
  function WithStatus(r: Run, status: Status, target: Option<string>, url: Option<string>, now: int): Run {
    var s := r.(status := status,
                target := if target.Some? then target else r.target,
                artifactUrl := if url.Some? then url else r.artifactUrl);
    if s == r then r else s.(updatedAt := now)
  }

  /**
   * The row gets the status, and the target and URL when one is given; the timestamp moves only if
   * that changed something. No-op when the execution row does not exist.
   */
  method SetStatus(row: TestExecution?, status: Status, target: Option<string>, url: Option<string>, now: int)
    modifies if row == null then {} else {row}
    ensures row != null ==> row.Row() == WithStatus(old(row.Row()), status, target, url, now)
    ensures row != null ==>
      var was := old(row.Row());
      && row.status == status
      && (target.Some? ==> row.target == target) && (target.None? ==> row.target == was.target)
      && (url.Some? ==> row.artifactUrl == url) && (url.None? ==> row.artifactUrl == was.artifactUrl)
      && (row.updatedAt != was.updatedAt ==> row.updatedAt == now)
      && ((was.status, was.target, was.artifactUrl) != (row.status, row.target, row.artifactUrl) ==>
            row.updatedAt == now)
      && ((was.status, was.target, was.artifactUrl) == (row.status, row.target, row.artifactUrl) ==> row.Row() == was)
  {
    if row == null { return; }
    var changed := row.status != status || (target.Some? && row.target != target)
                   || (url.Some? && row.artifactUrl != url);
    row.status := status;
    if target.Some? { row.target := target; }
    if url.Some? { row.artifactUrl := url; }
    if changed { row.updatedAt := now; }
  }

  /** The row after the capability form: tags in normal form, and a cap of at least 1. */
  function Configured(h: Host, tagText: string, emulation: bool, maxContainers: int): Host {
    h.(tags := Tags.Normalise(tagText), emulation := emulation,
       cap := if maxContainers < 1 then 1 else maxContainers)
  }

  /**
   * A host so configured has exactly the tags the typed text denotes, stored one after the other
   * without empty or padded pieces, the emulation flag, and the cap asked for or else 1.
   */
  ghost predicate AsTyped(h: Host, c: Host, tagText: string, emulation: bool, maxContainers: int) {
    && (forall t :: Tags.IsTagOf(t, c.tags) <==> Tags.IsTagOf(t, tagText))
    && Tags.FormTags(c.tags) == Tags.FormTags(tagText)
    && (c.tags == "" || forall t :: t in Tags.Split(c.tags) ==> Tags.IsTagOf(t, tagText))
    && c == h.(tags := c.tags, emulation := emulation, cap := c.cap)
    && c.cap >= 1 && c.cap >= maxContainers && (c.cap == 1 || c.cap == maxContainers)
  }

  lemma ConfiguredMeaning(h: Host, tagText: string, emulation: bool, maxContainers: int)
    ensures AsTyped(h, Configured(h, tagText, emulation, maxContainers), tagText, emulation, maxContainers)
  {
    var stored := Tags.Normalise(tagText);
    Tags.NormalFormRoundTrip(tagText);
    forall t
      ensures Tags.IsTagOf(t, tagText) <==> t in Tags.FormTags(tagText)
      ensures Tags.IsTagOf(t, stored) <==> t in Tags.FormTags(stored)
    {
      Tags.TagSetMeaning(tagText, t);
      Tags.TagSetMeaning(stored, t);
      assert t in Tags.TagSet(tagText) <==> t in Tags.FormTags(tagText);
      assert t in Tags.TagSet(stored) <==> t in Tags.FormTags(stored);
    }
    if Tags.FormTags(tagText) == [] { Tags.JoinUndoesSplit(stored); }
  }

  /** The admin panel's capability form. */
  method UpdateHost(hosts: seq<WorkerHost>, hostId: string, tagText: string, emulation: bool, maxContainers: int)
    requires DistinctHosts(hosts)
    modifies hosts
    ensures forall i :: 0 <= i < |hosts| ==>
      var was := old(hosts[i].Row());
      if was.hostId == hostId then AsTyped(was, hosts[i].Row(), tagText, emulation, maxContainers)
      else hosts[i].Row() == was
  {
    var k := Find(Rows(hosts), hostId);
    ghost var before := Rows(hosts);
    assert forall i :: 0 <= i < |hosts| ==> before[i].hostId == hosts[i].hostId;
    if k.Some? {
      var host := hosts[k.value];
      ConfiguredMeaning(host.Row(), tagText, emulation, maxContainers);
      host.tags := Tags.Normalise(tagText);
      host.emulation := emulation;
      host.cap := if maxContainers < 1 then 1 else maxContainers;
    }
  }
}
