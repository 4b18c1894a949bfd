/** Filter-and-rank worker selection, and the authoritative dispatch that reserves a slot. */
module Scheduler {
  import opened Models
  import Tags

  /** What a worker's queue is called, or None where the code raises on a blank id. */
  function QueueNameFor(hostId: string): Option<string> {
    if Tags.Strip(hostId) == "" then None else Some("queue_" + hostId)
  }

  /** Lower is better. */
  function WorkloadScore(h: Host): NonNegative {
    h.active as real * 20.0 + h.cpu
  }

  function RequiredTags(b: Bundle): set<string> {
    set t | t in b.requiredTags
  }

  predicate PassesFilter(h: Host, b: Bundle) {
    if !h.online then false
    else if h.active >= h.cap then false
    else if b.requiresEmulation && !h.emulation then false
    else if RequiredTags(b) != {} && !(RequiredTags(b) <= Tags.TagSet(h.tags)) then false
    else true
  }

  /** A blank id has no queue; any other names it. */
  lemma QueueNames(hostId: string)
    ensures QueueNameFor(hostId) == if Tags.AllSpace(hostId) then None else Some("queue_" + hostId)
  {
    if Tags.AllSpace(hostId) {
      Tags.StripIsUnique(hostId, "", 0, 0);
    } else {
      var a, b := Tags.StripTrims(hostId);
      Tags.SpaceOutside(hostId, Tags.Strip(hostId), a, b);
    }
  }

  // --- ranking ----------------------------------------------------------------

  /** Code point order on host ids. */
  predicate TextLess(a: string, b: string) {
    b != [] && (a == [] || a[0] < b[0] || (a[0] == b[0] && TextLess(a[1..], b[1..])))
  }

  /** The order of the keys (score, host_id). */
  predicate RankLess(g: Host, h: Host) {
    || WorkloadScore(g) < WorkloadScore(h)
    || (WorkloadScore(g) == WorkloadScore(h) && TextLess(g.hostId, h.hostId))
  }

  datatype RankedHost = RankedHost(hostId: string, score: NonNegative)

  function Survivors(hosts: seq<Host>, b: Bundle): seq<Host> {
    if hosts == [] then []
    else Survivors(hosts[..|hosts| - 1], b) +
         (if PassesFilter(hosts[|hosts| - 1], b) then [hosts[|hosts| - 1]] else [])
  }

  /** `min` over the ranking key: the first least element. */
  function MinByRank(hosts: seq<Host>): Host
    requires hosts != []
  {
    var last := hosts[|hosts| - 1];
    if |hosts| == 1 then last else
      var best := MinByRank(hosts[..|hosts| - 1]);
      if RankLess(last, best) then last else best
  }

  /** The read-only selection. */
  function SelectHost(hosts: seq<Host>, b: Bundle): Option<RankedHost> {
    var survivors := Survivors(hosts, b);
    if survivors == [] then None else
      var best := MinByRank(survivors);
      Some(RankedHost(best.hostId, WorkloadScore(best)))
  }

  /** The position of the row `dispatch` reserves: the same filter and minimum, in one pass. */
  function BestIndex(hosts: seq<Host>, b: Bundle): (best: Option<nat>)
    ensures best.Some? ==> best.value < |hosts| && PassesFilter(hosts[best.value], b)
  {
    if hosts == [] then None else
      var last := |hosts| - 1;
      var best := BestIndex(hosts[..last], b);
      if !PassesFilter(hosts[last], b) then best
      else if best.None? || RankLess(hosts[last], hosts[best.value]) then Some(last)
      else best
  }

  // --- the order is total ---------------------------------------------------------

  lemma {:induction false} TextLessTotal(a: string, b: string)
    ensures TextLess(a, b) || TextLess(b, a) || a == b
    ensures !(TextLess(a, b) && TextLess(b, a))
    ensures !TextLess(a, a)
  {
    if a != [] {
      if b != [] && a[0] == b[0] {
        TextLessTotal(a[1..], b[1..]);
        assert a == [a[0]] + a[1..] && b == [b[0]] + b[1..];
      } else {
        TextLessTotal(a[1..], a[1..]);
      }
    }
  }

  lemma {:induction false} TextLessTransitive(a: string, b: string, c: string)
    requires TextLess(a, b) && TextLess(b, c)
    ensures TextLess(a, c)
  {
    if a != [] && a[0] == b[0] == c[0] { TextLessTransitive(a[1..], b[1..], c[1..]); }
  }

  lemma RankLessTransitive(f: Host, g: Host, h: Host)
    requires RankLess(f, g) && RankLess(g, h)
    ensures RankLess(f, h)
  {
    if WorkloadScore(f) == WorkloadScore(g) == WorkloadScore(h) {
      TextLessTransitive(f.hostId, g.hostId, h.hostId);
    }
  }

  /** h passes, and every other passing row ranks strictly after it. */
  ghost predicate RanksFirst(hosts: seq<Host>, b: Bundle, h: Host) {
    && h in hosts && PassesFilter(h, b)
    && forall g :: g in hosts && PassesFilter(g, b) && g != h ==> RankLess(h, g)
  }

  lemma {:induction false} BestIndexRanksFirst(hosts: seq<Host>, b: Bundle)
    requires UniqueIds(hosts)
    ensures match BestIndex(hosts, b)
      case None => forall h :: h in hosts ==> !PassesFilter(h, b)
      case Some(k) => RanksFirst(hosts, b, hosts[k])
  {
    if hosts != [] {
      var last := |hosts| - 1;
      var front := hosts[..last];
      BestIndexRanksFirst(front, b);
      var best := BestIndex(front, b);
      if PassesFilter(hosts[last], b) && best.Some? {
        var h := front[best.value];
        TextLessTotal(h.hostId, hosts[last].hostId);
        if RankLess(hosts[last], h) {
          forall g | g in front && PassesFilter(g, b) ensures RankLess(hosts[last], g) {
            if g != h { RankLessTransitive(hosts[last], h, g); }
          }
        }
      }
    }
  }

  // --- the choice in terms of the rows ---------------------------------------------

  /** What a job needs of a host. */
  ghost predicate CanTake(h: Host, b: Bundle) {
    && h.online && h.active < h.cap && (b.requiresEmulation ==> h.emulation)
    && forall t :: t in b.requiredTags ==> Tags.IsTagOf(t, h.tags)
  }

  /** a is a prefix of b, or smaller where they first differ. */
  ghost predicate NotAfter(a: string, b: string) {
    a <= b || exists k :: 0 <= k < |a| && k < |b| && a[..k] == b[..k] && a[k] < b[k]
  }

  /** g is less loaded than h, a container weighing as much as 20 percent CPU; the id breaks ties. */
  ghost predicate Preferred(g: Host, h: Host) {
    var more := 20.0 * (g.active - h.active) as real;
    more < h.cpu - g.cpu || (more == h.cpu - g.cpu && g.hostId != h.hostId && NotAfter(g.hostId, h.hostId))
  }

  /** h can take the job, and is preferred to every other host that can. */
  ghost predicate IsBest(hosts: seq<Host>, b: Bundle, h: Host) {
    && h in hosts && CanTake(h, b)
    && forall g :: g in hosts && CanTake(g, b) && g != h ==> Preferred(h, g)
  }

  lemma FilterIsNeed(h: Host, b: Bundle)
    ensures PassesFilter(h, b) <==> CanTake(h, b)
  {
    forall t ensures Tags.IsTagOf(t, h.tags) <==> t in Tags.TagSet(h.tags) { Tags.TagSetMeaning(h.tags, t); }
    assert forall t :: t in RequiredTags(b) <==> t in b.requiredTags;
  }

  lemma {:induction false} TextLessMeaning(a: string, b: string)
    ensures TextLess(a, b) <==> a != b && NotAfter(a, b)
  {
    if a != [] && b != [] && a[0] == b[0] {
      TextLessMeaning(a[1..], b[1..]);
      assert a == [a[0]] + a[1..] && b == [b[0]] + b[1..];
      if k :| 0 <= k < |a| && k < |b| && a[..k] == b[..k] && a[k] < b[k] {
        assert a[1..][..k - 1] == a[..k][1..] && b[1..][..k - 1] == b[..k][1..];
        assert a[1..][k - 1] < b[1..][k - 1];
      }
      if k :| 0 <= k < |a[1..]| && k < |b[1..]| && a[1..][..k] == b[1..][..k] && a[1..][k] < b[1..][k] {
        assert a[..k + 1] == [a[0]] + a[1..][..k] && b[..k + 1] == [b[0]] + b[1..][..k];
        assert a[k + 1] < b[k + 1];
      }
    } else if a != [] && b != [] {
      assert a[..0] == b[..0];
    }
  }

  lemma RankIsPreference(g: Host, h: Host)
    ensures RankLess(g, h) <==> Preferred(g, h)
  {
    TextLessMeaning(g.hostId, h.hostId);
  }

  lemma BestRanksFirst(hosts: seq<Host>, b: Bundle, h: Host)
    ensures RanksFirst(hosts, b, h) <==> IsBest(hosts, b, h)
  {
    FilterIsNeed(h, b);
    forall g ensures PassesFilter(g, b) <==> CanTake(g, b) { FilterIsNeed(g, b); }
    forall g ensures RankLess(h, g) <==> Preferred(h, g) { RankIsPreference(h, g); }
  }

  /** The row chosen is the best one on these terms; none is chosen exactly when none can take the job. */
  lemma BestIndexIsBest(hosts: seq<Host>, b: Bundle)
    requires UniqueIds(hosts)
    ensures match BestIndex(hosts, b)
      case None => forall h :: h in hosts ==> !CanTake(h, b)
      case Some(k) => IsBest(hosts, b, hosts[k])
  {
    BestIndexRanksFirst(hosts, b);
    match BestIndex(hosts, b)
    case None => forall h | h in hosts ensures !CanTake(h, b) { FilterIsNeed(h, b); }
    case Some(k) => BestRanksFirst(hosts, b, hosts[k]);
  }

  lemma {:induction false} MinByRankOfSurvivors(hosts: seq<Host>, b: Bundle)
    ensures match BestIndex(hosts, b)
      case None => Survivors(hosts, b) == []
      case Some(k) => Survivors(hosts, b) != [] && MinByRank(Survivors(hosts, b)) == hosts[k]
  {
    if hosts != [] {
      var last := |hosts| - 1;
      var front := Survivors(hosts[..last], b);
      MinByRankOfSurvivors(hosts[..last], b);
      if PassesFilter(hosts[last], b) {
        var all := front + [hosts[last]];
        assert Survivors(hosts, b) == all && all[..|front|] == front;
        if front == [] { assert |all| == 1; }
      } else {
        assert Survivors(hosts, b) == front;
      }
    }
  }

  lemma BestIsUnique(hosts: seq<Host>, b: Bundle, g: Host, h: Host)
    requires IsBest(hosts, b, g) && IsBest(hosts, b, h)
    ensures g == h
  {
    BestRanksFirst(hosts, b, g);
    BestRanksFirst(hosts, b, h);
    TextLessTotal(g.hostId, h.hostId);
  }

  /** Dispatch and the read-only selection agree, on the one host that is best and on its load. */
  lemma ChoiceIsUniqueLeast(hosts: seq<Host>, b: Bundle, h: Host)
    requires UniqueIds(hosts)
    ensures IsBest(hosts, b, h) <==> BestIndex(hosts, b).Some? && h == hosts[BestIndex(hosts, b).value]
    ensures SelectHost(hosts, b) ==
            match BestIndex(hosts, b)
              case None => None
              case Some(k) => Some(RankedHost(hosts[k].hostId, 20.0 * hosts[k].active as real + hosts[k].cpu))
  {
    BestIndexIsBest(hosts, b);
    MinByRankOfSurvivors(hosts, b);
    if IsBest(hosts, b, h) {
      BestIsUnique(hosts, b, h, hosts[BestIndex(hosts, b).value]);
    }
  }

  /** The order in which the database returns the rows does not matter. */
  lemma ChoiceIgnoresRowOrder(hosts: seq<Host>, shuffled: seq<Host>, b: Bundle)
    requires UniqueIds(hosts) && UniqueIds(shuffled)
    requires multiset(hosts) == multiset(shuffled)
    ensures SelectHost(hosts, b) == SelectHost(shuffled, b)
    ensures BestIndex(hosts, b).Some? <==> BestIndex(shuffled, b).Some?
    ensures BestIndex(hosts, b).Some? ==>
      hosts[BestIndex(hosts, b).value] == shuffled[BestIndex(shuffled, b).value]
  {
    SameMembers(hosts, shuffled);
    NoneOrSome(hosts, b);
    NoneOrSome(shuffled, b);
    if BestIndex(hosts, b).Some? { ShuffledBest(hosts, shuffled, b, BestIndex(hosts, b).value); }
  }

  lemma SameMembers(hosts: seq<Host>, shuffled: seq<Host>)
    requires multiset(hosts) == multiset(shuffled)
    ensures forall h :: h in hosts <==> h in shuffled
  {
    forall h ensures h in hosts <==> h in shuffled {
      assert h in hosts <==> h in multiset(hosts);
      assert h in shuffled <==> h in multiset(shuffled);
    }
  }

  lemma ShuffledBest(hosts: seq<Host>, shuffled: seq<Host>, b: Bundle, k: nat)
    requires UniqueIds(hosts) && UniqueIds(shuffled) && BestIndex(hosts, b) == Some(k)
    requires forall h :: h in hosts <==> h in shuffled
    ensures BestIndex(shuffled, b).Some? && hosts[k] == shuffled[BestIndex(shuffled, b).value]
  {
    ChoiceIsUniqueLeast(hosts, b, hosts[k]);
    assert IsBest(shuffled, b, hosts[k]);
    ChoiceIsUniqueLeast(shuffled, b, hosts[k]);
  }

  lemma NoneOrSome(hosts: seq<Host>, b: Bundle)
    requires UniqueIds(hosts)
    ensures SelectHost(hosts, b) ==
            match BestIndex(hosts, b)
              case None => None
              case Some(k) => Some(RankedHost(hosts[k].hostId, 20.0 * hosts[k].active as real + hosts[k].cpu))
    ensures BestIndex(hosts, b).None? <==> forall h :: h in hosts ==> !CanTake(h, b)
  {
    BestIndexIsBest(hosts, b);
    MinByRankOfSurvivors(hosts, b);
  }

  // --- the tag filter on form text ---------------------------------------------

  /** On a bundle built from form text, the tag phase is inclusion of the tags two texts denote. */
  lemma FilterOnStoredText(h: Host, b: Bundle, formText: string)
    requires b.requiredTags == Tags.FormTags(formText)
    ensures PassesFilter(h, b) <==>
            && h.online && h.active < h.cap && (b.requiresEmulation ==> h.emulation)
            && forall t :: Tags.IsTagOf(t, formText) ==> Tags.IsTagOf(t, h.tags)
  {
    assert RequiredTags(b) == Tags.TagSet(formText);
    forall t
      ensures Tags.IsTagOf(t, formText) <==> t in Tags.TagSet(formText)
      ensures Tags.IsTagOf(t, h.tags) <==> t in Tags.TagSet(h.tags)
    {
      Tags.TagSetMeaning(formText, t);
      Tags.TagSetMeaning(h.tags, t);
    }
  }

  /** And of the raw texts, when the host's stored tags are what an admin typed, normalised. */
  lemma TagFilterOnText(h: Host, hostText: string, b: Bundle, formText: string)
    requires h.tags == Tags.Normalise(hostText) && b.requiredTags == Tags.FormTags(formText)
    ensures PassesFilter(h, b) <==>
            && h.online && h.active < h.cap && (b.requiresEmulation ==> h.emulation)
            && forall t :: Tags.IsTagOf(t, formText) ==> Tags.IsTagOf(t, hostText)
  {
    FilterOnStoredText(h, b, formText);
    Tags.NormalFormRoundTrip(hostText);
    forall t ensures Tags.IsTagOf(t, h.tags) <==> Tags.IsTagOf(t, hostText) {
      Tags.TagSetMeaning(hostText, t);
      Tags.TagSetMeaning(h.tags, t);
    }
  }

  // --- the row updates -------------------------------------------------------------

  /** `active_containers += 1`. */
  function Reserve(h: Host): Host {
    h.(active := h.active + 1)
  }

  /** `active_containers -= 1`, never below zero. */
  function ReleaseSlot(h: Host): Host {
    if h.active > 0 then h.(active := h.active - 1) else h
  }

  /** One dispatch whose commit and send succeed. */
  function Place(hosts: seq<Host>, b: Bundle): seq<Host> {
    match BestIndex(hosts, b)
    case None => hosts
    case Some(k) => hosts[k := Reserve(hosts[k])]
  }

  /** A worker process refuses to start under a blank id, so every registered host has a queue. */
  ghost predicate NamedQueues(hosts: seq<Host>) {
    forall i :: 0 <= i < |hosts| ==> QueueNameFor(hosts[i].hostId).Some?
  }

  // --- dispatch ----------------------------------------------------------------------

  datatype DispatchResult = NoHost | Sent(hostId: string) | Raised

  /** Which of the fallible calls succeed; `undoOk` covers the rollback, re-read and commit. */
  datatype Faults = Faults(commitOk: bool, sendOk: bool, undoOk: bool)

  class Broker {
    var queues: map<string, seq<Bundle>>

    constructor ()
      ensures queues == map[]
    {
      queues := map[];
    }

    function Queue(name: string): seq<Bundle>
      reads this
    {
      if name in queues then queues[name] else []
    }

    method Send(name: string, bundle: Bundle)
      modifies this
      ensures Queue(name) == old(Queue(name)) + [bundle]
      ensures forall other :: other != name ==> Queue(other) == old(Queue(other))
    {
      queues := queues[name := Queue(name) + [bundle]];
    }
  }

  /** The row left behind once a host has been chosen. */
  function AfterAttempt(h: Host, f: Faults): Host {
    if !f.commitOk then if f.undoOk then ReleaseSlot(h) else h
    else if f.sendOk || !f.undoOk then Reserve(h)
    else h
  }

  /** Reserve, commit and send for the chosen row, undoing the reservation if that raises. */
  method Attempt(chosen: WorkerHost, broker: Broker, queue: string, bundle: Bundle, f: Faults)
    returns (r: DispatchResult)
    modifies chosen, broker
    ensures chosen.Row() == AfterAttempt(old(chosen.Row()), f)
    ensures r == if f.commitOk && f.sendOk then Sent(chosen.hostId) else Raised
    ensures r.Sent? ==> broker.Queue(queue) == old(broker.Queue(queue)) + [bundle]
    ensures r.Sent? ==> forall q :: q != queue ==> broker.Queue(q) == old(broker.Queue(q))
    ensures !r.Sent? ==> broker.queues == old(broker.queues)
  {
    var committed := chosen.active;
    chosen.active := chosen.active + 1;
    if f.commitOk && f.sendOk {
      broker.Send(queue, bundle);
      return Sent(chosen.hostId);
    }
    if !f.commitOk {
      chosen.active := committed;  // rolled back: the increment never reached the table
    }
    if f.undoOk && chosen.active > 0 {
      chosen.active := chosen.active - 1;
    }
    r := Raised;
  }

  /**
   * Select, reserve, commit, send, and compensate. Only the chosen row can change; the
   * bundle is queued, on that host's queue, exactly when the call reports the host.
   */
  method Dispatch(hosts: seq<WorkerHost>, broker: Broker, bundle: Bundle, f: Faults)
    returns (r: DispatchResult)
    requires DistinctHosts(hosts)
    modifies hosts, broker
    ensures match BestIndex(old(Rows(hosts)), bundle)
      case None =>
        && r.NoHost? && Rows(hosts) == old(Rows(hosts)) && broker.queues == old(broker.queues)
        && forall h :: h in old(Rows(hosts)) ==> !CanTake(h, bundle)
      case Some(k) =>
        var was := old(Rows(hosts))[k];
        var blank, name := Tags.AllSpace(was.hostId), "queue_" + was.hostId;
        && IsBest(old(Rows(hosts)), bundle, was)
        && Rows(hosts) == old(Rows(hosts))[k := was.(active :=
             if blank then was.active
             else if f.commitOk then if f.sendOk || !f.undoOk then was.active + 1 else was.active
             else if f.undoOk && was.active > 0 then was.active - 1 else was.active)]
        && r == (if !blank && f.commitOk && f.sendOk then Sent(was.hostId) else Raised)
        && (r.Sent? ==> broker.Queue(name) == old(broker.Queue(name)) + [bundle])
        && (r.Sent? ==> forall q :: q != name ==> broker.Queue(q) == old(broker.Queue(q)))
        && (!r.Sent? ==> broker.queues == old(broker.queues))
    ensures NamedQueues(old(Rows(hosts))) && f.commitOk && f.sendOk ==>
      Rows(hosts) == Place(old(Rows(hosts)), bundle)
  {
    DistinctHostsHaveUniqueIds(hosts);
    BestIndexIsBest(Rows(hosts), bundle);
    var best := BestIndex(Rows(hosts), bundle);
    if best.None? {
      return NoHost;
    }
    var chosen := hosts[best.value];
    assert chosen.Row() == Rows(hosts)[best.value];
    var targetQueue := QueueNameFor(chosen.hostId);
    QueueNames(chosen.hostId);
    if targetQueue.None? {
      return Raised;
    }
    r := Attempt(chosen, broker, targetQueue.value, bundle, f);
    assert forall i :: 0 <= i < |hosts| && i != best.value ==> hosts[i] != chosen;
    assert Rows(hosts)[best.value] == chosen.Row();
  }

  /** Only the count moves. A failed send leaves the inventory as it was; a failed commit takes one slot too many. */
  lemma FaultLaws(h: Host, f: Faults)
    ensures AfterAttempt(h, f) == h.(active := AfterAttempt(h, f).active)
    ensures AfterAttempt(h, f) == h <==>
            (f.commitOk && !f.sendOk && f.undoOk) || (!f.commitOk && (!f.undoOk || h.active == 0))
    ensures AfterAttempt(h, f).active == h.active + 1 <==> f.commitOk && (f.sendOk || !f.undoOk)
    ensures AfterAttempt(h, f).active < h.active <==> !f.commitOk && f.undoOk && h.active > 0
  {
  }
}
