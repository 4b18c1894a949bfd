/** `submit_test`: from form text to a queued bundle and an execution row. */
module Submission {
  import opened Models
  import opened Scheduler
  import Tags

  /** The bundle a form makes; forms carry no hardware reservation. */
  function FormBundle(testId: string, tagText: string, emulation: bool): Bundle {
    Bundle(testId, Tags.FormTags(tagText), emulation, None)
  }

  /** What the form asks of a host, in terms of the raw text on both sides. */
  ghost predicate Suits(h: Host, tagText: string, emulation: bool) {
    && h.online && h.active < h.cap && (emulation ==> h.emulation)
    && forall t :: Tags.IsTagOf(t, tagText) ==> Tags.IsTagOf(t, h.tags)
  }

  /** h is the least loaded host that suits the form. */
  ghost predicate LeastLoaded(rows: seq<Host>, tagText: string, emulation: bool, h: Host) {
    && h in rows && Suits(h, tagText, emulation)
    && forall g :: g in rows && Suits(g, tagText, emulation) && g != h ==> Preferred(h, g)
  }

  /** b carries the id, the tags and the emulation flag of this form, and no reservation. */
  ghost predicate Carries(b: Bundle, testId: string, tagText: string, emulation: bool) {
    && b.testId == testId && b.requiresEmulation == emulation && b.reservation.None?
    && forall t :: t in b.requiredTags <==> Tags.IsTagOf(t, tagText)
  }

  lemma FormBundleCarries(testId: string, tagText: string, emulation: bool)
    ensures Carries(FormBundle(testId, tagText, emulation), testId, tagText, emulation)
  {
    forall t ensures t in Tags.FormTags(tagText) <==> Tags.IsTagOf(t, tagText) {
      Tags.TagSetMeaning(tagText, t);
      assert t in Tags.TagSet(tagText) <==> t in Tags.FormTags(tagText);
    }
  }

  /** One more job on h, and nothing else. */
  ghost predicate OneMoreOn(rows: seq<Host>, after: seq<Host>, h: Host) {
    && |after| == |rows|
    && forall i :: 0 <= i < |rows| ==>
         after[i] == if rows[i].hostId == h.hostId then rows[i].(active := rows[i].active + 1) else rows[i]
  }

  /** The bundle goes out: some host suits the form, the least loaded has a queue, and nothing raises. */
  ghost predicate GoesOut(rows: seq<Host>, tagText: string, emulation: bool, f: Faults) {
    f.commitOk && f.sendOk && exists h :: LeastLoaded(rows, tagText, emulation, h) && !Tags.AllSpace(h.hostId)
  }

  /** Which of the calls of a submission succeed: the two commits of its own, and those of `dispatch`. */
  datatype SubmitFaults = SubmitFaults(createOk: bool, dispatch: Faults, recordOk: bool)

  /** Dispatch the form's bundle. */
  method PlaceForm(hosts: seq<WorkerHost>, broker: Broker, testId: string, tagText: string,
                   emulation: bool, f: Faults) returns (r: DispatchResult, ghost h: Host, ghost b: Bundle)
    requires DistinctHosts(hosts)
    modifies hosts, broker
    ensures r.Sent? <==> GoesOut(old(Rows(hosts)), tagText, emulation, f)
    ensures !r.Sent? ==> broker.queues == old(broker.queues)
    ensures !r.Sent? && f.commitOk && (f.sendOk || f.undoOk) ==> Rows(hosts) == old(Rows(hosts))
    ensures r.Sent? ==>
      && r.hostId == h.hostId && LeastLoaded(old(Rows(hosts)), tagText, emulation, h)
      && Carries(b, testId, tagText, emulation) && OneMoreOn(old(Rows(hosts)), Rows(hosts), h)
      && broker.Queue("queue_" + h.hostId) == old(broker.Queue("queue_" + h.hostId)) + [b]
      && forall q :: q != "queue_" + h.hostId ==> broker.Queue(q) == old(broker.Queue(q))
  {
    var bundle := FormBundle(testId, tagText, emulation);
    ghost var rows := Rows(hosts);
    DistinctHostsHaveUniqueIds(hosts);
    BestSuits(rows, bundle, tagText);
    FormBundleCarries(testId, tagText, emulation);
    ghost var best := BestIndex(rows, bundle);
    b, h := bundle, if best.Some? then rows[best.value] else Host("", false, 0, 0, 0.0, "", false, None);
    r := Dispatch(hosts, broker, bundle, f);
  }

  /**
   * When its commits succeed, the run ends DISPATCHED exactly when its bundle went on the queue
   * of the least loaded suitable host, which has one job more; and FAILED with nothing queued
   * otherwise. A failing first commit leaves nothing at all; a failing last one leaves the run
   * PENDING and without a target, whatever became of its bundle.
   */
  method SubmitTest(hosts: seq<WorkerHost>, broker: Broker, testId: string, tagText: string,
                    emulation: bool, f: SubmitFaults, now: int) returns (execution: TestExecution?)
    requires DistinctHosts(hosts)
    modifies hosts, broker
    ensures execution == null <==> !f.createOk
    ensures execution == null ==> Rows(hosts) == old(Rows(hosts)) && broker.queues == old(broker.queues)
    ensures execution != null ==> fresh(execution) && execution.testId == testId && execution.reservation == None
    ensures execution != null ==> (execution.status.Pending? <==> !f.recordOk)
    ensures execution != null && !f.recordOk ==> execution.target.None?
    ensures execution != null && !GoesOut(old(Rows(hosts)), tagText, emulation, f.dispatch) ==>
      && broker.queues == old(broker.queues)
      && (f.dispatch.commitOk && (f.dispatch.sendOk || f.dispatch.undoOk) ==> Rows(hosts) == old(Rows(hosts)))
      && (f.recordOk ==> execution.status.Failed? && execution.target.None?)
    ensures execution != null && GoesOut(old(Rows(hosts)), tagText, emulation, f.dispatch) ==>
      exists h, b ::
        && LeastLoaded(old(Rows(hosts)), tagText, emulation, h) && Carries(b, testId, tagText, emulation)
        && OneMoreOn(old(Rows(hosts)), Rows(hosts), h)
        && broker.Queue("queue_" + h.hostId) == old(broker.Queue("queue_" + h.hostId)) + [b]
        && (forall q :: q != "queue_" + h.hostId ==> broker.Queue(q) == old(broker.Queue(q)))
        && (f.recordOk ==> execution.status.Dispatched? && execution.target == Some(h.hostId))
  {
    if !f.createOk {
      return null;
    }
    execution := new TestExecution(testId, None, now);
    var r, h, b := PlaceForm(hosts, broker, testId, tagText, emulation, f.dispatch);
    if f.recordOk {
      if r.Sent? {
        execution.status := Dispatched;
        execution.target := Some(r.hostId);
      } else {
        execution.status := Failed;
      }
      execution.updatedAt := now;
    }
  }

  /** The row `dispatch` picks for a form's bundle is the least loaded host that suits the form. */
  lemma BestSuits(rows: seq<Host>, b: Bundle, tagText: string)
    requires UniqueIds(rows) && b.requiredTags == Tags.FormTags(tagText)
    ensures var best := BestIndex(rows, b);
            forall h :: LeastLoaded(rows, tagText, b.requiresEmulation, h) <==> best.Some? && h == rows[best.value]
  {
    SuitsIsNeed(rows, b, tagText);
    forall h
      ensures LeastLoaded(rows, tagText, b.requiresEmulation, h)
              <==> BestIndex(rows, b).Some? && h == rows[BestIndex(rows, b).value]
    {
      ChoiceIsUniqueLeast(rows, b, h);
    }
  }

  /** With every host named, a submission whose calls succeed goes out exactly when some host suits it. */
  lemma SomeHostSuits(rows: seq<Host>, tagText: string, emulation: bool, f: Faults)
    requires UniqueIds(rows) && forall h :: h in rows ==> !Tags.AllSpace(h.hostId)
    ensures GoesOut(rows, tagText, emulation, f)
            <==> f.commitOk && f.sendOk && exists h :: h in rows && Suits(h, tagText, emulation)
  {
    var b := FormBundle("", tagText, emulation);
    SuitsIsNeed(rows, b, tagText);
    BestSuits(rows, b, tagText);
    BestIndexIsBest(rows, b);
    if BestIndex(rows, b).Some? { assert LeastLoaded(rows, tagText, emulation, rows[BestIndex(rows, b).value]); }
  }

  lemma SuitsIsNeed(rows: seq<Host>, b: Bundle, tagText: string)
    requires b.requiredTags == Tags.FormTags(tagText)
    ensures forall h :: h in rows ==> (CanTake(h, b) <==> Suits(h, tagText, b.requiresEmulation))
  {
    forall h | h in rows ensures CanTake(h, b) <==> Suits(h, tagText, b.requiresEmulation) {
      FilterIsSuits(h, b, tagText);
      FilterIsNeed(h, b);
    }
  }

  /** The filter on a form's bundle is plain inclusion of the tags the two texts denote. */
  lemma FilterIsSuits(h: Host, b: Bundle, tagText: string)
    requires b.requiredTags == Tags.FormTags(tagText)
    ensures PassesFilter(h, b) <==> Suits(h, tagText, b.requiresEmulation)
  {
    FilterOnStoredText(h, b, tagText);
  }
}
