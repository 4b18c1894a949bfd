/** How one host's container count evolves under reservations, releases and heartbeats. */
module Counter {
  import opened Models
  import opened Scheduler
  import opened Worker

  datatype Event =
    | Reserved
    | Released
    | Heartbeat(live: nat, cpu: NonNegative, now: int)

  /** The row updates themselves, one committed transaction each. */
  function Apply(h: Host, e: Event): Host {
    match e
    case Reserved => Reserve(h)
    case Released => ReleaseSlot(h)
    case Heartbeat(live, cpu, now) => Reconcile(h, live, cpu, now)
  }

  function After(h: Host, es: seq<Event>): Host {
    if es == [] then h else Apply(After(h, es[..|es| - 1]), es[|es| - 1])
  }

  function Change(e: Event): int {
    match e case Reserved => 1 case Released => -1 case Heartbeat(_, _, _) => 0
  }

  /** Reservations minus releases among the first k events. */
  function Net(es: seq<Event>, k: nat): int
    requires k <= |es|
  {
    if k == 0 then 0 else Net(es, k - 1) + Change(es[k - 1])
  }

  /** Releases that found the count at zero and did nothing. */
  function Wasted(h: Host, es: seq<Event>): nat {
    if es == [] then 0 else
      var front := es[..|es| - 1];
      Wasted(h, front) + if es[|es| - 1].Released? && After(h, front).active == 0 then 1 else 0
  }

  ghost predicate NoHeartbeat(es: seq<Event>) {
    forall i :: 0 <= i < |es| ==> !es[i].Heartbeat?
  }

  lemma {:induction false} NetOfPrefix(es: seq<Event>, m: nat, k: nat)
    requires k <= m <= |es|
    ensures Net(es[..m], k) == Net(es, k)
  {
    if k > 0 { NetOfPrefix(es, m, k - 1); }
  }

  /**
   * The clamped counter in closed form: the greater of L + S_n and the greatest S_n - S_k
   * with 1 <= k <= n. What it gained over L + S_n are exactly the releases that were no-ops.
   */
  lemma {:induction false} ClampedLaw(h: Host, es: seq<Event>)
    requires NoHeartbeat(es) && es != []
    ensures var n := |es|;
            var count := After(h, es).active;
            && count >= h.active + Net(es, n)
            && (forall k :: 1 <= k <= n ==> count >= Net(es, n) - Net(es, k))
            && (count == h.active + Net(es, n) || exists k :: 1 <= k <= n && count == Net(es, n) - Net(es, k))
            && count == h.active + Net(es, n) + Wasted(h, es)
  {
    var n := |es|;
    var front := es[..n - 1];
    NetOfPrefix(es, n - 1, n - 1);
    var count := After(h, es).active;
    if n > 1 {
      ClampedLaw(h, front);
      forall k | 1 <= k < n ensures Net(front, k) == Net(es, k) { NetOfPrefix(es, n - 1, k); }
    } else {
      assert front == [];
    }
    if After(h, front).active == 0 && es[n - 1].Released? {
      assert count == Net(es, n) - Net(es, n);
    } else if n > 1 && After(h, front).active != h.active + Net(front, n - 1) {
      var k :| 1 <= k <= n - 1 && After(h, front).active == Net(front, n - 1) - Net(front, k);
      assert count == Net(es, n) - Net(es, k);
    }
  }

  lemma {:induction false} AfterConcat(h: Host, es: seq<Event>, fs: seq<Event>)
    ensures After(h, es + fs) == After(After(h, es), fs)
  {
    if fs == [] {
      assert es + fs == es;
    } else {
      assert (es + fs)[..|es + fs| - 1] == es + fs[..|fs| - 1];
      AfterConcat(h, es, fs[..|fs| - 1]);
    }
  }

  /** Nothing before a heartbeat matters after it: the law starts afresh from its live count. */
  lemma HeartbeatForgets(g: Host, h: Host, es: seq<Event>, fs: seq<Event>, beat: Event, since: seq<Event>)
    requires beat.Heartbeat? && NoHeartbeat(since) && since != []
    ensures After(g, es + [beat] + since).active == After(h, fs + [beat] + since).active
    ensures var n := |since|;
            var count := After(g, es + [beat] + since).active;
            && count >= beat.live + Net(since, n)
            && (forall k :: 1 <= k <= n ==> count >= Net(since, n) - Net(since, k))
            && (count == beat.live + Net(since, n)
                || exists k :: 1 <= k <= n && count == Net(since, n) - Net(since, k))
  {
    AfterConcat(g, es + [beat], since);
    AfterConcat(h, fs + [beat], since);
    assert (es + [beat])[..|es|] == es && (fs + [beat])[..|fs|] == fs;
    ClampedLaw(After(g, es + [beat]), since);
    SameCountSameFuture(After(g, es + [beat]), After(h, fs + [beat]), since);
  }

  lemma {:induction false} SameCountSameFuture(g: Host, h: Host, es: seq<Event>)
    requires g.active == h.active
    ensures After(g, es).active == After(h, es).active
  {
    if es != [] { SameCountSameFuture(g, h, es[..|es| - 1]); }
  }

  function Gap(g: Host, h: Host): nat {
    if g.active <= h.active then h.active - g.active else g.active - h.active
  }

  lemma GapStep(g: Host, h: Host, e: Event)
    ensures Gap(Apply(g, e), Apply(h, e)) <= Gap(g, h)
  {
  }

  /** Two counters fed the same events never drift further apart. */
  lemma {:induction false} NeverFurtherApart(g: Host, h: Host, es: seq<Event>, more: seq<Event>)
    ensures Gap(After(g, es + more), After(h, es + more)) <= Gap(After(g, es), After(h, es))
  {
    if more == [] {
      assert es + more == es;
    } else {
      var front := more[..|more| - 1];
      assert (es + more)[..|es + more| - 1] == es + front;
      NeverFurtherApart(g, h, es, front);
      GapStep(After(g, es + front), After(h, es + front), more[|more| - 1]);
    }
  }
}
