/** What a run of dispatches with the same requirements achieves. */
module Placement {
  import opened Models
  import opened Scheduler
  import Tags

  /** The filter without its capacity phase. */
  ghost predicate Meets(h: Host, b: Bundle) {
    h.online && (b.requiresEmulation ==> h.emulation) && RequiredTags(b) <= Tags.TagSet(h.tags)
  }

  ghost predicate SameRequirements(bs: seq<Bundle>, b: Bundle) {
    forall i :: 0 <= i < |bs| ==>
      RequiredTags(bs[i]) == RequiredTags(b) && bs[i].requiresEmulation == b.requiresEmulation
  }

  /** The inventory after dispatching bs in order, every commit and send succeeding. */
  function PlaceAll(hosts: seq<Host>, bs: seq<Bundle>): seq<Host> {
    if bs == [] then hosts else Place(PlaceAll(hosts, bs[..|bs| - 1]), bs[|bs| - 1])
  }

  /** How many of bs were given a host. */
  function Accepted(hosts: seq<Host>, bs: seq<Bundle>): nat {
    if bs == [] then 0 else
      var front := bs[..|bs| - 1];
      Accepted(hosts, front) + if BestIndex(PlaceAll(hosts, front), bs[|bs| - 1]).Some? then 1 else 0
  }

  // --- arbitrary placements ------------------------------------------------------

  /** extra[i] more jobs on host i. */
  function Load(hosts: seq<Host>, extra: seq<nat>): seq<Host>
    requires |extra| == |hosts|
  {
    seq(|hosts|, i requires 0 <= i < |hosts| => hosts[i].(active := hosts[i].active + extra[i]))
  }

  /** Jobs go only to hosts that meet the requirements, and never past a cap. */
  ghost predicate IsPlacement(hosts: seq<Host>, b: Bundle, extra: seq<nat>) {
    && |extra| == |hosts|
    && forall i :: 0 <= i < |hosts| && extra[i] > 0 ==>
         Meets(hosts[i], b) && hosts[i].active + extra[i] <= hosts[i].cap
  }

  /** The highest workload score among hosts meeting the requirements; 0 when there are none. */
  ghost function Peak(hosts: seq<Host>, b: Bundle): NonNegative {
    if hosts == [] then 0.0 else
      var last := hosts[|hosts| - 1];
      var front := Peak(hosts[..|hosts| - 1], b);
      if Meets(last, b) && WorkloadScore(last) > front then WorkloadScore(last) else front
  }

  /** One more dispatch on top of the jobs already given. */
  function GiveOne(hosts: seq<Host>, given: seq<nat>, b: Bundle): (more: seq<nat>)
    requires |given| == |hosts|
    ensures |more| == |hosts|
  {
    match BestIndex(Load(hosts, given), b)
    case None => given
    case Some(k) => given[k := given[k] + 1]
  }

  /** The jobs the run has given each host. */
  function Given(hosts: seq<Host>, bs: seq<Bundle>): (given: seq<nat>)
    ensures |given| == |hosts|
  {
    if bs == [] then seq(|hosts|, i => 0) else GiveOne(hosts, Given(hosts, bs[..|bs| - 1]), bs[|bs| - 1])
  }

  function SpareSlots(h: Host, b: Bundle): nat {
    if PassesFilter(h, b) then h.cap - h.active else 0
  }

  /** The free slots on the hosts that meet the requirements. */
  function TotalSpare(hosts: seq<Host>, b: Bundle): nat {
    if hosts == [] then 0 else TotalSpare(hosts[..|hosts| - 1], b) + SpareSlots(hosts[|hosts| - 1], b)
  }

  // --- sums ------------------------------------------------------------------------

  lemma {:induction false} SumUpdate(xs: seq<nat>, k: nat, x: nat)
    requires k < |xs|
    ensures Sum(xs[k := x]) + xs[k] == Sum(xs) + x
  {
    var last := |xs| - 1;
    if k == last {
      assert xs[k := x][..last] == xs[..last];
    } else {
      assert xs[k := x][..last] == xs[..last][k := x];
      SumUpdate(xs[..last], k, x);
    }
  }

  /** If ys nowhere exceeds xs then it sums to no more, and to less where it is smaller. */
  lemma {:induction false} SumMonotone(xs: seq<nat>, ys: seq<nat>)
    requires |xs| == |ys|
    requires forall j :: 0 <= j < |xs| ==> ys[j] <= xs[j]
    ensures Sum(ys) <= Sum(xs)
    ensures Sum(ys) == Sum(xs) ==> ys == xs
  {
    if xs != [] {
      var last := |xs| - 1;
      SumMonotone(xs[..last], ys[..last]);
      assert xs == xs[..last] + [xs[last]] && ys == ys[..last] + [ys[last]];
    }
  }

  lemma {:induction false} TotalSpareUpdate(hosts: seq<Host>, b: Bundle, k: nat, h: Host)
    requires k < |hosts|
    ensures TotalSpare(hosts[k := h], b) + SpareSlots(hosts[k], b) == TotalSpare(hosts, b) + SpareSlots(h, b)
  {
    var last := |hosts| - 1;
    if k == last {
      assert hosts[k := h][..last] == hosts[..last];
    } else {
      assert hosts[k := h][..last] == hosts[..last][k := h];
      TotalSpareUpdate(hosts[..last], b, k, h);
    }
  }

  lemma {:induction false} NoSpare(hosts: seq<Host>, b: Bundle)
    ensures TotalSpare(hosts, b) == 0 <==> forall h :: h in hosts ==> !PassesFilter(h, b)
  {
    if hosts != [] {
      var last := |hosts| - 1;
      NoSpare(hosts[..last], b);
      assert hosts == hosts[..last] + [hosts[last]];
    }
  }

  // --- the run, one dispatch at a time -------------------------------------------------

  /** The filter depends on a bundle only through its requirements. */
  lemma FilterByRequirements(h: Host, b: Bundle, c: Bundle)
    requires SameRequirements([c], b)
    ensures PassesFilter(h, b) <==> Meets(h, b) && h.active < h.cap
    ensures PassesFilter(h, c) <==> PassesFilter(h, b)
  {
    assert [c][0] == c;
  }

  /** Reserving a slot on host k of a load is one more job for k. */
  lemma LoadOneMore(hosts: seq<Host>, given: seq<nat>, k: nat)
    requires |given| == |hosts| && k < |hosts|
    ensures Load(hosts, given)[k := Reserve(Load(hosts, given)[k])] == Load(hosts, given[k := given[k] + 1])
  {
  }

  lemma LoadKeepsIds(hosts: seq<Host>, given: seq<nat>)
    requires |given| == |hosts| && UniqueIds(hosts)
    ensures UniqueIds(Load(hosts, given))
  {
  }

  /** One more dispatch, seen as one more job (or none) on the load so far. */
  lemma PlaceIsGiveOne(hosts: seq<Host>, given: seq<nat>, b: Bundle)
    requires |given| == |hosts|
    ensures Place(Load(hosts, given), b) == Load(hosts, GiveOne(hosts, given, b))
    ensures Sum(GiveOne(hosts, given, b)) == Sum(given) + if BestIndex(Load(hosts, given), b).Some? then 1 else 0
  {
    match BestIndex(Load(hosts, given), b)
    case None =>
    case Some(k) =>
      LoadOneMore(hosts, given, k);
      SumUpdate(given, k, given[k] + 1);
  }

  lemma {:induction false} RunIsLoad(hosts: seq<Host>, bs: seq<Bundle>)
    ensures PlaceAll(hosts, bs) == Load(hosts, Given(hosts, bs))
    ensures Accepted(hosts, bs) == Sum(Given(hosts, bs))
  {
    if bs == [] {
      AllZero(|hosts|);
    } else {
      var front := bs[..|bs| - 1];
      RunIsLoad(hosts, front);
      PlaceIsGiveOne(hosts, Given(hosts, front), bs[|bs| - 1]);
    }
  }

  lemma RunFrame(hosts: seq<Host>, bs: seq<Bundle>)
    requires UniqueIds(hosts)
    ensures PlaceAll(hosts, bs) == Load(hosts, Given(hosts, bs))
    ensures Accepted(hosts, bs) == Sum(Given(hosts, bs))
    ensures UniqueIds(PlaceAll(hosts, bs))
  {
    RunIsLoad(hosts, bs);
    LoadKeepsIds(hosts, Given(hosts, bs));
  }

  lemma {:induction false} AllZero(n: nat)
    ensures Sum(seq(n, i => 0)) == 0
  {
    if n > 0 {
      AllZero(n - 1);
      assert seq(n, i => 0)[..n - 1] == seq(n - 1, i => 0);
    }
  }

  /** The run's own placement respects requirements and caps. */
  lemma {:induction false} GivenIsPlacement(hosts: seq<Host>, bs: seq<Bundle>, b: Bundle)
    requires UniqueIds(hosts) && SameRequirements(bs, b)
    ensures IsPlacement(hosts, b, Given(hosts, bs))
  {
    if bs != [] {
      var front, c := bs[..|bs| - 1], bs[|bs| - 1];
      GivenIsPlacement(hosts, front, b);
      RunFrame(hosts, front);
      var before := PlaceAll(hosts, front);
      match BestIndex(before, c) {
        case None =>
        case Some(k) => FilterByRequirements(before[k], b, c);
      }
    }
  }

  /** Exactly the first TotalSpare dispatches find a host; no free slot is ever passed over. */
  lemma {:induction false} ExactAdmission(hosts: seq<Host>, bs: seq<Bundle>, b: Bundle)
    requires UniqueIds(hosts) && SameRequirements(bs, b)
    ensures Accepted(hosts, bs) == if |bs| <= TotalSpare(hosts, b) then |bs| else TotalSpare(hosts, b)
    ensures TotalSpare(PlaceAll(hosts, bs), b) == TotalSpare(hosts, b) - Accepted(hosts, bs)
  {
    if bs != [] {
      var front, c := bs[..|bs| - 1], bs[|bs| - 1];
      ExactAdmission(hosts, front, b);
      RunFrame(hosts, front);
      var before := PlaceAll(hosts, front);
      BestIndexRanksFirst(before, c);
      NoSpare(before, b);
      match BestIndex(before, c) {
        case None =>
          forall h | h in before ensures !PassesFilter(h, b) { FilterByRequirements(h, b, c); }
        case Some(k) =>
          FilterByRequirements(before[k], b, c);
          TotalSpareUpdate(before, b, k, Reserve(before[k]));
      }
    }
  }

  /** i is at most one job (20) above j, if j is still open. */
  ghost predicate WithinOneJob(hosts: seq<Host>, b: Bundle, i: nat, j: nat)
    requires i < |hosts| && j < |hosts|
  {
    PassesFilter(hosts[j], b) ==> WorkloadScore(hosts[i]) <= WorkloadScore(hosts[j]) + 20.0
  }

  lemma PlaceKeepsBalance(hosts: seq<Host>, c: Bundle, b: Bundle, i: nat, j: nat)
    requires UniqueIds(hosts) && SameRequirements([c], b) && i < |hosts| && j < |hosts|
    requires BestIndex(hosts, c) == Some(i) || WithinOneJob(hosts, b, i, j)
    ensures |Place(hosts, c)| == |hosts| && WithinOneJob(Place(hosts, c), b, i, j)
  {
    BestIndexRanksFirst(hosts, c);
    FilterByRequirements(hosts[j], b, c);
    assert hosts[j] in hosts;
    assert forall k :: 0 <= k < |hosts| ==> PassesFilter(Reserve(hosts[k]), b) ==> PassesFilter(hosts[k], b);
  }

  /** A host the run has used scores at most one job (20) above any host still open. */
  lemma {:induction false} Balance(hosts: seq<Host>, bs: seq<Bundle>, b: Bundle, i: nat, j: nat)
    requires UniqueIds(hosts) && SameRequirements(bs, b)
    requires i < |hosts| && j < |hosts| && Given(hosts, bs)[i] > 0
    ensures |PlaceAll(hosts, bs)| == |hosts| && WithinOneJob(PlaceAll(hosts, bs), b, i, j)
  {
    if bs != [] {
      var front, c := bs[..|bs| - 1], bs[|bs| - 1];
      RunFrame(hosts, front);
      if Given(hosts, front)[i] > 0 { Balance(hosts, front, b, i, j); }
      PlaceKeepsBalance(PlaceAll(hosts, front), c, b, i, j);
    }
  }

  lemma {:induction false} PeakBounds(hosts: seq<Host>, b: Bundle, i: nat)
    requires i < |hosts| && Meets(hosts[i], b)
    ensures WorkloadScore(hosts[i]) <= Peak(hosts, b)
  {
    if i < |hosts| - 1 { PeakBounds(hosts[..|hosts| - 1], b, i); }
  }

  lemma {:induction false} PeakIsReached(hosts: seq<Host>, b: Bundle)
    ensures Peak(hosts, b) == 0.0 ||
      exists i :: 0 <= i < |hosts| && Meets(hosts[i], b) && WorkloadScore(hosts[i]) == Peak(hosts, b)
  {
    if hosts != [] { PeakIsReached(hosts[..|hosts| - 1], b); }
  }

  /** Placing fewer jobs on i than given means placing more on some other host. */
  lemma Pigeonhole(given: seq<nat>, extra: seq<nat>, i: nat) returns (j: nat)
    requires |given| == |extra| && i < |given| && extra[i] < given[i] && Sum(extra) == Sum(given)
    ensures j < |given| && extra[j] > given[j]
  {
    if forall k :: 0 <= k < |given| ==> extra[k] <= given[k] { SumMonotone(given, extra); }
    j :| 0 <= j < |given| && extra[j] > given[j];
  }

  /** A host the run loaded more than the rival did is outscored by some host of the rival. */
  lemma RivalPaysElsewhere(hosts: seq<Host>, bs: seq<Bundle>, b: Bundle, extra: seq<nat>, i: nat)
    requires UniqueIds(hosts) && SameRequirements(bs, b)
    requires IsPlacement(hosts, b, extra) && Sum(extra) == Sum(Given(hosts, bs))
    requires i < |hosts| && extra[i] < Given(hosts, bs)[i]
    ensures WorkloadScore(Load(hosts, Given(hosts, bs))[i]) <= Peak(Load(hosts, extra), b)
  {
    var j := Pigeonhole(Given(hosts, bs), extra, i);
    RunIsLoad(hosts, bs);
    FilterByRequirements(PlaceAll(hosts, bs)[j], b, b);
    Balance(hosts, bs, b, i, j);
    PeakBounds(Load(hosts, extra), b, j);
  }

  /**
   * No placement of as many jobs as the run accepted, respecting requirements and caps,
   * has a lower peak than the one greedy dispatching reaches.
   */
  lemma GreedyMinimisesPeak(hosts: seq<Host>, bs: seq<Bundle>, b: Bundle, extra: seq<nat>)
    requires UniqueIds(hosts) && SameRequirements(bs, b)
    requires IsPlacement(hosts, b, extra) && Sum(extra) == Accepted(hosts, bs)
    ensures Peak(PlaceAll(hosts, bs), b) <= Peak(Load(hosts, extra), b)
  {
    RunIsLoad(hosts, bs);
    var final := PlaceAll(hosts, bs);
    PeakIsReached(final, b);
    if Peak(final, b) > 0.0 {
      var i :| 0 <= i < |final| && Meets(final[i], b) && WorkloadScore(final[i]) == Peak(final, b);
      if Given(hosts, bs)[i] <= extra[i] {
        PeakBounds(Load(hosts, extra), b, i);
      } else {
        RivalPaysElsewhere(hosts, bs, b, extra, i);
      }
    }
  }
}
