/**
 * Concurrent dispatchers over one inventory. Each selects its rows, later writes the chosen
 * row back from what it read and commits, and later still sends; the steps of different
 * dispatchers interleave freely. `FOR UPDATE` holds the rows from the select to the commit
 * or rollback.
 */
module Dispatchers {
  import opened Models
  import opened Scheduler
  import opened Placement

  datatype Phase =
    | Idle
    | Holding(snapshot: seq<Host>)
    | Booked(slot: nat)
    | Finished(outcome: Option<nat>)

  datatype Settlement = Settlement(who: nat, outcome: Option<nat>)

  /** `log` records who settled (committed or rolled back), in order; `sent` the queue used. */
  datatype State = State(
    inventory: seq<Host>,
    lock: Option<nat>,
    phases: seq<Phase>,
    log: seq<Settlement>,
    sent: map<nat, Option<string>>)

  datatype Action = Select(who: nat) | Settle(who: nat) | Send(who: nat)

  function Start(hosts: seq<Host>, jobs: seq<Bundle>): State {
    State(hosts, None, seq(|jobs|, i => Idle), [], map[])
  }

  /** One step of one dispatcher, or None when it cannot take it. */
  function Step(locking: bool, jobs: seq<Bundle>, s: State, a: Action): Option<State> {
    var i := a.who;
    if i >= |s.phases| || i >= |jobs| then None else
      match (a, s.phases[i])
      case (Select(_), Idle) =>
        if locking && s.lock.Some? then None
        else Some(s.(lock := Some(i), phases := s.phases[i := Holding(s.inventory)]))
      case (Settle(_), Holding(snapshot)) =>
        var best := BestIndex(snapshot, jobs[i]);
        var done := s.(lock := None, log := s.log + [Settlement(i, best)]);
        if best.None? then Some(done.(phases := s.phases[i := Finished(None)]))
        else
          var k := best.value;
          if k >= |s.inventory| then None else
            // the commit writes the count computed from the row as it was read
            var row := s.inventory[k].(active := snapshot[k].active + 1);
            Some(done.(inventory := s.inventory[k := row], phases := s.phases[i := Booked(k)]))
      case (Send(_), Booked(k)) =>
        if k >= |s.inventory| then None else
          Some(s.(phases := s.phases[i := Finished(Some(k))],
                  sent := s.sent[i := QueueNameFor(s.inventory[k].hostId)]))
      case _ => None
  }

  function Exec(locking: bool, hosts: seq<Host>, jobs: seq<Bundle>, acts: seq<Action>): Option<State> {
    if acts == [] then Some(Start(hosts, jobs)) else
      match Exec(locking, hosts, jobs, acts[..|acts| - 1])
      case None => None
      case Some(s) => Step(locking, jobs, s, acts[|acts| - 1])
  }

  predicate Settled(p: Phase) {
    p.Booked? || p.Finished?
  }

  function OutcomeOf(p: Phase): Option<nat>
    requires Settled(p)
  {
    if p.Booked? then Some(p.slot) else p.outcome
  }

  ghost function BookedOn(s: State, k: nat): set<nat> {
    set i | 0 <= i < |s.phases| && Settled(s.phases[i]) && OutcomeOf(s.phases[i]) == Some(k)
  }

  ghost predicate Known(jobs: seq<Bundle>, log: seq<Settlement>) {
    forall p :: 0 <= p < |log| ==> log[p].who < |jobs|
  }

  /** The bundles of a log, in the order they settled. */
  function InOrder(jobs: seq<Bundle>, log: seq<Settlement>): seq<Bundle>
    requires Known(jobs, log)
  {
    seq(|log|, p requires 0 <= p < |log| => jobs[log[p].who])
  }

  // --- serialisability ------------------------------------------------------------

  /** The log lists the settled dispatchers, each once, with the outcome each of them saw. */
  ghost predicate LogIsExact(jobs: seq<Bundle>, s: State) {
    && |s.phases| == |jobs|
    && Known(jobs, s.log)
    && (forall p :: 0 <= p < |s.log| ==>
          Settled(s.phases[s.log[p].who]) && OutcomeOf(s.phases[s.log[p].who]) == s.log[p].outcome)
    && (forall p, q :: 0 <= p < q < |s.log| ==> s.log[p].who != s.log[q].who)
    && (forall i :: 0 <= i < |jobs| && Settled(s.phases[i]) ==>
          exists p :: 0 <= p < |s.log| && s.log[p].who == i)
  }

  /** Each outcome is the one a one-at-a-time run in log order would have given. */
  ghost predicate Sequential(hosts: seq<Host>, jobs: seq<Bundle>, log: seq<Settlement>)
    requires Known(jobs, log)
  {
    log == [] ||
      var front, last := log[..|log| - 1], log[|log| - 1];
      && last.outcome == BestIndex(PlaceAll(hosts, InOrder(jobs, front)), jobs[last.who])
      && Sequential(hosts, jobs, front)
  }

  /** The log explains the state completely. */
  ghost predicate Serial(hosts: seq<Host>, jobs: seq<Bundle>, s: State) {
    && LogIsExact(jobs, s)
    && Sequential(hosts, jobs, s.log)
    && s.inventory == PlaceAll(hosts, InOrder(jobs, s.log))
  }

  /** The holder of the rows is the only one between select and commit, and read the truth. */
  ghost predicate LockProtects(s: State) {
    forall i :: 0 <= i < |s.phases| && s.phases[i].Holding? ==>
      s.lock == Some(i) && s.phases[i].snapshot == s.inventory
  }

  /** What settling does once the lock has protected the read. */
  function AfterSettle(jobs: seq<Bundle>, s: State, i: nat): State
    requires i < |jobs| && i < |s.phases|
  {
    var best := BestIndex(s.inventory, jobs[i]);
    s.(lock := None,
       log := s.log + [Settlement(i, best)],
       inventory := Place(s.inventory, jobs[i]),
       phases := s.phases[i := if best.None? then Finished(None) else Booked(best.value)])
  }

  lemma SettleIsPlace(jobs: seq<Bundle>, s: State, i: nat)
    requires LockProtects(s) && i < |jobs| && i < |s.phases| && s.phases[i].Holding?
    ensures Step(true, jobs, s, Settle(i)) == Some(AfterSettle(jobs, s, i))
  {
  }

  lemma SettleKeepsLog(jobs: seq<Bundle>, s: State, i: nat)
    requires LogIsExact(jobs, s) && i < |jobs| && s.phases[i].Holding?
    ensures LogIsExact(jobs, AfterSettle(jobs, s, i))
  {
    var t := AfterSettle(jobs, s, i);
    assert t.log[|s.log|].who == i;
    forall j | 0 <= j < |jobs| && Settled(t.phases[j])
      ensures exists p :: 0 <= p < |t.log| && t.log[p].who == j
    {
      if j != i {
        var p :| 0 <= p < |s.log| && s.log[p].who == j;
        assert t.log[p].who == j;
      }
    }
  }

  lemma SettleKeepsSerial(hosts: seq<Host>, jobs: seq<Bundle>, s: State, i: nat)
    requires Serial(hosts, jobs, s) && i < |jobs| && s.phases[i].Holding?
    ensures Serial(hosts, jobs, AfterSettle(jobs, s, i))
  {
    var t := AfterSettle(jobs, s, i);
    SettleKeepsLog(jobs, s, i);
    assert t.log[..|s.log|] == s.log;
    assert InOrder(jobs, t.log)[..|s.log|] == InOrder(jobs, s.log);
  }

  lemma StepKeepsSerial(hosts: seq<Host>, jobs: seq<Bundle>, s: State, a: Action)
    requires Serial(hosts, jobs, s) && LockProtects(s) && Step(true, jobs, s, a).Some?
    ensures var t := Step(true, jobs, s, a).value; Serial(hosts, jobs, t) && LockProtects(t)
  {
    if a.Settle? {
      SettleIsPlace(jobs, s, a.who);
      SettleKeepsSerial(hosts, jobs, s, a.who);
    } else {
      OtherStepsKeepLog(jobs, s, a);
      OtherStepsKeepLock(jobs, s, a);
    }
  }

  lemma OtherStepsKeepLock(jobs: seq<Bundle>, s: State, a: Action)
    requires LockProtects(s) && Step(true, jobs, s, a).Some? && !a.Settle?
    ensures LockProtects(Step(true, jobs, s, a).value)
  {
  }

  /** Selecting and sending leave the log and the settled outcomes as they are. */
  lemma OtherStepsKeepLog(jobs: seq<Bundle>, s: State, a: Action)
    requires LogIsExact(jobs, s) && Step(true, jobs, s, a).Some? && !a.Settle?
    ensures var t := Step(true, jobs, s, a).value;
            LogIsExact(jobs, t) && t.log == s.log && t.inventory == s.inventory
  {
    var t := Step(true, jobs, s, a).value;
    assert forall i :: 0 <= i < |jobs| ==> Settled(t.phases[i]) == Settled(s.phases[i]);
    assert forall i :: 0 <= i < |jobs| && Settled(s.phases[i]) ==> OutcomeOf(t.phases[i]) == OutcomeOf(s.phases[i]);
  }

  /**
   * However the steps of any number of dispatchers interleave, the inventory and every
   * dispatcher's outcome are those of running the settled ones one at a time.
   */
  lemma {:induction false} Serialisable(hosts: seq<Host>, jobs: seq<Bundle>, acts: seq<Action>)
    requires Exec(true, hosts, jobs, acts).Some?
    ensures var s := Exec(true, hosts, jobs, acts).value; Serial(hosts, jobs, s) && LockProtects(s)
  {
    if acts == [] {
      assert InOrder(jobs, []) == [];
    } else {
      Serialisable(hosts, jobs, acts[..|acts| - 1]);
      StepKeepsSerial(hosts, jobs, Exec(true, hosts, jobs, acts[..|acts| - 1]).value, acts[|acts| - 1]);
    }
  }

  // --- bookings ---------------------------------------------------------------------

  /** The host's count is its starting value plus the bookings on it, and bookings stop at the cap. */
  ghost predicate BookBalances(host: Host, now: Host, booked: set<nat>) {
    && now == host.(active := host.active + |booked|)
    && (booked != {} ==> now.active <= host.cap)
  }

  ghost predicate BooksBalance(hosts: seq<Host>, s: State) {
    && |s.inventory| == |hosts|
    && forall k :: 0 <= k < |hosts| ==> BookBalances(hosts[k], s.inventory[k], BookedOn(s, k))
  }

  /** Who has sent, and to which queue. */
  ghost predicate SentToBookedHost(hosts: seq<Host>, s: State) {
    && (forall i :: i in s.sent ==> i < |s.phases| && s.phases[i].Finished? && s.phases[i].outcome.Some?)
    && forall i :: 0 <= i < |s.phases| && s.phases[i].Finished? && s.phases[i].outcome.Some? ==>
         var k := s.phases[i].outcome.value;
         i in s.sent && k < |hosts| && s.sent[i] == QueueNameFor(hosts[k].hostId)
  }

  lemma SettleBooksOne(hosts: seq<Host>, jobs: seq<Bundle>, s: State, i: nat, k: nat)
    requires i < |jobs| && i < |s.phases| && s.phases[i].Holding?
    ensures BookedOn(AfterSettle(jobs, s, i), k)
            == if BestIndex(s.inventory, jobs[i]) == Some(k) then BookedOn(s, k) + {i} else BookedOn(s, k)
    ensures i !in BookedOn(s, k)
  {
  }

  lemma SettleKeepsBooks(hosts: seq<Host>, jobs: seq<Bundle>, s: State, i: nat)
    requires BooksBalance(hosts, s)
    requires i < |jobs| && i < |s.phases| && s.phases[i].Holding?
    ensures BooksBalance(hosts, AfterSettle(jobs, s, i))
  {
    var t := AfterSettle(jobs, s, i);
    forall k | 0 <= k < |hosts| ensures BookBalances(hosts[k], t.inventory[k], BookedOn(t, k)) {
      SettleBooksOne(hosts, jobs, s, i, k);
      if BestIndex(s.inventory, jobs[i]) == Some(k) { assert |BookedOn(s, k) + {i}| == |BookedOn(s, k)| + 1; }
    }
  }

  /** Selecting and sending settle nothing. */
  lemma OtherStepsBookNothing(jobs: seq<Bundle>, s: State, a: Action, k: nat)
    requires Step(true, jobs, s, a).Some? && !a.Settle?
    ensures var t := Step(true, jobs, s, a).value;
            BookedOn(t, k) == BookedOn(s, k) && t.inventory == s.inventory
  {
  }

  lemma OtherStepsKeepBooks(hosts: seq<Host>, s: State, t: State)
    requires BooksBalance(hosts, s) && t.inventory == s.inventory
    requires forall k: nat :: BookedOn(t, k) == BookedOn(s, k)
    ensures BooksBalance(hosts, t)
  {
  }

  lemma StepKeepsSent(hosts: seq<Host>, jobs: seq<Bundle>, s: State, a: Action)
    requires BooksBalance(hosts, s) && SentToBookedHost(hosts, s) && Step(true, jobs, s, a).Some?
    ensures SentToBookedHost(hosts, Step(true, jobs, s, a).value)
  {
    var t := Step(true, jobs, s, a).value;
    assert forall i :: 0 <= i < |s.phases| && i != a.who ==> t.phases[i] == s.phases[i];
  }

  lemma StepKeepsBooks(hosts: seq<Host>, jobs: seq<Bundle>, s: State, a: Action)
    requires LockProtects(s) && BooksBalance(hosts, s) && Step(true, jobs, s, a).Some?
    ensures BooksBalance(hosts, Step(true, jobs, s, a).value)
  {
    var t := Step(true, jobs, s, a).value;
    if a.Settle? {
      SettleIsPlace(jobs, s, a.who);
      SettleKeepsBooks(hosts, jobs, s, a.who);
    } else {
      forall k: nat { OtherStepsBookNothing(jobs, s, a, k); }
      OtherStepsBookNothing(jobs, s, a, 0);
      OtherStepsKeepBooks(hosts, s, t);
    }
  }

  /** No slot is booked twice and no count is dispatched past its cap, in any interleaving. */
  lemma {:induction false} NoDoubleBooking(hosts: seq<Host>, jobs: seq<Bundle>, acts: seq<Action>)
    requires Exec(true, hosts, jobs, acts).Some?
    ensures var s := Exec(true, hosts, jobs, acts).value;
            BooksBalance(hosts, s) && SentToBookedHost(hosts, s)
  {
    if acts == [] {
      var s := Start(hosts, jobs);
      forall k: nat ensures BookedOn(s, k) == {} {}
    } else {
      var front := acts[..|acts| - 1];
      NoDoubleBooking(hosts, jobs, front);
      Serialisable(hosts, jobs, front);
      var s := Exec(true, hosts, jobs, front).value;
      StepKeepsBooks(hosts, jobs, s, acts[|acts| - 1]);
      StepKeepsSent(hosts, jobs, s, acts[|acts| - 1]);
    }
  }

  // --- no deadlock ----------------------------------------------------------------------

  /** Whoever has the lock is between select and commit, and a booked slot exists. */
  ghost predicate Going(jobs: seq<Bundle>, s: State) {
    && |s.phases| == |jobs| && LockProtects(s)
    && (s.lock.Some? ==> s.lock.value < |s.phases| && s.phases[s.lock.value].Holding?)
    && forall i :: 0 <= i < |s.phases| && s.phases[i].Booked? ==> s.phases[i].slot < |s.inventory|
  }

  lemma StepKeepsGoing(jobs: seq<Bundle>, s: State, a: Action)
    requires Going(jobs, s) && Step(true, jobs, s, a).Some?
    ensures Going(jobs, Step(true, jobs, s, a).value)
  {
  }

  lemma {:induction false} AlwaysGoing(hosts: seq<Host>, jobs: seq<Bundle>, acts: seq<Action>)
    requires Exec(true, hosts, jobs, acts).Some?
    ensures Going(jobs, Exec(true, hosts, jobs, acts).value)
  {
    if acts != [] {
      AlwaysGoing(hosts, jobs, acts[..|acts| - 1]);
      StepKeepsGoing(jobs, Exec(true, hosts, jobs, acts[..|acts| - 1]).value, acts[|acts| - 1]);
    }
  }

  function StepsLeft(p: Phase): nat {
    match p case Idle => 3 case Holding(_) => 2 case Booked(_) => 1 case Finished(_) => 0
  }

  function Work(s: State): nat {
    Sum(seq(|s.phases|, i requires 0 <= i < |s.phases| => StepsLeft(s.phases[i])))
  }

  lemma StepDoesWork(jobs: seq<Bundle>, s: State, a: Action)
    requires Going(jobs, s) && Step(true, jobs, s, a).Some?
    ensures Work(Step(true, jobs, s, a).value) < Work(s)
  {
    var t := Step(true, jobs, s, a).value;
    var before := seq(|s.phases|, i requires 0 <= i < |s.phases| => StepsLeft(s.phases[i]));
    var after := seq(|t.phases|, i requires 0 <= i < |t.phases| => StepsLeft(t.phases[i]));
    assert after == before[a.who := StepsLeft(t.phases[a.who])];
    SumUpdate(before, a.who, StepsLeft(t.phases[a.who]));
  }

  /** While someone is not finished, someone can take a step. */
  lemma SomeoneCanStep(jobs: seq<Bundle>, s: State, i: nat) returns (a: Action)
    requires Going(jobs, s) && i < |s.phases| && !s.phases[i].Finished?
    ensures Step(true, jobs, s, a).Some?
  {
    match s.phases[i]
    case Idle => a := if s.lock.Some? then Settle(s.lock.value) else Select(i);
    case Holding(_) => a := Settle(i);
    case Booked(_) => a := Send(i);
  }

  lemma OneStepOn(hosts: seq<Host>, jobs: seq<Bundle>, acts: seq<Action>, i: nat) returns (a: Action)
    requires Exec(true, hosts, jobs, acts).Some?
    requires var s := Exec(true, hosts, jobs, acts).value; i < |s.phases| && !s.phases[i].Finished?
    ensures Exec(true, hosts, jobs, acts + [a]).Some?
    ensures Work(Exec(true, hosts, jobs, acts + [a]).value) < Work(Exec(true, hosts, jobs, acts).value)
  {
    var s := Exec(true, hosts, jobs, acts).value;
    AlwaysGoing(hosts, jobs, acts);
    a := SomeoneCanStep(jobs, s, i);
    StepDoesWork(jobs, s, a);
    assert (acts + [a])[..|acts|] == acts;
  }

  /** No interleaving is a dead end: from every one, all dispatchers can still finish. */
  lemma {:induction false} AllCanFinish(hosts: seq<Host>, jobs: seq<Bundle>, acts: seq<Action>)
    returns (rest: seq<Action>)
    requires Exec(true, hosts, jobs, acts).Some?
    ensures var t := Exec(true, hosts, jobs, acts + rest);
            t.Some? && forall i :: 0 <= i < |t.value.phases| ==> t.value.phases[i].Finished?
    decreases Work(Exec(true, hosts, jobs, acts).value)
  {
    var s := Exec(true, hosts, jobs, acts).value;
    if i :| 0 <= i < |s.phases| && !s.phases[i].Finished? {
      var a := OneStepOn(hosts, jobs, acts, i);
      rest := AllCanFinish(hosts, jobs, acts + [a]);
      rest := [a] + rest;
      assert acts + [a] + rest[1..] == acts + rest;
    } else {
      rest := [];
      assert acts + rest == acts;
    }
  }

  /** Without the row lock two dispatchers can book the same last slot. */
  lemma UnlockedDoubleBooking(b: Bundle)
    requires b.requiredTags == [] && !b.requiresEmulation
    ensures var hosts := [Host("h", true, 0, 1, 0.0, "", false, None)];
            var r := Exec(false, hosts, [b, b], [Select(0), Select(1), Settle(0), Settle(1)]);
            && r.Some? && BookedOn(r.value, 0) == {0, 1}
            && hosts[0].active + |BookedOn(r.value, 0)| > hosts[0].cap
  {
    var hosts := [Host("h", true, 0, 1, 0.0, "", false, None)];
    var jobs := [b, b];
    assert hosts[..0] == [];
    assert BestIndex(hosts, b) == Some(0);
    var a1, a2, a3 := [Select(0)], [Select(0), Select(1)], [Select(0), Select(1), Settle(0)];
    var s0 := Start(hosts, jobs);
    assert a1[..0] == [] && Exec(false, hosts, jobs, []) == Some(s0);
    var s1 := Step(false, jobs, s0, Select(0)).value;
    assert Exec(false, hosts, jobs, a1) == Some(s1);
    var s2 := Step(false, jobs, s1, Select(1)).value;
    assert a2[..1] == a1 && Exec(false, hosts, jobs, a2) == Some(s2);
    var s3 := Step(false, jobs, s2, Settle(0)).value;
    assert a3[..2] == a2 && Exec(false, hosts, jobs, a3) == Some(s3);
    var a4 := [Select(0), Select(1), Settle(0), Settle(1)];
    assert a4[..3] == a3;
    var s4 := Step(false, jobs, s3, Settle(1)).value;
    assert Exec(false, hosts, jobs, a4) == Some(s4);
    assert BookedOn(s4, 0) == {0, 1};
  }
}
