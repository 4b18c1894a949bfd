/** When the sweep loop takes a host offline, in real time and with skewed clocks. */
module Liveness {
  import opened Models
  import opened Maintenance
  import Worker

  /**
   * What happens to one host's row. A heartbeat sent at real time `at` carries the host's
   * own clock; a sweep compares against the real time it began and commits at `mark`. A failed
   * sweep raised before that commit; one that raises later has marked the row all the same.
   */
  datatype Event =
    | Beat(at: int, stamp: int, live: nat, cpu: NonNegative)
    | Sweep(begin: int, mark: int, end: int)
    | FailedSweep(begin: int, end: int)

  function Apply(row: Host, e: Event, timeout: int): Host {
    match e
    case Beat(_, stamp, live, cpu) => Worker.Reconcile(row, live, cpu, stamp)
    case Sweep(begin, _, _) => SweptRow(row, begin - timeout)
    case FailedSweep(_, _) => row
  }

  function After(row: Host, es: seq<Event>, timeout: int): Host {
    if es == [] then row else Apply(After(row, es[..|es| - 1], timeout), es[|es| - 1], timeout)
  }

  /** Real time of the last heartbeat among es, or `start` if there is none. */
  function LastBeat(start: int, es: seq<Event>): int {
    if es == [] then start
    else if es[|es| - 1].Beat? then es[|es| - 1].at
    else LastBeat(start, es[..|es| - 1])
  }

  /** It is the real time of event i when that is a heartbeat and no later event is. */
  lemma {:induction false} LastBeatIs(start: int, es: seq<Event>, i: nat)
    requires i < |es| && es[i].Beat? && forall j :: i < j < |es| ==> !es[j].Beat?
    ensures LastBeat(start, es) == es[i].at
  {
    if i < |es| - 1 { LastBeatIs(start, es[..|es| - 1], i); }
  }

  ghost predicate Skewed(stamp: int, at: int, skew: nat) {
    at - skew <= stamp <= at + skew
  }

  ghost predicate ClocksWithin(es: seq<Event>, skew: nat) {
    forall i :: 0 <= i < |es| && es[i].Beat? ==> Skewed(es[i].stamp, es[i].at, skew)
  }

  /** The row is online on the strength of a heartbeat sent at this real time. */
  ghost predicate Heard(row: Host, at: int, skew: nat) {
    row.online && row.heartbeat.Some? && Skewed(row.heartbeat.value.utc, at, skew)
  }

  /** At every sweep, the newest heartbeat is at most timeout - skew old. */
  ghost predicate Timely(start: int, es: seq<Event>, timeout: int, skew: nat) {
    forall i :: 0 <= i < |es| && es[i].Sweep? ==> es[i].begin - LastBeat(start, es[..i]) <= timeout - skew
  }

  /** A host that keeps its heartbeats fresh is never marked offline. */
  lemma {:induction false} FreshHostStaysOnline(row: Host, start: int, es: seq<Event>, timeout: int, skew: nat)
    requires Heard(row, start, skew) && ClocksWithin(es, skew) && Timely(start, es, timeout, skew)
    ensures Heard(After(row, es, timeout), LastBeat(start, es), skew)
  {
    if es != [] {
      var front := es[..|es| - 1];
      forall i | 0 <= i < |front| && front[i].Sweep?
        ensures front[i].begin - LastBeat(start, front[..i]) <= timeout - skew
      {
        assert front[..i] == es[..i] && es[i].Sweep?;
      }
      FreshHostStaysOnline(row, start, front, timeout, skew);
    }
  }

  /** The allowance for the clocks is needed: a slow one gets a host marked whose heartbeat is that much fresher. */
  lemma SkewIsNeeded(row: Host, at: int, timeout: int, skew: nat, live: nat, cpu: NonNegative)
    ensures var begin := at + timeout - skew + 1;
            var es := [Beat(at, at - skew, live, cpu), Sweep(begin, begin, begin)];
            && ClocksWithin(es, skew) && LastBeat(at, es) == at && begin - at == timeout - skew + 1
            && !After(row, es, timeout).online
  {
    var begin := at + timeout - skew + 1;
    var beat, sweep := Beat(at, at - skew, live, cpu), Sweep(begin, begin, begin);
    assert [beat][..0] == [] && [beat, sweep][..1] == [beat];
    assert After(row, [beat], timeout) == Apply(row, beat, timeout);
    assert After(row, [beat, sweep], timeout) == Apply(After(row, [beat], timeout), sweep, timeout);
    LastBeatIs(at, [beat, sweep], 0);
  }

  // --- silent hosts ---------------------------------------------------------------------

  /** A round of the sweep loop, whether or not it raises, takes at most `duration`. */
  ghost predicate Round(e: Event, duration: nat) {
    match e
    case Beat(_, _, _, _) => false
    case Sweep(begin, mark, end) => begin <= mark <= end <= begin + duration
    case FailedSweep(begin, end) => begin <= end <= begin + duration
  }

  function Begin(e: Event): int {
    if e.Beat? then e.at else e.begin
  }

  /** A schedule of the sweep loop: it rests at most `interval` after each round. */
  ghost predicate Schedule(rounds: seq<Event>, interval: nat, duration: nat) {
    && (forall i :: 0 <= i < |rounds| ==> Round(rounds[i], duration))
    && (forall i :: 0 < i < |rounds| ==> rounds[i - 1].end <= Begin(rounds[i]) <= rounds[i - 1].end + interval)
  }

  lemma {:induction false} SilentRow(row: Host, rounds: seq<Event>, interval: nat, duration: nat, timeout: int, k: nat)
    requires Schedule(rounds, interval, duration) && row.heartbeat.Some?
    requires k < |rounds| && rounds[k].Sweep? && rounds[k].begin > row.heartbeat.value.utc + timeout
    ensures !After(row, rounds, timeout).online && After(row, rounds, timeout).heartbeat == row.heartbeat
  {
    var front := rounds[..|rounds| - 1];
    assert Round(rounds[|rounds| - 1], duration);
    assert forall i :: 0 <= i < |front| ==> front[i] == rounds[i] && Round(front[i], duration);
    HeartbeatStays(row, front, duration, timeout);
    if k < |rounds| - 1 { SilentRow(row, front, interval, duration, timeout, k); }
  }

  lemma {:induction false} HeartbeatStays(row: Host, es: seq<Event>, duration: nat, timeout: int)
    requires forall i :: 0 <= i < |es| ==> Round(es[i], duration)
    ensures After(row, es, timeout).heartbeat == row.heartbeat
  {
    if es != [] {
      assert Round(es[|es| - 1], duration);
      HeartbeatStays(row, es[..|es| - 1], duration, timeout);
    }
  }

  /** r rounds on, the loop is at most r intervals and r durations later. */
  lemma {:induction false} RoundsPass(rounds: seq<Event>, interval: nat, duration: nat, i: nat, r: nat)
    requires Schedule(rounds, interval, duration) && i + r < |rounds|
    ensures Begin(rounds[i + r]) <= Begin(rounds[i]) + r * (interval + duration)
  {
    if r > 0 {
      RoundsPass(rounds, interval, duration, i, r - 1);
      assert Round(rounds[i + r - 1], duration);
    }
  }

  /** The first round to begin after a deadline begins within one interval and one duration of it. */
  lemma FirstRoundAfter(rounds: seq<Event>, interval: nat, duration: nat, deadline: int) returns (k: nat)
    requires Schedule(rounds, interval, duration) && rounds != []
    requires Begin(rounds[0]) <= deadline < Begin(rounds[|rounds| - 1])
    ensures 0 < k < |rounds| && Begin(rounds[k - 1]) <= deadline < Begin(rounds[k])
    ensures Begin(rounds[k]) <= deadline + interval + duration
  {
    k := |rounds| - 1;
    while Begin(rounds[k - 1]) > deadline
      invariant 0 < k < |rounds| && Begin(rounds[k]) > deadline
      decreases k
    {
      k := k - 1;
    }
    assert Round(rounds[k - 1], duration);
  }

  /**
   * After its last heartbeat at real time `last`, a silent host is offline from the mark of the
   * first successful sweep that begins after last + timeout + skew, for good. If r rounds fail
   * before that one, the mark is no later than r + 1 intervals and r + 2 durations past then.
   */
  lemma {:induction false} SilentHostGoesOffline(row: Host, last: int, rounds: seq<Event>, interval: nat,
                                                 duration: nat, timeout: int, skew: nat, r: nat)
    returns (k: nat)
    requires Heard(row, last, skew) && Schedule(rounds, interval, duration) && rounds != []
    requires Begin(rounds[0]) <= last + timeout + skew < Begin(rounds[|rounds| - 1])
    ensures 0 < k < |rounds| && Begin(rounds[k - 1]) <= last + timeout + skew < Begin(rounds[k])
    ensures k + r < |rounds| && rounds[k + r].Sweep? ==>
      && rounds[k + r].mark <= last + timeout + skew + (r + 1) * (interval + duration) + duration
      && forall n :: k + r < n <= |rounds| ==> !After(row, rounds[..n], timeout).online
  {
    k := FirstRoundAfter(rounds, interval, duration, last + timeout + skew);
    if k + r < |rounds| && rounds[k + r].Sweep? {
      OfflineFrom(row, last, rounds, interval, duration, timeout, skew, k, r);
    }
  }

  lemma OfflineFrom(row: Host, last: int, rounds: seq<Event>, interval: nat, duration: nat, timeout: int, skew: nat,
                    k: nat, r: nat)
    requires Heard(row, last, skew) && Schedule(rounds, interval, duration)
    requires k + r < |rounds| && rounds[k + r].Sweep? && last + timeout + skew < Begin(rounds[k])
    ensures rounds[k + r].mark <= Begin(rounds[k]) + r * (interval + duration) + duration
    ensures forall n :: k + r < n <= |rounds| ==> !After(row, rounds[..n], timeout).online
  {
    RoundsPass(rounds, interval, duration, k, r);
    assert Round(rounds[k + r], duration);
    LaterRounds(rounds, interval, duration, k, r);
    forall n | k + r < n <= |rounds| ensures !After(row, rounds[..n], timeout).online {
      assert forall i :: 0 <= i < n ==> rounds[..n][i] == rounds[i];
      SilentRow(row, rounds[..n], interval, duration, timeout, k + r);
    }
  }

  lemma {:induction false} LaterRounds(rounds: seq<Event>, interval: nat, duration: nat, i: nat, r: nat)
    requires Schedule(rounds, interval, duration) && i + r < |rounds|
    ensures Begin(rounds[i]) <= Begin(rounds[i + r])
  {
    if r > 0 {
      LaterRounds(rounds, interval, duration, i, r - 1);
      assert Round(rounds[i + r - 1], duration);
    }
  }

  /** A loop that only starts past the deadline marks within its first successful sweep. */
  lemma LateLoopMarks(row: Host, last: int, rounds: seq<Event>, interval: nat, duration: nat, timeout: int,
                      skew: nat, r: nat)
    requires Heard(row, last, skew) && Schedule(rounds, interval, duration)
    requires r < |rounds| && rounds[r].Sweep? && last + timeout + skew < Begin(rounds[0])
    ensures rounds[r].mark <= Begin(rounds[0]) + r * (interval + duration) + duration
    ensures forall n :: r < n <= |rounds| ==> !After(row, rounds[..n], timeout).online
  {
    OfflineFrom(row, last, rounds, interval, duration, timeout, skew, 0, r);
  }

  /** Both durations count: a mark can land later than one interval and one duration past the deadline. */
  lemma TwoDurationsAreNeeded(row: Host, last: int, interval: nat, timeout: int, skew: nat, duration: nat)
    requires row.online && row.heartbeat == Some(Aware(last + skew)) && duration > 0
    ensures var deadline := last + timeout + skew;
            var first := Sweep(deadline, deadline + duration, deadline + duration);
            var b := deadline + duration + interval;
            var second := Sweep(b, b + duration, b + duration);
            && Heard(row, last, skew) && Schedule([first, second], interval, duration)
            && After(row, [first], timeout).online && !After(row, [first, second], timeout).online
            && second.mark > deadline + interval + duration
  {
    var deadline := last + timeout + skew;
    var first := Sweep(deadline, deadline + duration, deadline + duration);
    var b := deadline + duration + interval;
    var second := Sweep(b, b + duration, b + duration);
    assert [first][..0] == [] && [first, second][..1] == [first];
    assert After(row, [first], timeout) == Apply(row, first, timeout);
    assert After(row, [first, second], timeout) == Apply(After(row, [first], timeout), second, timeout);
  }
}
