/**
 * What a websocket's whole history says about its polls: each carries the correlation id and the
 * number of hosts of the frame that asked for it, counts the replies delivered to it, and words
 * its sentinel by them.
 */
module PollHistory {
  import opened Models
  import opened Render
  import opened AdminPoll

  /** A "poll now" frame: the correlation id made for it, and how many hosts were registered. */
  datatype Request = Request(corr: string, total: nat)

  function Requests(acts: seq<Action>): seq<Request> {
    if acts == [] then [] else
      var a := acts[|acts| - 1];
      Requests(acts[..|acts| - 1]) + if a.PollFrame? then [Request(a.corr, a.total)] else []
  }

  /** The replies that reached poll j's consumer, in order. */
  function Delivered(acts: seq<Action>, j: nat): seq<Reply> {
    if acts == [] then [] else
      var a := acts[|acts| - 1];
      Delivered(acts[..|acts| - 1], j) + if a.Deliver? && a.task == j then [a.reply] else []
  }

  // --- requests and polls ---------------------------------------------------------------

  /** The loop has accepted a request and not yet made its poll. */
  predicate Clearing(s: State) {
    s.main.SendingClear? || s.main.SendingBlank?
  }

  /** The polls are those asked for, in order; one more is on its way while the table is cleared. */
  ghost predicate AsAsked(asked: seq<Request>, s: State) {
    && |asked| == |s.polls| + (if Clearing(s) then 1 else 0)
    && (forall j :: 0 <= j < |s.polls| ==> asked[j] == Request(s.polls[j].corr, s.polls[j].total))
    && (Clearing(s) ==> asked[|s.polls|] == Request(s.corr, s.total))
  }

  ghost predicate SamePolls(s: State, t: State) {
    && |t.polls| == |s.polls| && t.main == s.main && t.corr == s.corr && t.total == s.total
    && forall j :: 0 <= j < |s.polls| ==> t.polls[j].corr == s.polls[j].corr && t.polls[j].total == s.polls[j].total
  }

  /** The tasks change neither what was asked nor how many polls there are. */
  lemma TasksKeepPolls(s: State, a: Action)
    requires Shape(s) && !IsMainAction(a) && Step(true, s, a).Some?
    ensures SamePolls(s, Step(true, s, a).value)
  {
    if !IsTimerAction(a) {
      ConsumerIsLocal(s, a.task, a);
      ConsumerKeepsPollOk(s, a.task, a);
      ConsumerMovesRows(s, a.task, a);
    }
  }

  lemma StepAsAsked(asked: seq<Request>, s: State, a: Action)
    requires Shape(s) && AsAsked(asked, s) && Step(true, s, a).Some?
    ensures AsAsked(asked + if a.PollFrame? then [Request(a.corr, a.total)] else [], Step(true, s, a).value)
  {
    if !IsMainAction(a) { TasksKeepPolls(s, a); }
  }

  // --- replies ----------------------------------------------------------------------------

  predicate Live(p: Poll) {
    !p.consumerCancelled && !p.consumer.Gone?
  }

  /** The reply that is being shown and not counted yet. */
  function Pending(pc: ConsumerPc): seq<Reply> {
    if pc.SendingRow? then [pc.reply] else []
  }

  /** All delivered replies are counted, but for the one being shown. */
  ghost predicate CountsDelivered(delivered: seq<Reply>, p: Poll) {
    && p.counted <= delivered && |delivered| <= |p.counted| + 1
    && (Live(p) ==> delivered == p.counted + Pending(p.consumer))
    && forall r :: r in delivered ==> r.corr == p.corr
  }

  /** How a step moves the replies of poll j, its timer, and a sentinel its consumer is about to send. */
  ghost predicate RepliesMove(s: State, a: Action, t: State, j: nat) {
    && j < |s.polls| && j < |t.polls|
    && var p, q := s.polls[j], t.polls[j];
       var got := if a.Deliver? && a.task == j then [a.reply] else [];
       && q.corr == p.corr && q.total == p.total
       && (forall r :: r in got ==> r.corr == p.corr)
       && (if Live(q) then Live(p) && q.counted + Pending(q.consumer) == p.counted + Pending(p.consumer) + got
           else q.counted == p.counted && got == [])
       && (q.timer.TimerAwaitingLock? || q.timer.TimerSending? ==>
             p.timer.TimerAwaitingLock? || p.timer.TimerSending? || a == TimerFires(j))
       && (q.consumer.AwaitingLock? ==> p.consumer.AwaitingLock? || 0 < q.total <= |q.counted|)
       && |p.counted| <= |q.counted|
       && (q.consumer.SendingSentinel? ==>
             || (p.consumer.SendingSentinel? && q.consumer.received == p.consumer.received)
             || (p.consumer.AwaitingLock? && q.consumer.received == |p.counted|))
  }

  lemma MainReplies(s: State, a: Action, j: nat)
    requires Shape(s) && IsMainAction(a) && MainStep(true, s, a).Some? && j < |s.polls|
    ensures RepliesMove(s, a, MainStep(true, s, a).value, j)
  {
    assert PollOk(s, j);
  }

  lemma TimerReplies(s: State, a: Action, j: nat)
    requires Shape(s) && IsTimerAction(a) && a.task < |s.polls| && TimerStep(s, a.task, a).Some? && j < |s.polls|
    ensures RepliesMove(s, a, TimerStep(s, a.task, a).value, j)
  {
    assert PollOk(s, j);
  }

  lemma ConsumerReplies(s: State, a: Action, j: nat)
    requires Shape(s) && !IsMainAction(a) && !IsTimerAction(a) && j < |s.polls|
    requires a.task < |s.polls| && ConsumerStep(s, a.task, a).Some?
    ensures RepliesMove(s, a, ConsumerStep(s, a.task, a).value, j)
  {
    ConsumerIsLocal(s, a.task, a);
    if j == a.task { OwnReplies(s, a); }
  }

  lemma OwnReplies(s: State, a: Action)
    requires Shape(s) && !IsMainAction(a) && !IsTimerAction(a)
    requires a.task < |s.polls| && ConsumerStep(s, a.task, a).Some?
    ensures RepliesMove(s, a, ConsumerStep(s, a.task, a).value, a.task)
  {
    var j := a.task;
    assert PollOk(s, j);
    if Live(s.polls[j]) { LiveConsumerIsLatest(s, j); }
  }

  lemma RepliesStep(s: State, a: Action, j: nat)
    requires Shape(s) && Step(true, s, a).Some? && j < |s.polls|
    ensures RepliesMove(s, a, Step(true, s, a).value, j)
  {
    if IsMainAction(a) { MainReplies(s, a, j); }
    else if IsTimerAction(a) { TimerReplies(s, a, j); }
    else { ConsumerReplies(s, a, j); }
  }

  /** The replies delivered, and whether the grace timer has fired, explain poll j. */
  ghost predicate Explained(delivered: seq<Reply>, fired: bool, p: Poll) {
    && CountsDelivered(delivered, p)
    && (p.timer.TimerAwaitingLock? || p.timer.TimerSending? ==> fired)
    && (p.consumer.AwaitingLock? ==> 0 < p.total <= |p.counted|)
    && (p.consumer.SendingSentinel? ==> 0 < p.total <= p.consumer.received)
  }

  lemma ExplainedStep(s: State, a: Action, t: State, j: nat, delivered: seq<Reply>, fired: bool)
    requires RepliesMove(s, a, t, j) && Explained(delivered, fired, s.polls[j])
    ensures Explained(delivered + if a.Deliver? && a.task == j then [a.reply] else [],
                      fired || a == TimerFires(j), t.polls[j])
  {
  }

  ghost predicate History(acts: seq<Action>, s: State) {
    && AsAsked(Requests(acts), s)
    && (forall j: nat :: j < |s.polls| ==> Explained(Delivered(acts, j), TimerFires(j) in acts, s.polls[j]))
    && (forall j: nat :: j >= |s.polls| ==> Delivered(acts, j) == [])
  }

  lemma AppendAction(acts: seq<Action>, a: Action, j: nat)
    ensures Requests(acts + [a]) == Requests(acts) + if a.PollFrame? then [Request(a.corr, a.total)] else []
    ensures Delivered(acts + [a], j) == Delivered(acts, j) + if a.Deliver? && a.task == j then [a.reply] else []
    ensures TimerFires(j) in acts + [a] <==> TimerFires(j) in acts || a == TimerFires(j)
  {
    assert (acts + [a])[..|acts|] == acts;
  }

  lemma NewPollIsExplained(s: State, a: Action)
    requires Shape(s) && Step(true, s, a).Some?
    ensures var t := Step(true, s, a).value;
            |t.polls| > |s.polls| ==> forall fired :: Explained([], fired, t.polls[|s.polls|])
  {
    if !IsMainAction(a) { TasksKeepPolls(s, a); }
  }

  lemma OldPollExplained(acts: seq<Action>, s: State, a: Action, t: State, j: nat)
    requires j < |s.polls| && Explained(Delivered(acts, j), TimerFires(j) in acts, s.polls[j])
    requires RepliesMove(s, a, t, j)
    ensures Explained(Delivered(acts + [a], j), TimerFires(j) in acts + [a], t.polls[j])
  {
    AppendAction(acts, a, j);
    ExplainedStep(s, a, t, j, Delivered(acts, j), TimerFires(j) in acts);
  }

  lemma NoRepliesBeyond(acts: seq<Action>, a: Action, n: nat)
    requires forall j: nat :: j >= n ==> Delivered(acts, j) == []
    requires a.Deliver? ==> a.task < n
    ensures forall j: nat :: j >= n ==> Delivered(acts + [a], j) == []
  {
    forall j: nat | j >= n ensures Delivered(acts + [a], j) == [] { AppendAction(acts, a, j); }
  }

  lemma HistoryFrom(acts: seq<Action>, t: State, n: nat)
    requires AsAsked(Requests(acts), t) && n <= |t.polls| <= n + 1
    requires forall j: nat :: j < n ==> Explained(Delivered(acts, j), TimerFires(j) in acts, t.polls[j])
    requires |t.polls| > n ==> Explained([], TimerFires(n) in acts, t.polls[n])
    requires forall j: nat :: j >= n ==> Delivered(acts, j) == []
    ensures History(acts, t)
  {
  }

  lemma StepKeepsHistory(acts: seq<Action>, s: State, a: Action)
    requires Shape(s) && History(acts, s) && Step(true, s, a).Some?
    ensures History(acts + [a], Step(true, s, a).value)
  {
    var t := Step(true, s, a).value;
    PollsOnlyGrow(s, a);
    StepAsAsked(Requests(acts), s, a);
    AppendAction(acts, a, 0);
    NewPollIsExplained(s, a);
    StepExplains(acts, s, a);
    NoRepliesBeyond(acts, a, |s.polls|);
    HistoryFrom(acts + [a], t, |s.polls|);
  }

  lemma StepExplains(acts: seq<Action>, s: State, a: Action)
    requires Shape(s) && Step(true, s, a).Some? && |s.polls| <= |Step(true, s, a).value.polls|
    requires forall j: nat :: j < |s.polls| ==> Explained(Delivered(acts, j), TimerFires(j) in acts, s.polls[j])
    ensures var t := Step(true, s, a).value;
            forall j: nat :: j < |s.polls| ==>
              Explained(Delivered(acts + [a], j), TimerFires(j) in acts + [a], t.polls[j])
  {
    var t := Step(true, s, a).value;
    forall j: nat | j < |s.polls| ensures Explained(Delivered(acts + [a], j), TimerFires(j) in acts + [a], t.polls[j]) {
      RepliesStep(s, a, j);
      OldPollExplained(acts, s, a, t, j);
    }
  }

  /**
   * On a fresh socket, in every interleaving: poll j carries the correlation id and the number of
   * hosts of the j-th request, and has counted the replies delivered to it, all of them but for
   * one whose row is going out, or was when its consumer was cancelled.
   */
  lemma {:induction false} PollsAreAsAsked(acts: seq<Action>)
    requires Exec(true, START, acts).Some?
    ensures Shape(Exec(true, START, acts).value) && History(acts, Exec(true, START, acts).value)
    decreases |acts|
  {
    if acts != [] {
      var front, a := acts[..|acts| - 1], acts[|acts| - 1];
      ExecFront(START, acts);
      PollsAreAsAsked(front);
      StepKeepsShape(Exec(true, START, front).value, a);
      StepKeepsHistory(front, Exec(true, START, front).value, a);
      assert front + [a] == acts;
    }
  }

  // --- sentinels ----------------------------------------------------------------------------

  /** A sentinel that does not say "all responded" follows the end of its poll's grace period. */
  ghost predicate LineInTime(acts: seq<Action>, f: Frame) {
    f.SentinelLine? && !f.text.AllResponded? ==> TimerFires(f.poll) in acts
  }

  lemma NewLineInTime(acts: seq<Action>, s: State, a: Action)
    requires Shape(s) && History(acts, s) && Step(true, s, a).Some?
    requires |Step(true, s, a).value.wire| > |s.wire|
    ensures LineInTime(acts, Step(true, s, a).value.wire[|s.wire|])
  {
    FramesSent(s, a);
    var f := Step(true, s, a).value.wire[|s.wire|];
    if f.SentinelLine? {
      assert CanSend(s, a, f);
      assert Explained(Delivered(acts, f.poll), TimerFires(f.poll) in acts, s.polls[f.poll]);
    }
  }

  /** Before the grace period is over a poll's only possible sentinel is "all responded". */
  lemma {:induction false} LinesInTime(acts: seq<Action>)
    requires Exec(true, START, acts).Some?
    ensures forall at :: 0 <= at < |Exec(true, START, acts).value.wire| ==>
      LineInTime(acts, Exec(true, START, acts).value.wire[at])
    decreases |acts|
  {
    if acts != [] {
      var front, a := acts[..|acts| - 1], acts[|acts| - 1];
      ExecFront(START, acts);
      PollsAreAsAsked(front);
      LinesInTime(front);
      var s, t := Exec(true, START, front).value, Exec(true, START, acts).value;
      FramesSent(s, a);
      assert front + [a] == acts;
      forall at | 0 <= at < |t.wire| ensures LineInTime(acts, t.wire[at]) {
        if at < |s.wire| {
          assert LineInTime(front, s.wire[at]);
        } else {
          NewLineInTime(front, s, a);
        }
      }
    }
  }

  /**
   * Poll j's lock was entered after n of its replies had been counted: all that had been delivered
   * to it by then, but for at most one whose row was on its way.
   */
  ghost predicate CountedThen(acts: seq<Action>, j: nat, n: nat, at: nat) {
    exists m: nat :: m < |acts| && (acts[m] == ConsumerLocks(j) || acts[m] == TimerLocks(j))
      && n <= |Delivered(acts[..m], j)| <= n + 1
      && Exec(true, START, acts[..m]).Some? && |Exec(true, START, acts[..m]).value.wire| <= at
  }

  /**
   * What a sentinel on a fresh socket's wire says, in every interleaving. It is the only one of its
   * poll. Its number is how many replies had been delivered when its sender entered the lock (see
   * CountedThen), the rows of these replies are out already, and its words follow from that number and from how
   * many hosts the request for the poll was made to.
   */
  lemma FromTheStart(acts: seq<Action>, at: nat)
    requires Exec(true, START, acts).Some? && at < |Exec(true, START, acts).value.wire|
    requires Exec(true, START, acts).value.wire[at].SentinelLine?
    ensures var t := Exec(true, START, acts).value;
            var j, n, text := t.wire[at].poll, t.wire[at].received, t.wire[at].text;
            && j < |Requests(acts)| && Sentinels(t.wire, j) == 1
            && n <= |Delivered(acts, j)| && CountedThen(acts, j, n, at)
            && Shown(Delivered(acts, j)[..n]) <= RowsBy(t.wire[..at], j)
            && (TimerFires(j) in acts || text.AllResponded?)
            && var hosts := Requests(acts)[j].total;
               && (text.NoHosts? <==> hosts == 0)
               && (text.AllResponded? <==> 0 < hosts <= n) && (text.AllResponded? ==> text.total == hosts)
               && (text.Partial? ==> text.received == n && text.total == hosts && text.missing == hosts - n)
  {
    SentinelsAreSafe(START, acts);
    NumberIsCountAtRendering(acts);
    PollsAreAsAsked(acts);
    LinesInTime(acts);
    var t := Exec(true, START, acts).value;
    var j, n := t.wire[at].poll, t.wire[at].received;
    assert HonestLine(t, at) && LatchOk(t, j) && LineRendered(acts, t, at) && LineInTime(acts, t.wire[at]);
    SentinelIsCounted(t.wire, at);
    assert Explained(Delivered(acts, j), TimerFires(j) in acts, t.polls[j]);
    assert t.polls[j].counted[..n] == Delivered(acts, j)[..n];
    RenderedIsCounted(acts, j, t.polls[j].counted[..n], at);
  }

  lemma RenderedIsCounted(acts: seq<Action>, j: nat, replies: seq<Reply>, at: nat)
    requires Rendered(acts, j, replies, at)
    ensures CountedThen(acts, j, |replies|, at)
  {
    var m: nat :| RenderedAt(acts, m, j, replies, at);
    PollsAreAsAsked(acts[..m]);
    var u := Exec(true, START, acts[..m]).value;
    assert Explained(Delivered(acts[..m], j), TimerFires(j) in acts[..m], u.polls[j]);
  }

  // --- the sentinel line in the browser --------------------------------------------------------

  /** The poll whose sentinel stands below the table, if any. */
  function LineShown(wire: seq<Frame>): Option<nat> {
    if wire == [] then None else
      var f := wire[|wire| - 1];
      if f.SentinelLine? then Some(f.poll)
      else if f.ClearSentinel? then None
      else LineShown(wire[..|wire| - 1])
  }

  /** Until the blank that a new request brings is out, the old poll's line may still stand. */
  predicate BlankPending(s: State) {
    s.main.SendingClear? || s.main == SendingBlank(false)
  }

  ghost predicate LineSafe(s: State) {
    && (s.main == SendingBlank(true) ==> LineShown(s.wire).None?)
    && (!BlankPending(s) && LineShown(s.wire).Some? ==> LineShown(s.wire).value + 1 == |s.polls|)
  }

  lemma AppendLine(wire: seq<Frame>, f: Frame)
    ensures LineShown(wire + [f]) ==
            if f.SentinelLine? then Some(f.poll) else if f.ClearSentinel? then None else LineShown(wire)
  {
    assert (wire + [f])[..|wire|] == wire;
  }

  lemma MainKeepsLine(s: State, a: Action)
    requires Shape(s) && LineSafe(s) && IsMainAction(a) && MainStep(true, s, a).Some?
    ensures LineSafe(MainStep(true, s, a).value)
  {
    if a.MainWrites? { AppendLine(s.wire, MainStep(true, s, a).value.wire[|s.wire|]); }
  }

  lemma TaskKeepsLine(s: State, a: Action)
    requires Shape(s) && LineSafe(s) && !IsMainAction(a) && Step(true, s, a).Some?
    ensures LineSafe(Step(true, s, a).value)
  {
    var t := Step(true, s, a).value;
    FramesSent(s, a);
    TasksKeepPolls(s, a);
    assert PollOk(s, a.task);
    if t.wire != s.wire { AppendLine(s.wire, t.wire[|s.wire|]); }
  }

  /** The sentinel in the browser is the latest poll's, or there is none, in every interleaving. */
  lemma {:induction false} LineShowsLatestPoll(s: State, acts: seq<Action>)
    requires Shape(s) && LineSafe(s) && Exec(true, s, acts).Some?
    ensures var t := Exec(true, s, acts).value;
            Shape(t) && LineSafe(t)
    decreases |acts|
  {
    if acts != [] {
      StepKeepsShape(s, acts[0]);
      if IsMainAction(acts[0]) { MainKeepsLine(s, acts[0]); } else { TaskKeepsLine(s, acts[0]); }
      LineShowsLatestPoll(Step(true, s, acts[0]).value, acts[1..]);
    }
  }

  // --- the ways a poll can end --------------------------------------------------------------

  lemma {:induction false} ClosedStays(s: State, acts: seq<Action>)
    requires Shape(s) && s.main.Closed? && Exec(true, s, acts).Some?
    ensures Exec(true, s, acts).value.wire == s.wire
    decreases |acts|
  {
    if acts != [] {
      var a, t := acts[0], Step(true, s, acts[0]).value;
      assert !IsMainAction(a) && PollOk(s, a.task);
      FramesSent(s, a);
      TasksKeepPolls(s, a);
      StepKeepsShape(s, a);
      ClosedStays(t, acts[1..]);
    }
  }

  /** The browser can leave whenever the loop waits for it, and then nothing more is ever sent. */
  lemma SilentAfterDisconnect(s: State, acts: seq<Action>)
    requires Shape(s) && s.main.Receiving?
    ensures Step(true, s, Disconnect).Some?
    ensures var t := Step(true, s, Disconnect).value;
            t.wire == s.wire && (Exec(true, t, acts).Some? ==> Exec(true, t, acts).value.wire == s.wire)
  {
    var t := Step(true, s, Disconnect).value;
    StepKeepsShape(s, Disconnect);
    if Exec(true, t, acts).Some? { ClosedStays(t, acts); }
  }

  lemma {:induction false} ExecAppend(s: State, acts: seq<Action>, a: Action)
    requires Exec(true, s, acts).Some?
    ensures Exec(true, s, acts + [a]) == Step(true, Exec(true, s, acts).value, a)
    decreases |acts|
  {
    if acts == [] {
      assert [a][1..] == [] && acts + [a] == [a];
    } else {
      assert (acts + [a])[1..] == acts[1..] + [a];
      ExecAppend(Step(true, s, acts[0]).value, acts[1..], a);
    }
  }

  /** A consumer can break off before it is bound or between replies; its poll still gets its one sentinel. */
  lemma BrokenConsumerStillAnswered(acts: seq<Action>, j: nat) returns (rest: seq<Action>)
    requires Exec(true, START, acts).Some? && j < |Exec(true, START, acts).value.polls|
    requires var p := Exec(true, START, acts).value.polls[j];
             !p.consumerCancelled && (p.consumer.Connecting? || p.consumer.Waiting?) && !p.timer.Absent?
    ensures var t := Exec(true, START, acts + [ConsumerFails(j)]);
            && t.Some?
            && var u := Exec(true, t.value, rest);
               u.Some? && j < |u.value.polls| && TimerDone(u.value.polls[j]) && Sentinels(u.value.wire, j) == 1
  {
    PollsAreAsAsked(acts);
    var s := Exec(true, START, acts).value;
    assert PollOk(s, j);
    ExecAppend(START, acts, ConsumerFails(j));
    rest := EveryPollGetsOne(acts + [ConsumerFails(j)], j);
  }

  /** A consumer at rest takes any reply to its poll: counted at once, or after its row if it has one. */
  lemma EveryReplyIsTaken(s: State, j: nat, reply: Reply)
    requires Shape(s) && j < |s.polls| && Live(s.polls[j]) && s.polls[j].consumer.Waiting?
    requires reply.corr == s.polls[j].corr
    ensures var t := Step(true, s, Deliver(j, reply));
            && t.Some? && |t.value.polls| == |s.polls| && t.value.wire == s.wire
            && (reply.shown ==> t.value.polls[j].consumer == SendingRow(reply, false))
            && (!reply.shown ==> t.value.polls[j].counted == s.polls[j].counted + [reply])
  {
    assert PollOk(s, j);
    LiveConsumerIsLatest(s, j);
  }

  /** A task cancelled while it holds its poll's lock unwinds and frees it. */
  lemma UnwindingFreesLock(s: State, j: nat)
    requires Shape(s) && j < |s.polls| && !s.polls[j].holder.Free?
    ensures var p := s.polls[j];
            var a := if p.holder.ByTimer? then TimerUnwinds(j) else ConsumerUnwinds(j);
            (if p.holder.ByTimer? then p.timerCancelled else p.consumerCancelled) ==>
              var t := Step(true, s, a);
              t.Some? && |t.value.polls| == |s.polls| && t.value.polls[j].holder.Free? && t.value.wire == s.wire
  {
    assert PollOk(s, j);
  }
}
