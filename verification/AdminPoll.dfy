/**
 * The admin status poll on one websocket: the socket loop, one consumer task and one timer
 * task per poll, interleaving at their awaits. A send puts its frame on the wire at some
 * point between the call and its return. A cancelled task takes no step but its unwinding.
 *
 * The closures the loop hands out share the loop's variables: `generation`, `myGen` and
 * `stateCell` below are those variables, whichever poll's closure reads them.
 */
module AdminPoll {
  import opened Models
  import opened Render

  /** A status reply on one poll's exchange; `shown` if it renders to a row. */
  datatype Reply = Reply(corr: string, body: string, shown: bool)

  datatype Frame =
    | ClearTable(corr: string)
    | ClearSentinel
    | Row(sender: nat, reply: Reply)
    | SentinelLine(poll: nat, received: nat, text: Sentinel)

  datatype MainPc = Receiving | SendingClear(written: bool) | SendingBlank(written: bool) | Binding | Closed

  datatype ConsumerPc =
    | Connecting
    | Waiting
    | SendingRow(reply: Reply, written: bool)
    | AwaitingLock(poll: nat)
    | SendingSentinel(poll: nat, received: nat, written: bool)
    | Gone

  datatype TimerPc =
    | Absent
    | Sleeping
    | TimerAwaitingLock
    | TimerSending(received: nat, written: bool)
    | TimerGone

  datatype Holder = Free | ByConsumer(task: nat) | ByTimer(task: nat)

  /** One poll's `_PollState`, its two tasks, and the replies counted so far. */
  datatype Poll = Poll(
    corr: string, total: nat, received: nat, completed: bool, holder: Holder,
    consumer: ConsumerPc, consumerCancelled: bool,
    timer: TimerPc, timerCancelled: bool,
    counted: seq<Reply>)

  datatype State = State(
    main: MainPc, generation: nat, myGen: nat, corr: string, total: nat,
    stateCell: Option<nat>, consumerTask: Option<nat>, sentinelTask: Option<nat>,
    polls: seq<Poll>, wire: seq<Frame>)

  datatype Action =
    | PollFrame(corr: string, total: nat)
    | Disconnect
    | MainWrites
    | MainResumes
    | MainBound
    | ConsumerBinds(task: nat)
    | Deliver(task: nat, reply: Reply)
    | ConsumerLocks(task: nat)
    | ConsumerWrites(task: nat)
    | ConsumerResumes(task: nat)
    | ConsumerFails(task: nat)
    | ConsumerUnwinds(task: nat)
    | TimerFires(task: nat)
    | TimerLocks(task: nat)
    | TimerWrites(task: nat)
    | TimerResumes(task: nat)
    | TimerUnwinds(task: nat)

  const START := State(Receiving, 0, 0, "", 0, None, None, None, [], [])

  // --- the socket loop ------------------------------------------------------------------

  predicate IsCurrent(s: State) {
    s.generation == s.myGen
  }

  function CancelConsumer(polls: seq<Poll>, task: Option<nat>): seq<Poll> {
    if task.Some? && task.value < |polls|
    then polls[task.value := polls[task.value].(consumerCancelled := true)] else polls
  }

  function CancelTimer(polls: seq<Poll>, task: Option<nat>): seq<Poll> {
    if task.Some? && task.value < |polls|
    then polls[task.value := polls[task.value].(timerCancelled := true)] else polls
  }

  function CancelInflight(s: State): State {
    s.(polls := CancelTimer(CancelConsumer(s.polls, s.consumerTask), s.sentinelTask))
  }

  /** `cancels` is false only in the hypothetical loop that relies on the generation alone. */
  function MainStep(cancels: bool, s: State, a: Action): Option<State> {
    match (a, s.main)
    case (PollFrame(corr, total), Receiving) =>
      var t := if cancels then CancelInflight(s) else s;
      Some(t.(generation := s.generation + 1, myGen := s.generation + 1,
              corr := corr, total := total, main := SendingClear(false)))
    case (Disconnect, Receiving) => Some(CancelInflight(s).(main := Closed))
    case (MainWrites, SendingClear(false)) =>
      Some(s.(wire := s.wire + [ClearTable(s.corr)], main := SendingClear(true)))
    case (MainResumes, SendingClear(true)) => Some(s.(main := SendingBlank(false)))
    case (MainWrites, SendingBlank(false)) =>
      Some(s.(wire := s.wire + [ClearSentinel], main := SendingBlank(true)))
    case (MainResumes, SendingBlank(true)) =>
      var poll := Poll(s.corr, s.total, 0, false, Free, Connecting, false, Absent, false, []);
      Some(s.(polls := s.polls + [poll], stateCell := Some(|s.polls|), consumerTask := Some(|s.polls|),
              main := Binding))
    case (MainBound, Binding) =>
      // bound, or given up waiting: the requests go out and the grace timer starts
      if s.stateCell.None? || s.stateCell.value >= |s.polls| then None else
        var j := s.stateCell.value;
        Some(s.(polls := s.polls[j := s.polls[j].(timer := Sleeping)], sentinelTask := Some(j), main := Receiving))
    case _ => None
  }

  // --- the consumer -----------------------------------------------------------------------

  function WithConsumer(s: State, i: nat, pc: ConsumerPc): State
    requires i < |s.polls|
  {
    s.(polls := s.polls[i := s.polls[i].(consumer := pc)])
  }

  function WithHolder(s: State, j: nat, holder: Holder): State
    requires j < |s.polls|
  {
    s.(polls := s.polls[j := s.polls[j].(holder := holder)])
  }

  /** `_guarded_on_reply` and `on_reply`, up to the next await. */
  function CountReply(s: State, i: nat, reply: Reply): State
    requires i < |s.polls|
  {
    if !IsCurrent(s) then WithConsumer(s, i, Waiting)
    else if s.stateCell.None? || s.stateCell.value >= |s.polls| then WithConsumer(s, i, Gone)
    else
      var j := s.stateCell.value;
      var p := s.polls[j].(received := s.polls[j].received + 1, counted := s.polls[j].counted + [reply]);
      var t := s.(polls := s.polls[j := p]);
      WithConsumer(t, i, if p.total > 0 && p.received >= p.total then AwaitingLock(j) else Waiting)
  }

  function ConsumerStep(s: State, i: nat, a: Action): Option<State>
    requires i < |s.polls|
  {
    var p := s.polls[i];
    if p.consumerCancelled then
      if !a.ConsumerUnwinds? || p.consumer.Gone? then None else
        var t := WithConsumer(s, i, Gone);
        if p.consumer.SendingSentinel? && p.consumer.poll < |s.polls|
        then Some(WithHolder(t, p.consumer.poll, Free)) else Some(t)
    else
      match (a, p.consumer)
      case (ConsumerBinds(_), Connecting) => Some(WithConsumer(s, i, Waiting))
      case (ConsumerFails(_), Connecting) => Some(WithConsumer(s, i, Gone))
      case (ConsumerFails(_), Waiting) => Some(WithConsumer(s, i, Gone))
      case (Deliver(_, reply), Waiting) =>
        if reply.corr != p.corr then None
        else if reply.shown && IsCurrent(s) then Some(WithConsumer(s, i, SendingRow(reply, false)))
        else Some(CountReply(s, i, reply))
      case (ConsumerWrites(_), SendingRow(reply, false)) =>
        Some(WithConsumer(s, i, SendingRow(reply, true)).(wire := s.wire + [Row(i, reply)]))
      case (ConsumerResumes(_), SendingRow(reply, true)) => Some(CountReply(s, i, reply))
      case (ConsumerLocks(_), AwaitingLock(j)) =>
        if j >= |s.polls| || !s.polls[j].holder.Free? then None
        else if s.polls[j].completed then Some(WithConsumer(s, i, Waiting))
        else Some(WithHolder(WithConsumer(s, i, SendingSentinel(j, s.polls[j].received, false)), j, ByConsumer(i)))
      case (ConsumerWrites(_), SendingSentinel(j, n, false)) =>
        if j >= |s.polls| then None else
          Some(WithConsumer(s, i, SendingSentinel(j, n, true))
                 .(wire := s.wire + [SentinelLine(j, n, RenderSentinel(n, s.polls[j].total))]))
      case (ConsumerResumes(_), SendingSentinel(j, n, true)) =>
        if j >= |s.polls| then None else
          var t := WithConsumer(s, i, Waiting);
          Some(t.(polls := t.polls[j := t.polls[j].(completed := true, holder := Free)]))
      case _ => None
  }

  // --- the timer ------------------------------------------------------------------------------

  function WithTimer(s: State, i: nat, pc: TimerPc, holder: Holder, completed: bool): State
    requires i < |s.polls|
  {
    s.(polls := s.polls[i := s.polls[i].(timer := pc, holder := holder, completed := completed)])
  }

  function TimerStep(s: State, i: nat, a: Action): Option<State>
    requires i < |s.polls|
  {
    var p := s.polls[i];
    if p.timerCancelled then
      if !a.TimerUnwinds? || p.timer.TimerGone? || p.timer.Absent? then None else
        Some(WithTimer(s, i, TimerGone, if p.timer.TimerSending? then Free else p.holder, p.completed))
    else
      match (a, p.timer)
      case (TimerFires(_), Sleeping) =>
        Some(WithTimer(s, i, if IsCurrent(s) then TimerAwaitingLock else TimerGone, p.holder, p.completed))
      case (TimerLocks(_), TimerAwaitingLock) =>
        if !p.holder.Free? then None
        else if p.completed then Some(WithTimer(s, i, TimerGone, Free, true))
        else Some(WithTimer(s, i, TimerSending(p.received, false), ByTimer(i), false))
      case (TimerWrites(_), TimerSending(n, false)) =>
        Some(WithTimer(s, i, TimerSending(n, true), p.holder, p.completed)
               .(wire := s.wire + [SentinelLine(i, n, RenderSentinel(n, p.total))]))
      case (TimerResumes(_), TimerSending(n, true)) => Some(WithTimer(s, i, TimerGone, Free, true))
      case _ => None
  }

  predicate IsMainAction(a: Action) {
    a.PollFrame? || a.Disconnect? || a.MainWrites? || a.MainResumes? || a.MainBound?
  }

  predicate IsTimerAction(a: Action) {
    a.TimerFires? || a.TimerLocks? || a.TimerWrites? || a.TimerResumes? || a.TimerUnwinds?
  }

  function Step(cancels: bool, s: State, a: Action): Option<State> {
    if IsMainAction(a) then MainStep(cancels, s, a)
    else if a.task >= |s.polls| then None
    else if IsTimerAction(a) then TimerStep(s, a.task, a)
    else ConsumerStep(s, a.task, a)
  }

  function Exec(cancels: bool, s: State, acts: seq<Action>): Option<State>
    decreases |acts|
  {
    if acts == [] then Some(s) else
      match Step(cancels, s, acts[0]) case None => None case Some(t) => Exec(cancels, t, acts[1..])
  }

  // --- the generation test ------------------------------------------------------------------

  /** At every await the two compared values are equal, with or without cancellation. */
  lemma {:induction false} GuardIsAlwaysTrue(cancels: bool, s: State, acts: seq<Action>)
    requires IsCurrent(s) && Exec(cancels, s, acts).Some?
    ensures IsCurrent(Exec(cancels, s, acts).value)
    decreases |acts|
  {
    if acts != [] { GuardIsAlwaysTrue(cancels, Step(cancels, s, acts[0]).value, acts[1..]); }
  }

  // --- what every step keeps --------------------------------------------------------------------

  /** Neither task of this poll can take another step that matters. */
  predicate Quiet(p: Poll) {
    (p.consumerCancelled || p.consumer.Gone?) && (p.timerCancelled || p.timer.TimerGone?)
  }

  function Last(s: State): Option<nat> {
    if s.polls == [] then None else Some(|s.polls| - 1)
  }

  /** The loop is between two polls: the previous one has been cancelled. */
  predicate BetweenPolls(s: State) {
    s.main.SendingClear? || s.main.SendingBlank? || s.main.Closed?
  }

  ghost predicate PollOk(s: State, i: nat)
    requires i < |s.polls|
  {
    var p := s.polls[i];
    && (i + 1 < |s.polls| || BetweenPolls(s) ==> Quiet(p))
    && (p.consumerCancelled || p.timerCancelled ==> Quiet(p))
    && (p.timer.Absent? <==> s.main.Binding? && i + 1 == |s.polls|)
    && (p.consumer.AwaitingLock? || p.consumer.SendingSentinel? ==> p.consumer.poll == i)
    && (p.consumer.SendingSentinel? <==> p.holder == ByConsumer(i))
    && (p.timer.TimerSending? <==> p.holder == ByTimer(i))
    && (p.holder.Free? || p.holder == ByConsumer(i) || p.holder == ByTimer(i))
    && (!p.holder.Free? ==> !p.completed)
    && p.received == |p.counted|
    && (p.consumer.SendingSentinel? ==> p.consumer.received <= |p.counted|)
    && (p.timer.TimerSending? ==> p.timer.received <= |p.counted|)
    && (p.consumer.SendingRow? ==> p.consumer.reply.corr == p.corr && p.consumer.reply.shown)
  }

  ghost predicate Shape(s: State) {
    && IsCurrent(s)
    && s.stateCell == s.consumerTask == Last(s)
    && (!s.main.Binding? ==> s.sentinelTask == Last(s))
    && (s.main.Binding? ==> s.polls != [])
    && (!BetweenPolls(s) && s.polls != [] ==> s.polls[|s.polls| - 1].corr == s.corr)
    && forall i :: 0 <= i < |s.polls| ==> PollOk(s, i)
  }

  lemma MainKeepsShape(s: State, a: Action)
    requires Shape(s) && MainStep(true, s, a).Some?
    ensures Shape(MainStep(true, s, a).value)
  {
    var t := MainStep(true, s, a).value;
    forall i | 0 <= i < |t.polls| ensures PollOk(t, i) {
      if i < |s.polls| { assert PollOk(s, i); }
    }
  }

  lemma TimerKeepsShape(s: State, i: nat, a: Action)
    requires Shape(s) && i < |s.polls| && TimerStep(s, i, a).Some?
    ensures Shape(TimerStep(s, i, a).value)
  {
    var t := TimerStep(s, i, a).value;
    forall k | 0 <= k < |t.polls| ensures PollOk(t, k) { assert PollOk(s, k); }
  }

  /** A consumer that can still act is the latest poll's, and finds its own poll's state. */
  lemma LiveConsumerIsLatest(s: State, i: nat)
    requires Shape(s) && i < |s.polls| && !s.polls[i].consumerCancelled && !s.polls[i].consumer.Gone?
    ensures i + 1 == |s.polls| && !BetweenPolls(s) && s.stateCell == Some(i) && s.corr == s.polls[i].corr
  {
    assert PollOk(s, i);
  }

  /** A consumer's step touches its own poll and the wire, nothing else. */
  lemma ConsumerIsLocal(s: State, i: nat, a: Action)
    requires Shape(s) && i < |s.polls| && ConsumerStep(s, i, a).Some?
    ensures var t := ConsumerStep(s, i, a).value;
            && |t.polls| == |s.polls|
            && t == s.(polls := s.polls[i := t.polls[i]], wire := t.wire)
  {
    assert PollOk(s, i);
    if !s.polls[i].consumerCancelled { LiveConsumerIsLatest(s, i); }
    var t := ConsumerStep(s, i, a).value;
    assert t.polls == s.polls[i := t.polls[i]];
  }

  lemma ConsumerKeepsPollOk(s: State, i: nat, a: Action)
    requires Shape(s) && i < |s.polls| && ConsumerStep(s, i, a).Some?
    ensures |ConsumerStep(s, i, a).value.polls| == |s.polls| && PollOk(ConsumerStep(s, i, a).value, i)
    ensures ConsumerStep(s, i, a).value.polls[i].corr == s.polls[i].corr
  {
    assert PollOk(s, i);
    if !s.polls[i].consumerCancelled { LiveConsumerIsLatest(s, i); }
  }

  lemma ConsumerKeepsShape(s: State, i: nat, a: Action)
    requires Shape(s) && i < |s.polls| && ConsumerStep(s, i, a).Some?
    ensures Shape(ConsumerStep(s, i, a).value)
  {
    var t := ConsumerStep(s, i, a).value;
    ConsumerIsLocal(s, i, a);
    ConsumerKeepsPollOk(s, i, a);
    forall k | 0 <= k < |t.polls| ensures PollOk(t, k) { assert PollOk(s, k); }
  }

  lemma StepKeepsShape(s: State, a: Action)
    requires Shape(s) && Step(true, s, a).Some?
    ensures Shape(Step(true, s, a).value)
  {
    if IsMainAction(a) { MainKeepsShape(s, a); }
    else if IsTimerAction(a) { TimerKeepsShape(s, a.task, a); }
    else { ConsumerKeepsShape(s, a.task, a); }
  }

  // --- the table in the browser ------------------------------------------------------------

  /** The rows left after the frames so far, and the poll whose clearing they follow. */
  function Table(wire: seq<Frame>): seq<Reply> {
    if wire == [] then [] else
      var f := wire[|wire| - 1];
      if f.ClearTable? then []
      else if f.Row? then Table(wire[..|wire| - 1]) + [f.reply]
      else Table(wire[..|wire| - 1])
  }

  function Owner(wire: seq<Frame>): Option<string> {
    if wire == [] then None else
      var f := wire[|wire| - 1];
      if f.ClearTable? then Some(f.corr) else Owner(wire[..|wire| - 1])
  }

  /** Until the latest poll's own clearing frame is out, the table is still the previous poll's. */
  predicate ClearPending(s: State) {
    s.main == SendingClear(false)
  }

  ghost predicate TableSafe(s: State) {
    && (forall r :: r in Table(s.wire) ==> Owner(s.wire) == Some(r.corr))
    && (s.generation > 0 && !ClearPending(s) ==> Owner(s.wire) == Some(s.corr))
    && (s.generation == 0 ==> s.polls == [] && s.wire == [] && (s.main.Receiving? || s.main.Closed?))
  }

  lemma AppendFrame(wire: seq<Frame>, f: Frame)
    ensures Table(wire + [f]) ==
            if f.ClearTable? then [] else if f.Row? then Table(wire) + [f.reply] else Table(wire)
    ensures Owner(wire + [f]) == if f.ClearTable? then Some(f.corr) else Owner(wire)
  {
    assert (wire + [f])[..|wire|] == wire;
  }

  /** A frame that only its own sender, about to write it, can put out. */
  predicate CanSend(s: State, a: Action, f: Frame) {
    match f
    case Row(i, r) =>
      && !IsMainAction(a) && i == a.task && !IsTimerAction(a) && i < |s.polls| && !s.polls[i].consumerCancelled
      && s.polls[i].consumer == SendingRow(r, false)
    case SentinelLine(i, n, text) =>
      && !IsMainAction(a) && i == a.task && i < |s.polls| && text == RenderSentinel(n, s.polls[i].total)
      && (if IsTimerAction(a)
          then !s.polls[i].timerCancelled && s.polls[i].timer == TimerSending(n, false)
          else !s.polls[i].consumerCancelled && s.polls[i].consumer == SendingSentinel(i, n, false))
    case _ => false
  }

  /** What a step from s to t put on the wire. */
  ghost predicate Sent(s: State, a: Action, t: State) {
    || t.wire == s.wire
    || (IsMainAction(a) && t.wire == s.wire + [ClearTable(s.corr)] && ClearPending(s) && !ClearPending(t))
    || (IsMainAction(a) && t.wire == s.wire + [ClearSentinel])
    || (!IsMainAction(a) && |t.wire| == |s.wire| + 1 && t.wire == s.wire + [t.wire[|s.wire|]]
        && CanSend(s, a, t.wire[|s.wire|]))
  }

  lemma FramesSent(s: State, a: Action)
    requires Shape(s) && Step(true, s, a).Some?
    ensures Sent(s, a, Step(true, s, a).value)
  {
    if !IsMainAction(a) && !IsTimerAction(a) { assert PollOk(s, a.task); }
  }

  /** How the loop's own variables move. */
  ghost predicate LoopMoves(s: State, a: Action, t: State) {
    && (t.generation == 0 ==> t.polls == [] && t.wire == [] && (t.main.Receiving? || t.main.Closed?))
    && (t.generation > 0 && !ClearPending(t) ==>
          t.corr == s.corr && s.generation > 0 && (ClearPending(s) ==> t.wire == s.wire + [ClearTable(s.corr)]))
  }

  lemma LoopStep(s: State, a: Action)
    requires Shape(s) && TableSafe(s) && Step(true, s, a).Some?
    ensures LoopMoves(s, a, Step(true, s, a).value)
  {
    if !IsMainAction(a) && !IsTimerAction(a) { ConsumerIsLocal(s, a.task, a); }
  }

  /** The table stays safe under any step that sends and moves like this. */
  lemma TableFromMoves(s: State, a: Action, t: State)
    requires Shape(s) && TableSafe(s) && Sent(s, a, t) && LoopMoves(s, a, t)
    requires !IsMainAction(a) ==> a.task < |s.polls|
    ensures TableSafe(t)
  {
    if t.wire != s.wire {
      var f := t.wire[|s.wire|];
      assert t.wire == s.wire + [f];
      AppendFrame(s.wire, f);
      if f.Row? {
        assert PollOk(s, f.sender);
        LiveConsumerIsLatest(s, f.sender);
      }
    }
  }

  lemma StepKeepsTable(s: State, a: Action)
    requires Shape(s) && TableSafe(s) && Step(true, s, a).Some?
    ensures TableSafe(Step(true, s, a).value)
  {
    FramesSent(s, a);
    LoopStep(s, a);
    TableFromMoves(s, a, Step(true, s, a).value);
  }

  /** Every row in the browser's table answers the latest poll, in every interleaving. */
  lemma {:induction false} TableShowsLatestPoll(s: State, acts: seq<Action>)
    requires Shape(s) && TableSafe(s) && Exec(true, s, acts).Some?
    ensures var t := Exec(true, s, acts).value;
            Shape(t) && TableSafe(t) && (!ClearPending(t) ==> forall r :: r in Table(t.wire) ==> r.corr == t.corr)
    decreases |acts|
  {
    if acts != [] {
      StepKeepsShape(s, acts[0]);
      StepKeepsTable(s, acts[0]);
      TableShowsLatestPoll(Step(true, s, acts[0]).value, acts[1..]);
    }
  }

  /** In particular from a fresh socket. */
  lemma TableFromTheStart(acts: seq<Action>)
    requires Exec(true, START, acts).Some?
    ensures var t := Exec(true, START, acts).value;
            IsCurrent(t) && (!ClearPending(t) ==> forall r :: r in Table(t.wire) ==> r.corr == t.corr)
  {
    TableShowsLatestPoll(START, acts);
  }

  // --- the sentinel -----------------------------------------------------------------------------

  function Sentinels(wire: seq<Frame>, j: nat): nat {
    if wire == [] then 0 else
      var f := wire[|wire| - 1];
      Sentinels(wire[..|wire| - 1], j) + if f.SentinelLine? && f.poll == j then 1 else 0
  }

  /** The lock's holder has its frame out but has not yet set the latch. */
  predicate FrameOut(p: Poll) {
    (p.consumer.SendingSentinel? && p.consumer.written) || (p.timer.TimerSending? && p.timer.written)
  }

  ghost predicate LatchOk(s: State, j: nat)
    requires j < |s.polls|
  {
    && Sentinels(s.wire, j) <= 1
    && (Sentinels(s.wire, j) == 1 ==> s.polls[j].completed || Quiet(s.polls[j]) || FrameOut(s.polls[j]))
  }

  ghost predicate Latched(s: State) {
    && (forall j: nat :: j < |s.polls| ==> LatchOk(s, j))
    && (forall j: nat :: j >= |s.polls| ==> Sentinels(s.wire, j) == 0)
  }

  lemma AppendSentinel(wire: seq<Frame>, f: Frame, j: nat)
    ensures Sentinels(wire + [f], j) == Sentinels(wire, j) + if f.SentinelLine? && f.poll == j then 1 else 0
  {
    assert (wire + [f])[..|wire|] == wire;
  }

  /** How one poll's flags move: the latch is never reopened, and a frame out leads to it. */
  ghost predicate FlagsMove(s: State, a: Action, t: State, j: nat) {
    && j < |s.polls| <= |t.polls|
    && (s.polls[j].completed ==> t.polls[j].completed)
    && (Quiet(s.polls[j]) ==> Quiet(t.polls[j]))
    && (FrameOut(s.polls[j]) ==> FrameOut(t.polls[j]) || t.polls[j].completed || Quiet(t.polls[j]))
    && (|t.wire| == |s.wire| + 1 && t.wire[|s.wire|].SentinelLine? && t.wire[|s.wire|].poll == j ==>
          FrameOut(t.polls[j]))
  }

  lemma MainFlags(s: State, a: Action, j: nat)
    requires Shape(s) && IsMainAction(a) && MainStep(true, s, a).Some? && j < |s.polls|
    ensures FlagsMove(s, a, MainStep(true, s, a).value, j)
  {
    assert PollOk(s, j);
  }

  lemma TimerFlags(s: State, a: Action, j: nat)
    requires Shape(s) && IsTimerAction(a) && a.task < |s.polls| && TimerStep(s, a.task, a).Some? && j < |s.polls|
    ensures FlagsMove(s, a, TimerStep(s, a.task, a).value, j)
  {
    assert PollOk(s, j);
  }

  lemma ConsumerFlags(s: State, a: Action, j: nat)
    requires Shape(s) && !IsMainAction(a) && !IsTimerAction(a) && j < |s.polls|
    requires a.task < |s.polls| && ConsumerStep(s, a.task, a).Some?
    ensures FlagsMove(s, a, ConsumerStep(s, a.task, a).value, j)
  {
    assert PollOk(s, j) && PollOk(s, a.task);
    ConsumerIsLocal(s, a.task, a);
  }

  lemma FlagsStep(s: State, a: Action, j: nat)
    requires Shape(s) && Step(true, s, a).Some? && j < |s.polls|
    ensures FlagsMove(s, a, Step(true, s, a).value, j)
  {
    if IsMainAction(a) { MainFlags(s, a, j); }
    else if IsTimerAction(a) { TimerFlags(s, a, j); }
    else { ConsumerFlags(s, a, j); }
  }

  /** The latch holds under any step that sends and moves like this. */
  lemma LatchFromMoves(s: State, a: Action, t: State, j: nat)
    requires Shape(s) && Sent(s, a, t) && FlagsMove(s, a, t, j) && LatchOk(s, j)
    ensures LatchOk(t, j)
  {
    assert PollOk(s, j);
    if t.wire != s.wire { AppendSentinel(s.wire, t.wire[|s.wire|], j); }
  }

  lemma NoSentinelYet(s: State, a: Action, t: State, j: nat)
    requires Sent(s, a, t) && j >= |s.polls| && Sentinels(s.wire, j) == 0
    ensures Sentinels(t.wire, j) == 0
  {
    if t.wire != s.wire { AppendSentinel(s.wire, t.wire[|s.wire|], j); }
  }

  lemma StepKeepsLatch(s: State, a: Action)
    requires Shape(s) && Latched(s) && Step(true, s, a).Some?
    ensures Latched(Step(true, s, a).value)
  {
    var t := Step(true, s, a).value;
    FramesSent(s, a);
    PollsOnlyGrow(s, a);
    forall j: nat | j < |t.polls| ensures LatchOk(t, j) {
      if j < |s.polls| {
        FlagsStep(s, a, j);
        LatchFromMoves(s, a, t, j);
      } else {
        NoSentinelYet(s, a, t, j);
      }
    }
    forall j: nat | j >= |t.polls| ensures Sentinels(t.wire, j) == 0 { NoSentinelYet(s, a, t, j); }
  }

  /** A new poll is the only addition, and it has counted nothing. */
  lemma PollsOnlyGrow(s: State, a: Action)
    requires Shape(s) && Step(true, s, a).Some?
    ensures var t := Step(true, s, a).value;
            && |s.polls| <= |t.polls| <= |s.polls| + 1
            && (!IsMainAction(a) ==> a.task < |s.polls|)
            && (|t.polls| > |s.polls| ==>
                  t.polls[|s.polls|].counted == [] && t.polls[|s.polls|].consumer.Connecting?)
  {
    if !IsMainAction(a) && !IsTimerAction(a) { ConsumerIsLocal(s, a.task, a); }
  }

  // --- what the sentinel's number counts ---------------------------------------------------

  /** The rows poll j's consumer has sent, in order. */
  function RowsBy(wire: seq<Frame>, j: nat): seq<Reply> {
    if wire == [] then [] else
      var f := wire[|wire| - 1];
      RowsBy(wire[..|wire| - 1], j) + if f.Row? && f.sender == j then [f.reply] else []
  }

  /** The replies that render to a row. */
  function Shown(replies: seq<Reply>): seq<Reply> {
    if replies == [] then [] else
      Shown(replies[..|replies| - 1]) + if replies[|replies| - 1].shown then [replies[|replies| - 1]] else []
  }

  /** The row that is out but not counted yet. */
  function Uncounted(pc: ConsumerPc): seq<Reply> {
    if pc.SendingRow? && pc.written then [pc.reply] else []
  }

  /** Every counted reply with a row had it sent, in order; a live consumer is at most one ahead. */
  ghost predicate RowsOk(s: State, j: nat)
    requires j < |s.polls|
  {
    var p := s.polls[j];
    && Shown(p.counted) <= RowsBy(s.wire, j)
    && (!p.consumerCancelled && !p.consumer.Gone? ==>
          RowsBy(s.wire, j) == Shown(p.counted) + Uncounted(p.consumer))
  }

  ghost predicate RowsSent(s: State) {
    && (forall j: nat :: j < |s.polls| ==> RowsOk(s, j))
    && (forall j: nat :: j >= |s.polls| ==> RowsBy(s.wire, j) == [])
  }

  /**
   * A sentinel line's number is of replies that have been counted, its text is the one for that
   * number, and the rows of all those replies are already on the wire.
   */
  ghost predicate HonestLine(s: State, at: nat)
    requires at < |s.wire|
  {
    s.wire[at].SentinelLine? ==>
      var j, n := s.wire[at].poll, s.wire[at].received;
      && j < |s.polls| && n <= |s.polls[j].counted|
      && s.wire[at].text == RenderSentinel(n, s.polls[j].total)
      && Shown(s.polls[j].counted[..n]) <= RowsBy(s.wire[..at], j)
  }

  ghost predicate Honest(s: State) {
    forall at :: 0 <= at < |s.wire| ==> HonestLine(s, at)
  }

  lemma AppendRow(wire: seq<Frame>, f: Frame, j: nat)
    ensures RowsBy(wire + [f], j) == RowsBy(wire, j) + if f.Row? && f.sender == j then [f.reply] else []
  {
    assert (wire + [f])[..|wire|] == wire;
  }

  lemma ShownOneMore(replies: seq<Reply>, r: Reply)
    ensures Shown(replies + [r]) == Shown(replies) + if r.shown then [r] else []
  {
    assert (replies + [r])[..|replies|] == replies;
  }

  lemma {:induction false} ShownOfPrefix(replies: seq<Reply>, n: nat)
    requires n <= |replies|
    ensures Shown(replies[..n]) <= Shown(replies)
  {
    if n < |replies| {
      ShownOfPrefix(replies[..|replies| - 1], n);
      assert replies[..|replies| - 1][..n] == replies[..n];
    } else {
      assert replies[..n] == replies;
    }
  }

  /** The replies counted for a poll only ever grow, by at most one at the end. */
  ghost predicate CountsMove(s: State, t: State, j: nat) {
    && j < |s.polls| <= |t.polls|
    && t.polls[j].total == s.polls[j].total
    && (t.polls[j].counted == s.polls[j].counted
        || exists r :: t.polls[j].counted == s.polls[j].counted + [r] && t.wire == s.wire)
  }

  /** What a step of poll j's own consumer does to the rows and counts of its poll. */
  ghost predicate OwnRowsMove(s: State, t: State, j: nat)
    requires j < |s.polls| && j < |t.polls|
  {
    var p, q := s.polls[j], t.polls[j];
    || (t.wire == s.wire && q.counted == p.counted && Uncounted(q.consumer) == Uncounted(p.consumer)
        && (q.consumerCancelled || q.consumer.Gone? <==> p.consumerCancelled || p.consumer.Gone?))
    || (t.wire == s.wire && q.counted == p.counted && (q.consumerCancelled || q.consumer.Gone?))
    || (p.consumer.SendingRow? && t.wire == s.wire + [Row(j, p.consumer.reply)] && q.counted == p.counted
        && Uncounted(p.consumer) == [] && Uncounted(q.consumer) == [p.consumer.reply]
        && !p.consumerCancelled)
    || (t.wire == s.wire && Uncounted(p.consumer) != [] && p.consumer.reply.shown && !p.consumerCancelled
        && q.counted == p.counted + [p.consumer.reply] && Uncounted(q.consumer) == [])
    || (t.wire == s.wire && Uncounted(p.consumer) == [] && Uncounted(q.consumer) == []
        && !p.consumerCancelled && !p.consumer.Gone?
        && exists r: Reply :: !r.shown && q.counted == p.counted + [r])
    || (|t.wire| == |s.wire| + 1 && t.wire == s.wire + [t.wire[|s.wire|]] && t.wire[|s.wire|].SentinelLine?
        && q.counted == p.counted && Uncounted(q.consumer) == Uncounted(p.consumer) == []
        && !p.consumerCancelled && !p.consumer.Gone?)
  }

  lemma ConsumerMovesRows(s: State, j: nat, a: Action)
    requires Shape(s) && j < |s.polls| && ConsumerStep(s, j, a).Some?
    ensures |ConsumerStep(s, j, a).value.polls| == |s.polls| && OwnRowsMove(s, ConsumerStep(s, j, a).value, j)
    ensures ConsumerStep(s, j, a).value.polls[j].total == s.polls[j].total
  {
    assert PollOk(s, j);
    if !s.polls[j].consumerCancelled && !s.polls[j].consumer.Gone? { LiveConsumerIsLatest(s, j); }
  }

  /** Rows stay accounted for under any step that moves them like this. */
  lemma RowsFromOwnMove(s: State, t: State, j: nat)
    requires j < |s.polls| && j < |t.polls| && OwnRowsMove(s, t, j) && RowsOk(s, j)
    ensures RowsOk(t, j)
  {
    var p, q := s.polls[j], t.polls[j];
    if t.wire != s.wire { AppendRow(s.wire, t.wire[|s.wire|], j); }
    if q.counted != p.counted {
      var r :| q.counted == p.counted + [r];
      ShownOneMore(p.counted, r);
      assert (p.counted + [r])[|p.counted|] == r;
    }
  }

  /** A step of anyone else leaves poll j's rows and counts alone. */
  ghost predicate OthersMove(s: State, t: State, j: nat) {
    && j < |s.polls| && j < |t.polls|
    && t.polls[j].counted == s.polls[j].counted && t.polls[j].consumer == s.polls[j].consumer
    && t.polls[j].total == s.polls[j].total
    && (s.polls[j].consumerCancelled ==> t.polls[j].consumerCancelled)
  }

  lemma OthersLeaveConsumer(s: State, a: Action, j: nat)
    requires Shape(s) && Step(true, s, a).Some? && j < |s.polls|
    requires IsMainAction(a) || IsTimerAction(a) || a.task != j
    ensures OthersMove(s, Step(true, s, a).value, j)
  {
    if !IsMainAction(a) && !IsTimerAction(a) { ConsumerIsLocal(s, a.task, a); }
  }

  lemma OthersSendNoRow(s: State, a: Action, t: State, j: nat)
    requires Sent(s, a, t) && (IsMainAction(a) || IsTimerAction(a) || a.task != j)
    ensures RowsBy(t.wire, j) == RowsBy(s.wire, j)
  {
    if t.wire != s.wire { AppendRow(s.wire, t.wire[|s.wire|], j); }
  }

  lemma StepKeepsRowsFor(s: State, a: Action, j: nat)
    requires Shape(s) && Step(true, s, a).Some? && j < |s.polls| && RowsOk(s, j)
    ensures j < |Step(true, s, a).value.polls| && RowsOk(Step(true, s, a).value, j)
  {
    var t := Step(true, s, a).value;
    if IsMainAction(a) || IsTimerAction(a) || a.task != j {
      FramesSent(s, a);
      OthersLeaveConsumer(s, a, j);
      OthersSendNoRow(s, a, t, j);
    } else {
      ConsumerMovesRows(s, j, a);
      RowsFromOwnMove(s, t, j);
    }
  }

  lemma OldPollsKeepRows(s: State, a: Action, t: State)
    requires Shape(s) && RowsSent(s) && Step(true, s, a) == Some(t)
    ensures |s.polls| <= |t.polls| && forall j: nat :: j < |s.polls| ==> RowsOk(t, j)
  {
    PollsOnlyGrow(s, a);
    forall j: nat | j < |s.polls| ensures RowsOk(t, j) {
      assert RowsOk(s, j);
      StepKeepsRowsFor(s, a, j);
    }
  }

  lemma StepKeepsRows(s: State, a: Action)
    requires Shape(s) && RowsSent(s) && Step(true, s, a).Some?
    ensures RowsSent(Step(true, s, a).value)
  {
    var t := Step(true, s, a).value;
    FramesSent(s, a);
    PollsOnlyGrow(s, a);
    OldPollsKeepRows(s, a, t);
    NewPollHasNoRows(s, a, t);
  }

  lemma NewPollHasNoRows(s: State, a: Action, t: State)
    requires RowsSent(s) && Sent(s, a, t) && |s.polls| <= |t.polls| <= |s.polls| + 1
    requires !IsMainAction(a) ==> a.task < |s.polls|
    requires |t.polls| > |s.polls| ==> t.polls[|s.polls|].counted == [] && t.polls[|s.polls|].consumer.Connecting?
    requires forall j: nat :: j < |s.polls| ==> RowsOk(t, j)
    ensures RowsSent(t)
  {
    forall j: nat | j >= |s.polls| ensures RowsBy(t.wire, j) == [] { OthersSendNoRow(s, a, t, j); }
  }

  lemma CountedStep(s: State, a: Action, j: nat)
    requires Shape(s) && Step(true, s, a).Some? && j < |s.polls|
    ensures CountsMove(s, Step(true, s, a).value, j)
  {
    if IsMainAction(a) || IsTimerAction(a) || a.task != j {
      PollsOnlyGrow(s, a);
      OthersLeaveConsumer(s, a, j);
    } else {
      ConsumerMovesRows(s, j, a);
    }
  }

  /** A line stays honest while counts and wire only grow. */
  lemma LineStaysHonest(s: State, t: State, at: nat)
    requires at < |s.wire| && s.wire <= t.wire && HonestLine(s, at)
    requires s.wire[at].SentinelLine? ==> CountsMove(s, t, s.wire[at].poll)
    ensures HonestLine(t, at)
  {
    if s.wire[at].SentinelLine? {
      var j, n := s.wire[at].poll, s.wire[at].received;
      assert t.wire[..at] == s.wire[..at] && t.polls[j].counted[..n] == s.polls[j].counted[..n];
    }
  }

  /** The line just sent is honest. */
  lemma NewLineIsHonest(s: State, a: Action, t: State)
    requires Shape(s) && RowsSent(s) && |t.wire| == |s.wire| + 1 && Sent(s, a, t)
    requires t.wire[|s.wire|].SentinelLine? ==>
      t.wire[|s.wire|].poll < |s.polls| && CountsMove(s, t, t.wire[|s.wire|].poll)
    ensures HonestLine(t, |s.wire|)
  {
    if t.wire[|s.wire|].SentinelLine? {
      var j, n := t.wire[|s.wire|].poll, t.wire[|s.wire|].received;
      assert t.wire[..|s.wire|] == s.wire;
      assert PollOk(s, j) && RowsOk(s, j);
      ShownOfPrefix(s.polls[j].counted, n);
    }
  }

  lemma StepKeepsHonest(s: State, a: Action)
    requires Shape(s) && RowsSent(s) && Honest(s) && Step(true, s, a).Some?
    ensures Honest(Step(true, s, a).value)
  {
    var t := Step(true, s, a).value;
    FramesSent(s, a);
    forall j: nat | j < |s.polls| { CountedStep(s, a, j); }
    forall at | 0 <= at < |t.wire| ensures HonestLine(t, at) {
      if at < |s.wire| {
        assert HonestLine(s, at);
        LineStaysHonest(s, t, at);
      } else {
        NewLineIsHonest(s, a, t);
      }
    }
  }

  ghost predicate SentinelSafe(s: State) {
    Latched(s) && RowsSent(s) && Honest(s)
  }

  /** At most one sentinel per poll, and every sentinel is truthful, in every interleaving. */
  lemma {:induction false} SentinelsAreSafe(s: State, acts: seq<Action>)
    requires Shape(s) && SentinelSafe(s) && Exec(true, s, acts).Some?
    ensures var t := Exec(true, s, acts).value; Shape(t) && SentinelSafe(t)
    decreases |acts|
  {
    if acts != [] {
      StepKeepsShape(s, acts[0]);
      StepKeepsLatch(s, acts[0]);
      StepKeepsRows(s, acts[0]);
      StepKeepsHonest(s, acts[0]);
      SentinelsAreSafe(Step(true, s, acts[0]).value, acts[1..]);
    }
  }

  // --- and it is sent ------------------------------------------------------------------------

  /** Poll j's timer has run to its end. */
  predicate TimerDone(p: Poll) {
    p.timer.TimerGone? && !p.timerCancelled
  }

  /** All replies are in, and the consumer that counted the last one has gone on. */
  predicate AllCounted(p: Poll) {
    && p.total > 0 && |p.counted| >= p.total
    && !p.consumerCancelled && !p.consumer.AwaitingLock? && !p.consumer.SendingSentinel? && !p.consumer.Gone?
  }

  ghost predicate SentOk(s: State, j: nat)
    requires j < |s.polls|
  {
    var p := s.polls[j];
    && (p.completed || FrameOut(p) ==> Sentinels(s.wire, j) >= 1)
    && (TimerDone(p) || AllCounted(p) ==> p.completed)
  }

  ghost predicate AllSent(s: State) {
    forall j: nat :: j < |s.polls| ==> SentOk(s, j)
  }

  /** How one poll's flags get set: the latch after the frame, and the ends of its tasks after the latch. */
  ghost predicate EndsMove(s: State, a: Action, t: State, j: nat) {
    && j < |s.polls| <= |t.polls|
    && (FrameOut(t.polls[j]) ==>
          || FrameOut(s.polls[j])
          || (|t.wire| == |s.wire| + 1 && t.wire[|s.wire|].SentinelLine? && t.wire[|s.wire|].poll == j))
    && (t.polls[j].completed ==> s.polls[j].completed || FrameOut(s.polls[j]))
    && (s.polls[j].completed ==> t.polls[j].completed)
    && (TimerDone(t.polls[j]) || AllCounted(t.polls[j]) ==>
          t.polls[j].completed || TimerDone(s.polls[j]) || AllCounted(s.polls[j]))
  }

  lemma MainEnds(s: State, a: Action, j: nat)
    requires Shape(s) && IsMainAction(a) && MainStep(true, s, a).Some? && j < |s.polls|
    ensures EndsMove(s, a, MainStep(true, s, a).value, j)
  {
    assert PollOk(s, j);
  }

  lemma TimerEnds(s: State, a: Action, j: nat)
    requires Shape(s) && IsTimerAction(a) && a.task < |s.polls| && TimerStep(s, a.task, a).Some? && j < |s.polls|
    ensures EndsMove(s, a, TimerStep(s, a.task, a).value, j)
  {
    assert PollOk(s, j);
  }

  lemma ConsumerEnds(s: State, a: Action, j: nat)
    requires Shape(s) && !IsMainAction(a) && !IsTimerAction(a) && j < |s.polls|
    requires a.task < |s.polls| && ConsumerStep(s, a.task, a).Some?
    ensures EndsMove(s, a, ConsumerStep(s, a.task, a).value, j)
  {
    assert PollOk(s, j) && PollOk(s, a.task);
    ConsumerIsLocal(s, a.task, a);
  }

  lemma EndsStep(s: State, a: Action, j: nat)
    requires Shape(s) && Step(true, s, a).Some? && j < |s.polls|
    ensures EndsMove(s, a, Step(true, s, a).value, j)
  {
    if IsMainAction(a) { MainEnds(s, a, j); }
    else if IsTimerAction(a) { TimerEnds(s, a, j); }
    else { ConsumerEnds(s, a, j); }
  }

  lemma SentFromMoves(s: State, a: Action, t: State, j: nat)
    requires Sent(s, a, t) && EndsMove(s, a, t, j) && SentOk(s, j)
    ensures SentOk(t, j)
  {
    if t.wire != s.wire { AppendSentinel(s.wire, t.wire[|s.wire|], j); }
  }

  lemma SentFromAllMoves(s: State, a: Action, t: State)
    requires AllSent(s) && Sent(s, a, t) && |s.polls| <= |t.polls| <= |s.polls| + 1
    requires forall j: nat :: j < |s.polls| ==> EndsMove(s, a, t, j)
    requires |t.polls| > |s.polls| ==> NewlyOpen(t.polls[|s.polls|])
    ensures AllSent(t)
  {
    forall j: nat | j < |t.polls| ensures SentOk(t, j) {
      if j < |s.polls| { SentFromMoves(s, a, t, j); }
    }
  }

  predicate NewlyOpen(p: Poll) {
    p.consumer.Connecting? && p.timer.Absent? && !p.completed && p.counted == []
  }

  lemma StepKeepsSent(s: State, a: Action)
    requires Shape(s) && AllSent(s) && Step(true, s, a).Some?
    ensures AllSent(Step(true, s, a).value)
  {
    var t := Step(true, s, a).value;
    FramesSent(s, a);
    PollsOnlyGrow(s, a);
    NewPollIsOpen(s, a);
    forall j: nat | j < |s.polls| ensures EndsMove(s, a, t, j) { EndsStep(s, a, j); }
    SentFromAllMoves(s, a, t);
  }

  lemma NewPollIsOpen(s: State, a: Action)
    requires Shape(s) && Step(true, s, a).Some?
    ensures var t := Step(true, s, a).value;
            |t.polls| > |s.polls| ==> NewlyOpen(t.polls[|s.polls|])
  {
    if !IsMainAction(a) && !IsTimerAction(a) { ConsumerIsLocal(s, a.task, a); }
  }

  /**
   * In every interleaving, a poll has exactly one sentinel on the wire once its timer has run to
   * its end, and once all its replies are in and its consumer has gone on.
   */
  lemma {:induction false} ExactlyOneSentinel(s: State, acts: seq<Action>)
    requires Shape(s) && SentinelSafe(s) && AllSent(s) && Exec(true, s, acts).Some?
    ensures var t := Exec(true, s, acts).value;
            && Shape(t) && SentinelSafe(t) && AllSent(t)
            && forall j: nat :: j < |t.polls| && (TimerDone(t.polls[j]) || AllCounted(t.polls[j])) ==>
                 Sentinels(t.wire, j) == 1
    decreases |acts|
  {
    if acts == [] {
      forall j: nat | j < |s.polls| && (TimerDone(s.polls[j]) || AllCounted(s.polls[j]))
        ensures Sentinels(s.wire, j) == 1
      {
        assert SentOk(s, j) && LatchOk(s, j);
      }
    } else {
      StepKeepsShape(s, acts[0]);
      StepKeepsLatch(s, acts[0]);
      StepKeepsRows(s, acts[0]);
      StepKeepsHonest(s, acts[0]);
      StepKeepsSent(s, acts[0]);
      ExactlyOneSentinel(Step(true, s, acts[0]).value, acts[1..]);
    }
  }

  /** The step that brings poll j's timer, or whoever holds the lock before it, nearer to its end. */
  function Next(p: Poll, j: nat): Action {
    if p.timer.Sleeping? then TimerFires(j)
    else if p.timer.TimerSending? then if p.timer.written then TimerResumes(j) else TimerWrites(j)
    else if p.consumer.SendingSentinel? then if p.consumer.written then ConsumerResumes(j) else ConsumerWrites(j)
    else TimerLocks(j)
  }

  /** At most so many steps are left to that end. */
  function Left(p: Poll): nat {
    var consumer := if !p.consumer.SendingSentinel? then 0 else if p.consumer.written then 1 else 2;
    match p.timer
    case Absent => 0
    case Sleeping => consumer + 4
    case TimerAwaitingLock => consumer + 3
    case TimerSending(_, written) => if written then 1 else 2
    case TimerGone => 0
  }

  lemma NextStep(s: State, j: nat)
    requires Shape(s) && j < |s.polls| && !s.polls[j].timerCancelled
    requires !s.polls[j].timer.Absent? && !s.polls[j].timer.TimerGone?
    ensures var t := Step(true, s, Next(s.polls[j], j));
            && t.Some? && j < |t.value.polls| && !t.value.polls[j].timerCancelled && !t.value.polls[j].timer.Absent?
            && Left(t.value.polls[j]) < Left(s.polls[j])
  {
    assert PollOk(s, j);
  }

  /**
   * No poll gets stuck on its lock: from any state, a poll whose timer is running and not
   * cancelled reaches the end of its timer in at most six steps of its own tasks.
   */
  lemma {:induction false} TimerCanFinish(s: State, j: nat) returns (acts: seq<Action>)
    requires Shape(s) && j < |s.polls| && !s.polls[j].timerCancelled && !s.polls[j].timer.Absent?
    ensures |acts| <= Left(s.polls[j]) <= 6
    ensures forall i :: 0 <= i < |acts| ==> !IsMainAction(acts[i]) && acts[i].task == j
    ensures var t := Exec(true, s, acts); t.Some? && j < |t.value.polls| && TimerDone(t.value.polls[j])
    decreases Left(s.polls[j])
  {
    if s.polls[j].timer.TimerGone? {
      acts := [];
    } else {
      var a := Next(s.polls[j], j);
      NextStep(s, j);
      StepKeepsShape(s, a);
      var rest := TimerCanFinish(Step(true, s, a).value, j);
      acts := [a] + rest;
      assert acts[1..] == rest;
    }
  }

  /**
   * On a fresh socket, whatever has happened so far, a poll that has not been cancelled gets
   * exactly one sentinel: at most six steps of its own tasks complete it.
   */
  lemma EveryPollGetsOne(acts: seq<Action>, j: nat) returns (rest: seq<Action>)
    requires Exec(true, START, acts).Some? && j < |Exec(true, START, acts).value.polls|
    requires var p := Exec(true, START, acts).value.polls[j]; !p.timerCancelled && !p.timer.Absent?
    ensures |rest| <= 6 && forall i :: 0 <= i < |rest| ==> !IsMainAction(rest[i]) && rest[i].task == j
    ensures var t := Exec(true, Exec(true, START, acts).value, rest);
            t.Some? && j < |t.value.polls| && TimerDone(t.value.polls[j]) && Sentinels(t.value.wire, j) == 1
  {
    ExactlyOneSentinel(START, acts);
    var s := Exec(true, START, acts).value;
    rest := TimerCanFinish(s, j);
    ExactlyOneSentinel(s, rest);
  }

  // --- the number on the wire ---------------------------------------------------------------

  lemma {:induction false} ExecFront(s: State, acts: seq<Action>)
    requires acts != [] && Exec(true, s, acts).Some?
    ensures Exec(true, s, acts[..|acts| - 1]).Some?
    ensures Exec(true, s, acts) == Step(true, Exec(true, s, acts[..|acts| - 1]).value, acts[|acts| - 1])
    decreases |acts|
  {
    if |acts| > 1 {
      ExecFront(Step(true, s, acts[0]).value, acts[1..]);
      assert acts[1..][..|acts| - 2] == acts[..|acts| - 1][1..];
    } else {
      assert acts[1..] == [] && acts[..0] == [];
    }
  }

  /**
   * The m-th action is a task of poll j entering the lock; just these replies had been counted
   * for the poll then, and at most this many frames sent.
   */
  ghost predicate RenderedAt(acts: seq<Action>, m: nat, j: nat, replies: seq<Reply>, sent: nat) {
    && m < |acts| && (acts[m] == ConsumerLocks(j) || acts[m] == TimerLocks(j))
    && var u := Exec(true, START, acts[..m]);
       u.Some? && j < |u.value.polls| && u.value.polls[j].counted == replies && |u.value.wire| <= sent
  }

  ghost predicate Rendered(acts: seq<Action>, j: nat, replies: seq<Reply>, sent: nat) {
    exists m :: RenderedAt(acts, m, j, replies, sent)
  }

  /** Poll j's tasks hold the numbers they rendered. */
  ghost predicate TasksRendered(acts: seq<Action>, t: State, j: nat)
    requires j < |t.polls|
  {
    var p := t.polls[j];
    && (p.consumer.SendingSentinel? ==>
          p.consumer.received <= |p.counted| && Rendered(acts, j, p.counted[..p.consumer.received], |t.wire|))
    && (p.timer.TimerSending? ==>
          p.timer.received <= |p.counted| && Rendered(acts, j, p.counted[..p.timer.received], |t.wire|))
  }

  ghost predicate LineRendered(acts: seq<Action>, t: State, at: nat)
    requires at < |t.wire|
  {
    t.wire[at].SentinelLine? ==>
      var j, n := t.wire[at].poll, t.wire[at].received;
      j < |t.polls| && n <= |t.polls[j].counted| && Rendered(acts, j, t.polls[j].counted[..n], at)
  }

  ghost predicate AllRendered(acts: seq<Action>, t: State) {
    && (forall j :: 0 <= j < |t.polls| ==> TasksRendered(acts, t, j))
    && (forall at :: 0 <= at < |t.wire| ==> LineRendered(acts, t, at))
  }

  lemma RenderedStays(acts: seq<Action>, a: Action, j: nat, replies: seq<Reply>, sent: nat, later: nat)
    requires Rendered(acts, j, replies, sent) && sent <= later
    ensures Rendered(acts + [a], j, replies, later)
  {
    var m: nat :| RenderedAt(acts, m, j, replies, sent);
    assert (acts + [a])[..m] == acts[..m] && (acts + [a])[m] == acts[m];
    assert RenderedAt(acts + [a], m, j, replies, later);
  }

  lemma RenderedNow(acts: seq<Action>, s: State, a: Action, j: nat)
    requires Exec(true, START, acts) == Some(s) && j < |s.polls| && (a == ConsumerLocks(j) || a == TimerLocks(j))
    ensures Rendered(acts + [a], j, s.polls[j].counted, |s.wire|)
  {
    assert (acts + [a])[..|acts|] == acts && (acts + [a])[|acts|] == a;
    assert RenderedAt(acts + [a], |acts|, j, s.polls[j].counted, |s.wire|);
  }

  /** A number in hand after a step was in hand before it, or is the count as the lock was entered. */
  ghost predicate NumbersMove(s: State, a: Action, t: State, j: nat) {
    && j < |s.polls| <= |t.polls|
    && (t.polls[j].consumer.SendingSentinel? ==>
          || (s.polls[j].consumer.SendingSentinel? && s.polls[j].consumer.received == t.polls[j].consumer.received)
          || (a == ConsumerLocks(j) && t.polls[j].consumer.received == |s.polls[j].counted| && t.wire == s.wire
              && t.polls[j].counted == s.polls[j].counted))
    && (t.polls[j].timer.TimerSending? ==>
          || (s.polls[j].timer.TimerSending? && s.polls[j].timer.received == t.polls[j].timer.received)
          || (a == TimerLocks(j) && t.polls[j].timer.received == |s.polls[j].counted| && t.wire == s.wire
              && t.polls[j].counted == s.polls[j].counted))
  }

  lemma MainNumbers(s: State, a: Action, j: nat)
    requires Shape(s) && IsMainAction(a) && MainStep(true, s, a).Some? && j < |s.polls|
    ensures NumbersMove(s, a, MainStep(true, s, a).value, j)
  {
  }

  lemma TimerNumbers(s: State, a: Action, j: nat)
    requires Shape(s) && IsTimerAction(a) && a.task < |s.polls| && TimerStep(s, a.task, a).Some? && j < |s.polls|
    ensures NumbersMove(s, a, TimerStep(s, a.task, a).value, j)
  {
    assert PollOk(s, j);
  }

  lemma ConsumerNumbers(s: State, a: Action, j: nat)
    requires Shape(s) && !IsMainAction(a) && !IsTimerAction(a) && j < |s.polls|
    requires a.task < |s.polls| && ConsumerStep(s, a.task, a).Some?
    ensures NumbersMove(s, a, ConsumerStep(s, a.task, a).value, j)
  {
    assert PollOk(s, j) && PollOk(s, a.task);
    ConsumerIsLocal(s, a.task, a);
  }

  lemma NumbersStep(s: State, a: Action, j: nat)
    requires Shape(s) && Step(true, s, a).Some? && j < |s.polls|
    ensures NumbersMove(s, a, Step(true, s, a).value, j)
  {
    if IsMainAction(a) { MainNumbers(s, a, j); }
    else if IsTimerAction(a) { TimerNumbers(s, a, j); }
    else { ConsumerNumbers(s, a, j); }
  }

  lemma TasksStayRendered(acts: seq<Action>, s: State, a: Action, t: State, j: nat)
    requires Exec(true, START, acts) == Some(s) && j < |s.polls| && TasksRendered(acts, s, j)
    requires NumbersMove(s, a, t, j) && CountsMove(s, t, j) && |s.wire| <= |t.wire|
    ensures TasksRendered(acts + [a], t, j)
  {
    var p, q := s.polls[j], t.polls[j];
    if q.consumer.SendingSentinel? {
      if p.consumer.SendingSentinel? && p.consumer.received == q.consumer.received {
        RenderedStays(acts, a, j, p.counted[..p.consumer.received], |s.wire|, |t.wire|);
        assert q.counted[..p.consumer.received] == p.counted[..p.consumer.received];
      } else {
        RenderedNow(acts, s, a, j);
        assert q.counted[..|p.counted|] == p.counted;
      }
    }
    if q.timer.TimerSending? {
      if p.timer.TimerSending? && p.timer.received == q.timer.received {
        RenderedStays(acts, a, j, p.counted[..p.timer.received], |s.wire|, |t.wire|);
        assert q.counted[..p.timer.received] == p.counted[..p.timer.received];
      } else {
        RenderedNow(acts, s, a, j);
        assert q.counted[..|p.counted|] == p.counted;
      }
    }
  }

  lemma LineStaysRendered(acts: seq<Action>, s: State, a: Action, t: State, at: nat)
    requires at < |s.wire| && s.wire <= t.wire && LineRendered(acts, s, at)
    requires s.wire[at].SentinelLine? ==> CountsMove(s, t, s.wire[at].poll)
    ensures LineRendered(acts + [a], t, at)
  {
    if s.wire[at].SentinelLine? {
      var j, n := s.wire[at].poll, s.wire[at].received;
      RenderedStays(acts, a, j, s.polls[j].counted[..n], at, at);
      assert t.polls[j].counted[..n] == s.polls[j].counted[..n];
    }
  }

  lemma NewLineRendered(acts: seq<Action>, s: State, a: Action, t: State)
    requires AllRendered(acts, s) && |t.wire| == |s.wire| + 1 && Sent(s, a, t)
    requires t.wire[|s.wire|].SentinelLine? ==> CountsMove(s, t, t.wire[|s.wire|].poll)
    ensures LineRendered(acts + [a], t, |s.wire|)
  {
    if t.wire[|s.wire|].SentinelLine? {
      var j, n := t.wire[|s.wire|].poll, t.wire[|s.wire|].received;
      assert TasksRendered(acts, s, j);
      RenderedStays(acts, a, j, s.polls[j].counted[..n], |s.wire|, |s.wire|);
      assert t.polls[j].counted[..n] == s.polls[j].counted[..n];
    }
  }

  /** A new poll's tasks hold no number yet. */
  lemma NewPollHasNoNumber(s: State, a: Action)
    requires Shape(s) && Step(true, s, a).Some?
    ensures var t := Step(true, s, a).value;
            |t.polls| > |s.polls| ==>
              t.polls[|s.polls|].consumer.Connecting? && t.polls[|s.polls|].timer.Absent?
  {
    if !IsMainAction(a) && !IsTimerAction(a) { ConsumerIsLocal(s, a.task, a); }
  }

  /** All numbers stay accounted for under any step that sends and moves like this. */
  lemma RenderedFromMoves(acts: seq<Action>, s: State, a: Action, t: State)
    requires Exec(true, START, acts) == Some(s) && AllRendered(acts, s) && Sent(s, a, t)
    requires forall j: nat :: j < |s.polls| ==> NumbersMove(s, a, t, j) && CountsMove(s, t, j)
    requires |s.polls| <= |t.polls| <= |s.polls| + 1 && (!IsMainAction(a) ==> a.task < |s.polls|)
    requires |t.polls| > |s.polls| ==>
      t.polls[|s.polls|].consumer.Connecting? && t.polls[|s.polls|].timer.Absent?
    ensures AllRendered(acts + [a], t)
  {
    forall j | 0 <= j < |t.polls| ensures TasksRendered(acts + [a], t, j) {
      if j < |s.polls| {
        assert TasksRendered(acts, s, j);
        TasksStayRendered(acts, s, a, t, j);
      }
    }
    forall at | 0 <= at < |t.wire| ensures LineRendered(acts + [a], t, at) {
      if at < |s.wire| {
        assert LineRendered(acts, s, at);
        LineStaysRendered(acts, s, a, t, at);
      } else {
        NewLineRendered(acts, s, a, t);
      }
    }
  }

  lemma StepKeepsRendered(acts: seq<Action>, s: State, a: Action, t: State)
    requires Exec(true, START, acts) == Some(s) && Step(true, s, a) == Some(t)
    requires Shape(s) && AllRendered(acts, s)
    ensures AllRendered(acts + [a], t)
  {
    FramesSent(s, a);
    PollsOnlyGrow(s, a);
    NewPollHasNoNumber(s, a);
    forall j: nat | j < |s.polls| ensures NumbersMove(s, a, t, j) && CountsMove(s, t, j) {
      CountedStep(s, a, j);
      NumbersStep(s, a, j);
    }
    RenderedFromMoves(acts, s, a, t);
  }

  /**
   * On a fresh socket, in every interleaving: the number of every sentinel on the wire is how
   * many replies its poll had counted when a task of the poll entered the lock to render it,
   * before the frame went out.
   */
  lemma {:induction false} NumberIsCountAtRendering(acts: seq<Action>)
    requires Exec(true, START, acts).Some?
    ensures Shape(Exec(true, START, acts).value) && AllRendered(acts, Exec(true, START, acts).value)
    decreases |acts|
  {
    if acts != [] {
      var front, a := acts[..|acts| - 1], acts[|acts| - 1];
      ExecFront(START, acts);
      NumberIsCountAtRendering(front);
      StepKeepsShape(Exec(true, START, front).value, a);
      StepKeepsRendered(front, Exec(true, START, front).value, a, Exec(true, START, acts).value);
      assert front + [a] == acts;
    }
  }

  lemma {:induction false} SentinelIsCounted(wire: seq<Frame>, at: nat)
    requires at < |wire| && wire[at].SentinelLine?
    ensures Sentinels(wire, wire[at].poll) >= 1
  {
    if at < |wire| - 1 { SentinelIsCounted(wire[..|wire| - 1], at); }
  }

  // --- without cancellation --------------------------------------------------------------------

  ghost predicate Chain(cancels: bool, states: seq<State>, acts: seq<Action>) {
    && |states| == |acts| + 1
    && forall i :: 0 <= i < |acts| ==> Step(cancels, states[i], acts[i]) == Some(states[i + 1])
  }

  lemma {:induction false} ChainIsExec(cancels: bool, states: seq<State>, acts: seq<Action>)
    requires Chain(cancels, states, acts)
    ensures Exec(cancels, states[0], acts) == Some(states[|acts|])
  {
    if acts != [] {
      assert Step(cancels, states[0], acts[0]) == Some(states[1]);
      forall i | 0 <= i < |acts[1..]| ensures Step(cancels, states[1..][i], acts[1..][i]) == Some(states[1..][i + 1]) {
        assert Step(cancels, states[i + 1], acts[i + 1]) == Some(states[i + 2]);
      }
      ChainIsExec(cancels, states[1..], acts[1..]);
    }
  }

  /** A first poll for one host, up to the bound consumer, then a second poll's cleared table. */
  function FirstPoll(consumer: ConsumerPc, timer: TimerPc): Poll {
    Poll("a", 1, 0, false, Free, consumer, false, timer, false, [])
  }

  function Opening(main: MainPc, wire: seq<Frame>): State {
    State(main, 1, 1, "a", 1, None, None, None, [], wire)
  }

  function Reopening(main: MainPc, consumer: ConsumerPc, wire: seq<Frame>): State {
    State(main, 2, 2, "b", 1, Some(0), Some(0), Some(0), [FirstPoll(consumer, Sleeping)], wire)
  }

  function LateReplyStates(late: Reply): seq<State> {
    var w1, w2 := [ClearTable("a")], [ClearTable("a"), ClearSentinel];
    var w3 := [ClearTable("a"), ClearSentinel, ClearTable("b")];
    [ START,
      Opening(SendingClear(false), []), Opening(SendingClear(true), w1),
      Opening(SendingBlank(false), w1), Opening(SendingBlank(true), w2),
      State(Binding, 1, 1, "a", 1, Some(0), Some(0), None, [FirstPoll(Connecting, Absent)], w2),
      State(Receiving, 1, 1, "a", 1, Some(0), Some(0), Some(0), [FirstPoll(Connecting, Sleeping)], w2),
      State(Receiving, 1, 1, "a", 1, Some(0), Some(0), Some(0), [FirstPoll(Waiting, Sleeping)], w2),
      Reopening(SendingClear(false), Waiting, w2),
      Reopening(SendingClear(true), Waiting, w3),
      Reopening(SendingClear(true), SendingRow(late, false), w3),
      Reopening(SendingClear(true), SendingRow(late, true), w3 + [Row(0, late)]) ]
  }

  /** The generation test alone lets a late reply of the first poll into the second poll's table. */
  lemma GuardAloneIsNotEnough(late: Reply)
    requires late.corr == "a" && late.shown
    ensures var t := Exec(false, START, [PollFrame("a", 1), MainWrites, MainResumes, MainWrites, MainResumes,
                                         MainBound, ConsumerBinds(0), PollFrame("b", 1), MainWrites,
                                         Deliver(0, late), ConsumerWrites(0)]);
            t.Some? && IsCurrent(t.value) && !ClearPending(t.value)
            && late in Table(t.value.wire) && late.corr != t.value.corr
  {
    var acts := [PollFrame("a", 1), MainWrites, MainResumes, MainWrites, MainResumes,
                 MainBound, ConsumerBinds(0), PollFrame("b", 1), MainWrites,
                 Deliver(0, late), ConsumerWrites(0)];
    var states := LateReplyStates(late);
    assert Chain(false, states, acts) by {
      LateReplyFirstSteps(late);
      LateReplySecondSteps(late);
      LateReplyMiddleSteps(late);
      LateReplyLastSteps(late);
    }
    ChainIsExec(false, states, acts);
    AppendFrame(states[10].wire, Row(0, late));
  }

  lemma LateReplyFirstSteps(late: Reply)
    ensures var x := LateReplyStates(late);
            && Step(false, x[0], PollFrame("a", 1)) == Some(x[1])
            && Step(false, x[1], MainWrites) == Some(x[2])
            && Step(false, x[2], MainResumes) == Some(x[3])
  {
    assert START.wire + [ClearTable("a")] == [ClearTable("a")];
  }

  lemma LateReplySecondSteps(late: Reply)
    ensures var x := LateReplyStates(late);
            && Step(false, x[3], MainWrites) == Some(x[4])
            && Step(false, x[4], MainResumes) == Some(x[5])
  {
    assert [ClearTable("a")] + [ClearSentinel] == [ClearTable("a"), ClearSentinel];
    assert START.polls + [FirstPoll(Connecting, Absent)] == [FirstPoll(Connecting, Absent)];
  }

  lemma LateReplyMiddleSteps(late: Reply)
    ensures var x := LateReplyStates(late);
            && Step(false, x[5], MainBound) == Some(x[6])
            && Step(false, x[6], ConsumerBinds(0)) == Some(x[7])
            && Step(false, x[7], PollFrame("b", 1)) == Some(x[8])
            && Step(false, x[8], MainWrites) == Some(x[9])
  {
    assert [FirstPoll(Connecting, Absent)][0 := FirstPoll(Connecting, Sleeping)] == [FirstPoll(Connecting, Sleeping)];
    assert [FirstPoll(Connecting, Sleeping)][0 := FirstPoll(Waiting, Sleeping)] == [FirstPoll(Waiting, Sleeping)];
    assert [ClearTable("a"), ClearSentinel] + [ClearTable("b")] == [ClearTable("a"), ClearSentinel, ClearTable("b")];
  }

  lemma LateReplyLastSteps(late: Reply)
    requires late.corr == "a" && late.shown
    ensures var x := LateReplyStates(late);
            && Step(false, x[9], Deliver(0, late)) == Some(x[10])
            && Step(false, x[10], ConsumerWrites(0)) == Some(x[11])
  {
    var row, sent := SendingRow(late, false), SendingRow(late, true);
    assert [FirstPoll(Waiting, Sleeping)][0 := FirstPoll(row, Sleeping)] == [FirstPoll(row, Sleeping)];
    assert [FirstPoll(row, Sleeping)][0 := FirstPoll(sent, Sleeping)] == [FirstPoll(sent, Sleeping)];
  }
}
