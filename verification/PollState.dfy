/** One poll's bookkeeping as its own tasks run it, when nothing else is scheduled in between. */
module PollState {
  import opened Models
  import opened Render

  datatype Message = RowSent(body: string) | SentinelSent(text: Sentinel)

  class WebSocket {
    var sent: seq<Message>

    constructor ()
      ensures sent == []
    {
      sent := [];
    }
  }

  class Coordinator {
    const ws: WebSocket
    const total: nat
    var received: nat
    var completed: bool

    constructor (ws: WebSocket, total: nat)
      ensures this.ws == ws && this.total == total && received == 0 && !completed
    {
      this.ws, this.total := ws, total;
      received, completed := 0, false;
    }

    /** Send the sentinel, unless one has been sent. */
    method EmitSentinel()
      modifies this`completed, ws
      ensures completed
      ensures ws.sent == old(ws.sent) + if old(completed) then [] else [SentinelSent(RenderSentinel(received, total))]
    {
      if completed { return; }
      ws.sent := ws.sent + [SentinelSent(RenderSentinel(received, total))];
      completed := true;
    }

    /** Count one reply; the one that completes the set emits the sentinel. */
    method OnReply()
      modifies this, ws
      ensures received == old(received) + 1
      ensures completed == (old(completed) || (total > 0 && received >= total))
      ensures ws.sent == old(ws.sent) +
        if total > 0 && received >= total && !old(completed) then [SentinelSent(AllResponded(total))] else []
    {
      received := received + 1;
      if total != 0 && received >= total {
        EmitSentinel();
      }
    }
  }

  /** What a reply body renders to: a row, or nothing. */
  function RowFor(body: string, valid: set<string>): seq<Message> {
    if body in valid then [RowSent(body)] else []
  }

  function RowsFor(bodies: seq<string>, valid: set<string>): seq<Message> {
    if bodies == [] then [] else RowsFor(bodies[..|bodies| - 1], valid) + RowFor(bodies[|bodies| - 1], valid)
  }

  /** What the browser receives: all rows in order, the sentinel right after the completing reply. */
  function Transcript(bodies: seq<string>, valid: set<string>, total: nat): seq<Message> {
    if 0 < total <= |bodies|
    then RowsFor(bodies[..total], valid) + [SentinelSent(AllResponded(total))] + RowsFor(bodies[total..], valid)
    else RowsFor(bodies, valid)
  }

  /** The consumer's message loop: send the row, then count the reply. */
  method ConsumeFanout(bodies: seq<string>, valid: set<string>, poll: Coordinator)
    requires poll.received == 0 && !poll.completed
    modifies poll, poll.ws
    ensures poll.received == |bodies|
    ensures poll.completed <==> 0 < poll.total <= |bodies|
    ensures poll.ws.sent == old(poll.ws.sent) + Transcript(bodies, valid, poll.total)
  {
    ghost var before := poll.ws.sent;
    for n := 0 to |bodies|
      invariant poll.received == n
      invariant poll.completed <==> 0 < poll.total <= n
      invariant poll.ws.sent == before + Transcript(bodies[..n], valid, poll.total)
    {
      TranscriptGrows(bodies, valid, poll.total, n);
      var fragment := RowFor(bodies[n], valid);
      poll.ws.sent := poll.ws.sent + fragment;
      poll.OnReply();
    }
    assert bodies[..|bodies|] == bodies;
  }

  lemma RowsStep(bodies: seq<string>, valid: set<string>, body: string)
    ensures RowsFor(bodies + [body], valid) == RowsFor(bodies, valid) + RowFor(body, valid)
  {
    assert (bodies + [body])[..|bodies|] == bodies;
  }

  lemma TranscriptGrows(bodies: seq<string>, valid: set<string>, total: nat, n: nat)
    requires n < |bodies|
    ensures Transcript(bodies[..n + 1], valid, total) ==
            Transcript(bodies[..n], valid, total) + RowFor(bodies[n], valid) +
            if n + 1 == total then [SentinelSent(AllResponded(total))] else []
  {
    var front, all := bodies[..n], bodies[..n + 1];
    assert all == front + [bodies[n]];
    if 0 < total <= n {
      assert all[..total] == front[..total] && all[total..] == front[total..] + [bodies[n]];
      RowsStep(front[total..], valid, bodies[n]);
    } else {
      RowsStep(front, valid, bodies[n]);
      if n + 1 == total { assert all[..total] == all && all[total..] == []; }
    }
  }

  /** From nothing, each message adds its row if it renders to one, and the last one awaited the sentinel. */
  lemma TranscriptStep(bodies: seq<string>, valid: set<string>, total: nat, n: nat)
    requires n < |bodies|
    ensures Transcript(bodies[..0], valid, total) == []
    ensures var row := if bodies[n] in valid then [RowSent(bodies[n])] else [];
            var line := if n + 1 == total then [SentinelSent(AllResponded(total))] else [];
            Transcript(bodies[..n + 1], valid, total) == Transcript(bodies[..n], valid, total) + row + line
  {
    TranscriptGrows(bodies, valid, total, n);
  }
}
