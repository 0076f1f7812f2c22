/** The command websocket transport as a state machine over the atomic steps of its tasks
    (crates/bat-markets/src/transport.rs): callers of `request_text`, the session slot behind its
    lock, and one reader/writer task per session. Sockets, timers and the remote peer are the
    environment: any enabled event may happen next. */
module CommandTransport {
  import opened Basics
  import opened RequestIds

  /** A text frame; `id` is the response id the venue put in it, if any. */
  datatype Frame = Frame(id: Option<string>, body: string)

  datatype Outcome = Success(frame: Frame) | Unavailable | Uncertain

  /** The state of the one-shot reply channel of a request. */
  datatype Reply = Unsent | Waiting | Answered(frame: Frame) | Failed | Dropped

  /** Where a call of `request_text` stands. */
  datatype Phase =
    | NeedSession(attempt: nat)
    | Sending(attempt: nat, session: nat)
    | Awaiting(session: nat)
    | Evicting(attempt: nat, session: nat, outcome: Outcome)
    | Finished(outcome: Outcome)

  /** A call, with the history of its payload: the session it was queued on, and how often it was
      queued, written to a socket, and its reply channel settled. */
  datatype Call = Call(
    prefix: string, id: string, phase: Phase, reply: Reply,
    home: Option<nat>, enqueues: nat, writes: nat, settlements: nat)

  /** A session task: its command queue (of calls) and the requests awaiting a response. */
  datatype Session = Session(open: bool, queue: seq<nat>, pending: map<string, nat>)

  datatype Hub = Hub(calls: seq<Call>, sessions: seq<Session>, slot: Option<nat>)

  datatype Event =
    | Start(prefix: string)                    // next_request_id, then request_text
    | Connect(call: nat, connects: bool)       // session(): the slot, or a new connection
    | Send(call: nat)                          // CommandWsSession::request, the channel send
    | Timeout(call: nat)
    | TakeReply(call: nat)
    | Evict(call: nat)                         // invalidate_session, then retry or return
    | Write(session: nat)                      // a queued command reaches the socket
    | WriteError(session: nat, reached: bool)  // the socket refuses it, perhaps after sending it
    | Text(session: nat, frame: Frame)
    | ReadEnd(session: nat)                    // closed, read error or close frame
    | Abandon(session: nat)                    // heartbeat or pong failed, or no sender is left

  const INITIAL := Hub([], [], None)

  function Settled(call: Call, reply: Reply): Call {
    call.(reply := reply, settlements := call.settlements + 1)
  }

  /** The session task ends: queued requests are dropped, pending ones get `reply`. */
  function EndSession(h: Hub, s: nat, reply: Reply): Hub
    requires s < |h.sessions|
  {
    var session := h.sessions[s];
    h.(sessions := h.sessions[s := Session(false, [], map[])],
       calls := seq(|h.calls|, c requires 0 <= c < |h.calls| =>
         if c in session.queue then Settled(h.calls[c], Dropped)
         else if c in session.pending.Values then Settled(h.calls[c], reply)
         else h.calls[c]))
  }

  predicate Enabled(h: Hub, e: Event) {
    match e
    case Start(_) => true
    case Connect(c, _) => c < |h.calls| && h.calls[c].phase.NeedSession?
    case Send(c) => c < |h.calls| && h.calls[c].phase.Sending? && h.calls[c].phase.session < |h.sessions|
    case Timeout(c) => c < |h.calls| && h.calls[c].phase.Awaiting?
    case TakeReply(c) => c < |h.calls| && h.calls[c].phase.Awaiting? && h.calls[c].settlements > 0
    case Evict(c) => c < |h.calls| && h.calls[c].phase.Evicting?
    case Write(s) =>
      s < |h.sessions| && h.sessions[s].open && h.sessions[s].queue != [] && h.sessions[s].queue[0] < |h.calls|
    case WriteError(s, _) =>
      s < |h.sessions| && h.sessions[s].open && h.sessions[s].queue != [] && h.sessions[s].queue[0] < |h.calls|
    case Text(s, _) => s < |h.sessions| && h.sessions[s].open
    case ReadEnd(s) => s < |h.sessions| && h.sessions[s].open
    case Abandon(s) => s < |h.sessions| && h.sessions[s].open
  }

  function SetPhase(h: Hub, c: nat, phase: Phase): Hub
    requires c < |h.calls|
  {
    h.(calls := h.calls[c := h.calls[c].(phase := phase)])
  }

  function Step(h: Hub, e: Event): Hub
    requires Enabled(h, e)
  {
    match e
    case Start(prefix) =>
      h.(calls := h.calls + [Call(prefix, IssuedId(prefix, |h.calls|), NeedSession(0), Unsent, None, 0, 0, 0)])
    case Connect(c, connects) =>
      var attempt := h.calls[c].phase.attempt;
      if h.slot.Some? then SetPhase(h, c, Sending(attempt, h.slot.value))
      else if !connects then SetPhase(h, c, Finished(Unavailable))
      else SetPhase(h, c, Sending(attempt, |h.sessions|))
           .(sessions := h.sessions + [Session(true, [], map[])], slot := Some(|h.sessions|))
    case Send(c) =>
      var Sending(attempt, s) := h.calls[c].phase;
      var session := h.sessions[s];
      if !session.open then SetPhase(h, c, Evicting(attempt, s, Unavailable))
      else
        h.(calls := h.calls[c := h.calls[c].(
             phase := Awaiting(s), reply := Waiting, home := Some(s), enqueues := h.calls[c].enqueues + 1)],
           sessions := h.sessions[s := session.(queue := session.queue + [c])])
    case Timeout(c) => SetPhase(h, c, Evicting(0, h.calls[c].phase.session, Uncertain))
    case TakeReply(c) =>
      if h.calls[c].reply.Answered? then SetPhase(h, c, Finished(Success(h.calls[c].reply.frame)))
      else SetPhase(h, c, Evicting(0, h.calls[c].phase.session, Uncertain))
    case Evict(c) =>
      var Evicting(attempt, s, outcome) := h.calls[c].phase;
      SetPhase(h, c, if outcome.Unavailable? && attempt == 0 then NeedSession(1) else Finished(outcome))
        .(slot := if h.slot == Some(s) then None else h.slot)
    case Write(s) =>
      var session := h.sessions[s];
      var c := session.queue[0];
      var id := h.calls[c].id;
      var calls := h.calls[c := h.calls[c].(writes := h.calls[c].writes + 1)];
      h.(calls := if id in session.pending && session.pending[id] < |calls|
                  then calls[session.pending[id] := Settled(calls[session.pending[id]], Dropped)] else calls,
         sessions := h.sessions[s := session.(queue := session.queue[1..], pending := session.pending[id := c])])
    case WriteError(s, reached) =>
      var session := h.sessions[s];
      var c := session.queue[0];
      var call := h.calls[c].(writes := h.calls[c].writes + (if reached then 1 else 0));
      EndSession(
        h.(calls := h.calls[c := Settled(call, Dropped)],
           sessions := h.sessions[s := session.(queue := session.queue[1..])]),
        s, Dropped)
    case Text(s, frame) =>
      var session := h.sessions[s];
      if frame.id.Some? && frame.id.value in session.pending && session.pending[frame.id.value] < |h.calls| then
        var c := session.pending[frame.id.value];
        h.(calls := h.calls[c := Settled(h.calls[c], Answered(frame))],
           sessions := h.sessions[s := session.(pending := session.pending - {frame.id.value})])
      else h
    case ReadEnd(s) => EndSession(h, s, Failed)
    case Abandon(s) => EndSession(h, s, Dropped)
  }

  /** A run: every event is enabled when it happens. */
  ghost predicate IsRun(es: seq<Event>) {
    es == [] || (IsRun(es[..|es| - 1]) && Enabled(After(es[..|es| - 1]), es[|es| - 1]))
  }

  ghost function After(es: seq<Event>): Hub {
    if es == [] then INITIAL
    else
      var h := After(es[..|es| - 1]);
      if Enabled(h, es[|es| - 1]) then Step(h, es[|es| - 1]) else h
  }
}
