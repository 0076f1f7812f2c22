/** The transport's tasks as the code writes them: the hub with its counter and session slot, and
    the session task with its pending map. The hub keeps a trace, and every method extends it to a
    longer run of the state machine; the session's methods compute the machine's steps. */
module CommandTransportTasks {
  import opened Basics
  import opened RequestIds
  import opened CommandTransport
  import opened CommandTransportProperties

  /** The steps that call `c` itself takes; all others are its environment. */
  predicate OwnStep(e: Event, c: nat) {
    match e
    case Connect(d, _) => c == d
    case Send(d) => c == d
    case Timeout(d) => c == d
    case TakeReply(d) => c == d
    case Evict(d) => c == d
    case _ => false
  }

  predicate SamePlace(a: Call, b: Call) {
    a.phase == b.phase && a.id == b.id && a.home == b.home
  }

  function FreshSession(): Session {
    Session(true, [], map[])
  }

  lemma CallsGrow(h: Hub, e: Event)
    requires Enabled(h, e)
    ensures |Step(h, e).calls| == |h.calls| + if e.Start? then 1 else 0
  {
  }

  /** What the machine's invariant says of a call that has returned. */
  lemma FinishedCall(es: seq<Event>, c: nat)
    requires IsRun(es) && c < |After(es).calls| && After(es).calls[c].phase.Finished?
    ensures var call, outcome := After(es).calls[c], After(es).calls[c].phase.outcome;
            && call.enqueues <= 1 && call.writes <= 1
            && (outcome.Unavailable? <==> call.enqueues == 0)
            && (call.home.Some? <==> call.enqueues == 1)
            && (outcome.Success? ==> outcome.frame.id == Some(call.id) && call.writes == 1)
  {
    AtMostOnce(es, c);
    RepliesCorrelate(es, c);
    RunKeepsInv(es);
    assert CallConsistent(After(es).calls[c]);
  }

  /** The session that takes the request of a caller left alone. */
  function Taker(h: Hub, connects: nat -> bool): Option<nat> {
    if h.slot.None? then (if connects(0) then Some(|h.sessions|) else None)
    else if h.slot.value < |h.sessions| && h.sessions[h.slot.value].open then h.slot
    else if connects(1) then Some(|h.sessions|)
    else None
  }

  ghost predicate Quiet(others: nat -> seq<Event>) {
    forall k :: others(k) == []
  }

  function Attempts(p: Phase): nat {
    if p.Evicting? then p.attempt else 0
  }

  /** After the first half of an attempt: no session, or queued on one, or refused by one. */
  predicate Submitted(call: Call, attempt: nat) {
    match call.phase
    case Finished(outcome) => outcome.Unavailable?
    case Awaiting(s) => call.home == Some(s)
    case Evicting(k, _, outcome) => k == attempt && outcome.Unavailable?
    case _ => false
  }

  /** The same for a caller left alone. */
  ghost predicate SubmittedAlone(h: Hub, c: nat, connects: bool, h': Hub)
    requires c < |h.calls|
  {
    var s := if h.slot.Some? then h.slot.value else |h.sessions|;
    && c < |h'.calls|
    && (if h.slot.None? && !connects then h'.calls[c].phase.Finished? && h'.calls[c].home == h.calls[c].home
        else if s >= |h.sessions| || h.sessions[s].open then h'.calls[c].phase == Awaiting(s)
        else && h'.calls[c].phase.Evicting? && h'.calls[c].phase.session == s
             && h'.slot == Some(s) && h'.sessions == h.sessions && h'.calls[c].home == h.calls[c].home)
  }

  /** One attempt of a caller left alone: the session in the slot, or a new one, takes the request
      unless it has ended; then it leaves the slot, and the caller may try again. */
  ghost predicate AloneAfter(h: Hub, c: nat, connects: bool, h': Hub, outcome: Option<Outcome>)
    requires c < |h.calls| && h.calls[c].phase.NeedSession?
  {
    var s := if h.slot.Some? then h.slot.value else |h.sessions|;
    && c < |h'.calls|
    && (if h.slot.None? && !connects then outcome == Some(Unavailable) && h'.calls[c].home == h.calls[c].home
        else if s >= |h.sessions| || h.sessions[s].open then outcome.Some? && h'.calls[c].home == Some(s)
        else && h'.calls[c].home == h.calls[c].home && h'.slot.None? && h'.sessions == h.sessions
             && outcome == if h.calls[c].phase.attempt == 0 then None else Some(Unavailable))
  }

  lemma NotYetSubmitted(es: seq<Event>, c: nat)
    requires IsRun(es) && c < |After(es).calls| && After(es).calls[c].phase.NeedSession?
    ensures After(es).calls[c].home.None?
    ensures After(es).slot.Some? ==> After(es).slot.value < |After(es).sessions|
  {
    RunKeepsInv(es);
    assert CallConsistent(After(es).calls[c]);
  }

  lemma EndSessionKeepsPhase(h: Hub, s: nat, reply: Reply, c: nat)
    requires s < |h.sessions| && c < |h.calls|
    ensures var h' := EndSession(h, s, reply);
            |h'.calls| == |h.calls| && SamePlace(h'.calls[c], h.calls[c])
  {
  }

  /** The environment moves no call from its place in the code. */
  lemma EnvironmentKeepsPhase(h: Hub, e: Event, c: nat)
    requires Enabled(h, e) && c < |h.calls| && !OwnStep(e, c)
    ensures var h' := Step(h, e);
            |h.calls| <= |h'.calls| && SamePlace(h'.calls[c], h.calls[c])
  {
    if e.WriteError? {
      var session := h.sessions[e.session];
      var call := h.calls[session.queue[0]];
      EndSessionKeepsPhase(
        h.(calls := h.calls[session.queue[0] :=
            Settled(call.(writes := call.writes + if e.reached then 1 else 0), Dropped)],
           sessions := h.sessions[e.session := session.(queue := session.queue[1..])]),
        e.session, Dropped, c);
    } else if e.ReadEnd? {
      EndSessionKeepsPhase(h, e.session, Reply.Failed, c);
    } else if e.Abandon? {
      EndSessionKeepsPhase(h, e.session, Dropped, c);
    }
  }

  /** A run written out: the states it goes through, one more than there are events. */
  ghost predicate Behaves(es: seq<Event>, states: seq<Hub>) {
    && |states| == |es| + 1 && states[0] == INITIAL
    && forall i :: 0 <= i < |es| ==> Enabled(states[i], es[i]) && states[i + 1] == Step(states[i], es[i])
  }

  lemma {:induction false} BehavesIsRun(es: seq<Event>, states: seq<Hub>)
    requires Behaves(es, states)
    ensures IsRun(es) && After(es) == states[|es|]
  {
    if es != [] {
      BehavesIsRun(es[..|es| - 1], states[..|es|]);
    }
  }

  lemma Extends(es: seq<Event>, states: seq<Hub>, e: Event, h: Hub)
    requires Behaves(es, states) && Enabled(states[|es|], e) && h == Step(states[|es|], e)
    ensures Behaves(es + [e], states + [h])
  {
  }

  lemma SessionExists(es: seq<Event>, states: seq<Hub>, c: nat)
    requires Behaves(es, states) && c < |states[|es|].calls| && states[|es|].calls[c].phase.Sending?
    ensures states[|es|].calls[c].phase.session < |states[|es|].sessions|
  {
    BehavesIsRun(es, states);
    RunKeepsInv(es);
    assert CallLocated(After(es), c);
  }

  lemma SettledWhenAnswered(es: seq<Event>, states: seq<Hub>, c: nat)
    requires Behaves(es, states) && c < |states[|es|].calls|
    ensures states[|es|].calls[c].reply.Answered? ==> states[|es|].calls[c].settlements > 0
  {
    BehavesIsRun(es, states);
    RunKeepsInv(es);
    assert CallConsistent(After(es).calls[c]);
  }

  /** The 64-bit increment. */
  function Incremented(n: nat): nat {
    if n + 1 == U64 then 0 else n + 1
  }

  /** The counter after `k` increments; it starts at one. */
  function Counter(k: nat): nat {
    if k == 0 then 1 else Incremented(Counter(k - 1))
  }

  lemma {:induction false} CounterIsModular(k: nat)
    ensures Counter(k) == (k + 1) % U64
  {
    if k > 0 {
      CounterIsModular(k - 1);
    }
  }

  class CommandTransportHub {
    var nextRequestId: nat
    var calls: seq<Call>
    var sessions: seq<Session>
    var slot: Option<nat>
    ghost var trace: seq<Event>
    ghost var states: seq<Hub>

    function View(): Hub
      reads this
    {
      Hub(calls, sessions, slot)
    }

    /** What has happened is a run of the state machine, and this is where it has led. */
    ghost predicate Valid()
      reads this
    {
      && Behaves(trace, states) && states[|trace|] == View()
      && nextRequestId == Counter(|calls|)
    }

    constructor ()
      ensures Valid() && trace == []
    {
      nextRequestId, calls, sessions, slot, trace, states := 1, [], [], None, [], [INITIAL];
    }

    /** Adds the event that has led from the last recorded state to the current one. */
    ghost method Record(e: Event)
      requires Behaves(trace, states) && Enabled(states[|trace|], e) && View() == Step(states[|trace|], e)
      modifies this`trace, this`states
      ensures Behaves(trace, states) && trace == old(trace) + [e] && states[|trace|] == View()
    {
      Extends(trace, states, e, View());
      trace, states := trace + [e], states + [View()];
    }

    /** `fetch_add` on a 64-bit counter; the caller then starts its request with the id. */
    method NextRequestId(prefix: string) returns (id: string, call: nat)
      requires Valid()
      modifies this
      ensures Valid() && trace == old(trace) + [Start(prefix)] && View() == Step(old(View()), Start(prefix))
      ensures call == |old(calls)| && |calls| == call + 1 && calls[call].id == id == IssuedId(prefix, call)
      ensures calls[call].phase == NeedSession(0)
    {
      CounterIsModular(|calls|);
      id, call := prefix + "-" + Decimal(nextRequestId), |calls|;
      nextRequestId := Incremented(nextRequestId);
      calls := calls + [Call(prefix, id, NeedSession(0), Unsent, None, 0, 0, 0)];
      Record(Start(prefix));
    }

    /** A step of another caller or of a session task. */
    method Perform(e: Event)
      requires Valid() && Enabled(View(), e)
      modifies this
      ensures Valid() && trace == old(trace) + [e] && View() == Step(old(View()), e)
    {
      if e.Start? {
        var _, _ := NextRequestId(e.prefix);
      } else {
        CallsGrow(View(), e);
        var h := Step(View(), e);
        calls, sessions, slot := h.calls, h.sessions, h.slot;
        Record(e);
      }
    }

    /** What happens around call `c` while it awaits: of `events` those that can, when they can. */
    method Interfere(c: nat, events: seq<Event>)
      requires Valid() && c < |calls|
      modifies this
      ensures Valid() && old(trace) <= trace
      ensures |old(calls)| <= |calls| && SamePlace(calls[c], old(calls[c]))
      ensures events == [] ==> View() == old(View())
    {
      for i := 0 to |events|
        invariant Valid() && old(trace) <= trace && |old(calls)| <= |calls|
        invariant SamePlace(calls[c], old(calls[c]))
        invariant i == 0 ==> View() == old(View())
      {
        if Enabled(View(), events[i]) && !OwnStep(events[i], c) {
          EnvironmentKeepsPhase(View(), events[i], c);
          Perform(events[i]);
        }
      }
    }

    method MoveTo(c: nat, phase: Phase)
      requires c < |calls|
      modifies this`calls
      ensures calls == old(calls)[c := old(calls[c]).(phase := phase)]
    {
      calls := calls[c := calls[c].(phase := phase)];
    }

    /** The session in the slot, or a new one that takes the slot, or none. */
    method Session(c: nat, connects: bool) returns (session: Option<nat>)
      requires Valid() && c < |calls| && calls[c].phase.NeedSession?
      modifies this
      ensures Valid() && trace == old(trace) + [Connect(c, connects)]
      ensures session == (if old(slot).Some? then old(slot) else if connects then Some(|old(sessions)|) else None)
      ensures slot == session
      ensures sessions == old(sessions) + (if old(slot).None? && connects then [FreshSession()] else [])
      ensures |calls| == |old(calls)| && calls[c].id == old(calls[c].id) && calls[c].home == old(calls[c].home)
      ensures calls[c].phase == (match session
                case None => Finished(Unavailable)
                case Some(s) => Sending(old(calls[c].phase.attempt), s))
    {
      var attempt := calls[c].phase.attempt;
      session := slot;
      if session.None? && connects {
        session := Some(|sessions|);
        slot, sessions := session, sessions + [FreshSession()];
      }
      MoveTo(c, if session.Some? then Sending(attempt, session.value) else Finished(Unavailable));
      Record(Connect(c, connects));
    }

    /** The channel send of `CommandWsSession::request`: it fails iff the session task has ended. */
    method Send(c: nat) returns (queued: bool)
      requires Valid() && c < |calls| && calls[c].phase.Sending?
      modifies this
      ensures Valid() && trace == old(trace) + [Event.Send(c)] && slot == old(slot) && |sessions| == |old(sessions)|
      ensures |calls| == |old(calls)| && calls[c].id == old(calls[c].id)
      ensures var Sending(attempt, s) := old(calls[c].phase);
              && s < |sessions| && queued == old(sessions)[s].open
              && (if queued then calls[c].phase == Awaiting(s) && calls[c].home == Some(s)
                  else calls[c].phase == Evicting(attempt, s, Unavailable) && sessions == old(sessions)
                       && calls[c].home == old(calls[c].home))
    {
      SessionExists(trace, states, c);
      var Sending(attempt, s) := calls[c].phase;
      queued := sessions[s].open;
      if queued {
        calls := calls[c := calls[c].(
          phase := Awaiting(s), reply := Waiting, home := Some(s), enqueues := calls[c].enqueues + 1)];
        sessions := sessions[s := sessions[s].(queue := sessions[s].queue + [c])];
      } else {
        MoveTo(c, Evicting(attempt, s, Unavailable));
      }
      Record(Event.Send(c));
    }

    /** The end of the wait: with a reply if there is one by then, and else by the timeout. */
    method EndWait(c: nat)
      requires Valid() && c < |calls| && calls[c].phase.Awaiting?
      modifies this
      ensures Valid() && trace == old(trace) + [if old(calls[c].settlements) > 0 then TakeReply(c) else Timeout(c)]
      ensures slot == old(slot) && sessions == old(sessions)
      ensures |calls| == |old(calls)| && calls[c].id == old(calls[c].id) && calls[c].home == old(calls[c].home)
      ensures calls[c].phase == (if old(calls[c].reply).Answered? then Finished(Success(old(calls[c].reply.frame)))
                                 else Evicting(0, old(calls[c].phase.session), Uncertain))
    {
      SettledWhenAnswered(trace, states, c);
      ghost var e := if calls[c].settlements > 0 then TakeReply(c) else Timeout(c);
      if calls[c].reply.Answered? {
        MoveTo(c, Finished(Success(calls[c].reply.frame)));
      } else {
        MoveTo(c, Evicting(0, calls[c].phase.session, Uncertain));
      }
      Record(e);
    }

    /** Empties the slot only if it holds the very session that failed, then retries once. */
    method InvalidateSession(c: nat)
      requires Valid() && c < |calls| && calls[c].phase.Evicting?
      modifies this
      ensures Valid() && trace == old(trace) + [Evict(c)] && sessions == old(sessions)
      ensures |calls| == |old(calls)| && calls[c].id == old(calls[c].id) && calls[c].home == old(calls[c].home)
      ensures var Evicting(attempt, s, outcome) := old(calls[c].phase);
              && slot == (if old(slot) == Some(s) then None else old(slot))
              && calls[c].phase == if outcome.Unavailable? && attempt == 0 then NeedSession(1) else Finished(outcome)
    {
      var Evicting(attempt, s, outcome) := calls[c].phase;
      if slot == Some(s) {
        slot := None;
      }
      MoveTo(c, if outcome.Unavailable? && attempt == 0 then NeedSession(1) else Finished(outcome));
      Record(Evict(c));
    }

    /** The first half of a round of `request_text`: get a session and queue the payload on it. */
    method Submit(c: nat, connects: bool, others: nat -> seq<Event>)
      requires Valid() && c < |calls| && calls[c].phase.NeedSession?
      modifies this
      ensures Valid() && old(trace) <= trace && c < |calls| && calls[c].id == old(calls[c].id)
      ensures Submitted(calls[c], old(calls[c].phase.attempt))
      ensures Quiet(others) ==> SubmittedAlone(old(View()), c, connects, View())
    {
      Interfere(c, others(0));
      var session := Session(c, connects);
      if session.Some? {
        Interfere(c, others(1));
        var _ := Send(c);
      }
    }

    /** The second half: await the reply, and give up a session that failed. */
    method Conclude(c: nat, others: nat -> seq<Event>)
      requires Valid() && c < |calls| && !calls[c].phase.Finished? && Submitted(calls[c], Attempts(calls[c].phase))
      modifies this
      ensures Valid() && old(trace) <= trace && c < |calls|
      ensures calls[c].id == old(calls[c].id) && calls[c].home == old(calls[c].home)
      ensures match old(calls[c].phase)
              case Evicting(attempt, _, _) =>
                calls[c].phase == if attempt == 0 then NeedSession(1) else Finished(Unavailable)
              case _ => calls[c].phase.Finished? && (calls[c].phase.outcome.Uncertain? ==> slot != calls[c].home)
      ensures Quiet(others) && old(calls[c].phase).Evicting? ==>
                sessions == old(sessions)
                && slot == if old(slot) == Some(old(calls[c].phase.session)) then None else old(slot)
    {
      Interfere(c, others(2));
      if calls[c].phase.Awaiting? {
        EndWait(c);
        if calls[c].phase.Finished? {
          return;
        }
      }
      Interfere(c, others(3));
      InvalidateSession(c);
    }

    /** One round of the loop of `request_text`; no outcome means: try again. */
    method Attempt(c: nat, connects: bool, others: nat -> seq<Event>) returns (outcome: Option<Outcome>)
      requires Valid() && c < |calls| && calls[c].phase.NeedSession?
      modifies this
      ensures Valid() && old(trace) <= trace && c < |calls| && calls[c].id == old(calls[c].id)
      ensures calls[c].phase == if outcome.Some? then Finished(outcome.value) else NeedSession(1)
      ensures outcome.None? ==> old(calls[c].phase) == NeedSession(0)
      ensures outcome == Some(Uncertain) ==> calls[c].home.Some? && slot != calls[c].home
      ensures Quiet(others) ==> AloneAfter(old(View()), c, connects, View(), outcome)
    {
      Submit(c, connects, others);
      if !calls[c].phase.Finished? {
        Conclude(c, others);
      }
      outcome := if calls[c].phase.Finished? then Some(calls[c].phase.outcome) else None;
    }

    /** `request_text`, its two attempts interleaved at every await with any steps of the others:
        `others(attempt)(k)` is what they try at the `k`-th await. Whatever they do, the call is a run
        of the machine, so its payload is queued on at most one session and written at most once, not
        at all exactly if the outcome is `Unavailable`, a success carries its own id, and a session
        that left the outcome uncertain is no longer in the slot. Left alone, the payload goes to the
        session in the slot, or to a new one if there is none or it has ended. */
    method RequestText(c: nat, connects: nat -> bool, others: nat -> nat -> seq<Event>) returns (outcome: Outcome)
      requires Valid() && c < |calls| && calls[c].phase == NeedSession(0)
      modifies this
      ensures Valid() && IsRun(trace) && After(trace) == View() && old(trace) <= trace
      ensures c < |calls| && calls[c].phase == Finished(outcome) && calls[c].id == old(calls[c].id)
      ensures calls[c].enqueues <= 1 && calls[c].writes <= 1 && (outcome.Unavailable? <==> calls[c].enqueues == 0)
      ensures outcome.Success? ==> outcome.frame.id == Some(calls[c].id) && calls[c].writes == 1
      ensures outcome.Uncertain? ==> calls[c].home.Some? && slot != calls[c].home
      ensures Quiet(others(0)) && Quiet(others(1)) ==> calls[c].home == Taker(old(View()), connects)
    {
      BehavesIsRun(trace, states);
      NotYetSubmitted(trace, c);
      for attempt := 0 to 2
        invariant Valid() && old(trace) <= trace && c < |calls| && attempt < 2
        invariant calls[c].phase == NeedSession(attempt) && calls[c].id == old(calls[c].id)
        invariant attempt == 0 ==> View() == old(View())
        invariant attempt == 1 && Quiet(others(0)) ==>
                    && slot.None? && sessions == old(sessions) && calls[c].home.None?
                    && old(slot).Some? && !sessions[old(slot).value].open
      {
        var result := Attempt(c, connects(attempt), others(attempt));
        if result.Some? {
          BehavesIsRun(trace, states);
          FinishedCall(trace, c);
          return result.value;
        }
      }
      return Unavailable;
    }
  }

  class CommandWsSession {
    var open: bool
    var queue: seq<nat>
    var pending: map<string, nat>

    ghost predicate Mirrors(h: Hub, s: nat)
      reads this
    {
      s < |h.sessions| && h.sessions[s] == Session(open, queue, pending)
    }

    constructor ()
      ensures open && queue == [] && pending == map[]
    {
      open, queue, pending := true, [], map[];
    }

    /** `fail_pending` (with `Failed`), or the drop of the map (with `Dropped`), followed by the
        drop of the command queue. `settled` says which replies were sent. */
    method End(reply: Reply, ghost h: Hub, ghost s: nat) returns (settled: map<nat, Reply>)
      requires Mirrors(h, s)
      modifies this
      ensures Mirrors(EndSession(h, s, reply), s)
      ensures forall c :: 0 <= c < |h.calls| ==>
                EndSession(h, s, reply).calls[c]
                == (if c in settled then Settled(h.calls[c], settled[c]) else h.calls[c])
    {
      settled := map[];
      var ids := pending.Keys;
      while ids != {}
        invariant ids <= pending.Keys && pending == old(pending) && queue == old(queue)
        invariant forall c :: c in settled <==> exists id :: id in pending && id !in ids && pending[id] == c
        invariant forall c :: c in settled ==> settled[c] == reply
        decreases ids
      {
        var id :| id in ids;
        ids := ids - {id};
        settled := settled[pending[id] := reply];
      }
      assert forall c :: c in settled <==> c in pending.Values;
      for i := 0 to |queue|
        invariant pending == old(pending) && queue == old(queue)
        invariant forall c :: c in settled <==> c in pending.Values || c in queue[..i]
        invariant forall c :: c in settled ==> settled[c] == if c in queue[..i] then Dropped else reply
      {
        settled := settled[queue[i] := Dropped];
      }
      assert queue[..|queue|] == queue;
      open, queue, pending := false, [], map[];
    }

    /** A queued command reaches the socket and becomes pending. */
    method Write(id: string, ghost h: Hub, ghost s: nat) returns (call: nat)
      requires Mirrors(h, s) && Enabled(h, Event.Write(s)) && id == h.calls[queue[0]].id
      modifies this`queue, this`pending
      ensures call == old(queue)[0]
      ensures Mirrors(Step(h, Event.Write(s)), s)
    {
      call := queue[0];
      queue, pending := queue[1..], pending[id := call];
    }

    /** A text frame: answers the pending request whose id it carries, if there is one. */
    method OnText(frame: Frame, ghost h: Hub, ghost s: nat) returns (answered: Option<nat>)
      requires Mirrors(h, s) && Enabled(h, Text(s, frame))
      requires forall id :: id in pending ==> pending[id] < |h.calls|
      modifies this`pending
      ensures Mirrors(Step(h, Text(s, frame)), s)
      ensures Step(h, Text(s, frame)).calls
           == (match answered case None => h.calls
               case Some(c) => if c < |h.calls| then h.calls[c := Settled(h.calls[c], Answered(frame))] else [])
    {
      if frame.id.Some? && frame.id.value in pending {
        answered := Some(pending[frame.id.value]);
        pending := pending - {frame.id.value};
      } else {
        answered := None;
      }
    }
  }
}
