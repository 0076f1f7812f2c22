/** The order of writes: a session sends the requests queued on it first in, first out. The order is
    read off a run: where in it a call got its session, and where its payload was written. */
module CommandTransportOrder {
  import opened Basics
  import opened CommandTransport
  import opened CommandTransportProperties

  /** Call `c` has been queued on a session, or has been written. */
  predicate IsSent(h: Hub, c: nat) {
    c < |h.calls| && h.calls[c].home.Some?
  }

  predicate IsWritten(h: Hub, c: nat) {
    c < |h.calls| && h.calls[c].writes > 0
  }

  /** The position in the run of the event that queued `c`. */
  ghost function SendTime(es: seq<Event>, c: nat): Option<nat> {
    if es == [] then None
    else if SendTime(es[..|es| - 1], c).Some? then SendTime(es[..|es| - 1], c)
    else if IsSent(After(es), c) then Some(|es| - 1)
    else None
  }

  /** The position in the run of the event that wrote `c`. */
  ghost function WriteTime(es: seq<Event>, c: nat): Option<nat> {
    if es == [] then None
    else if WriteTime(es[..|es| - 1], c).Some? then WriteTime(es[..|es| - 1], c)
    else if IsWritten(After(es), c) then Some(|es| - 1)
    else None
  }

  // ----- what one step does -------------------------------------------------------------------

  /** The event hands `c` to session `s`. */
  predicate Queues(h: Hub, e: Event, c: nat, s: nat) {
    && e == Send(c) && c < |h.calls| && s < |h.sessions|
    && h.calls[c].phase.Sending? && h.calls[c].phase.session == s && h.sessions[s].open
  }

  /** The event puts `c` on the wire. */
  predicate Writes(h: Hub, e: Event, c: nat, s: nat) {
    && (e == Write(s) || e == WriteError(s, true))
    && s < |h.sessions| && h.sessions[s].open && h.sessions[s].queue != [] && h.sessions[s].queue[0] == c
  }

  predicate Ends(e: Event, s: nat) {
    (e.WriteError? || e.ReadEnd? || e.Abandon?) && e.session == s
  }

  lemma EndSessionCallKept(h: Hub, s: nat, reply: Reply, c: nat)
    requires s < |h.sessions| && c < |h.calls|
    ensures var k, k' := h.calls[c], EndSession(h, s, reply).calls[c];
            && |EndSession(h, s, reply).calls| == |h.calls| && k'.home == k.home && k'.writes == k.writes
            && (c !in h.sessions[s].queue && c !in h.sessions[s].pending.Values ==> k' == k)
  {
  }

  /** A call changes its session and its count of writes only by these events. */
  ghost predicate CallMoves(h: Hub, e: Event, c: nat, k: Call, k': Call) {
    && (k'.home == k.home || (k'.home.Some? && Queues(h, e, c, k'.home.value)))
    && (k'.writes == k.writes || (k'.writes == k.writes + 1 && k.home.Some? && Writes(h, e, c, k.home.value)))
  }

  lemma CallStep(h: Hub, e: Event, c: nat)
    requires Inv(h) && Enabled(h, e) && c < |h.calls|
    ensures |h.calls| <= |Step(h, e).calls| && CallMoves(h, e, c, h.calls[c], Step(h, e).calls[c])
  {
    match e
    case WriteError(s, reached) =>
      WriteErrorMoves(h, s, reached, c);
    case ReadEnd(s) =>
      EndSessionCallKept(h, s, Failed, c);
    case Abandon(s) =>
      EndSessionCallKept(h, s, Dropped, c);
    case Write(s) =>
      WriteMoves(h, s, c);
    case _ =>
  }

  /** The session before it ends with a failed write: the request that failed has left the queue. */
  function Refused(h: Hub, s: nat, reached: bool): Hub
    requires Enabled(h, WriteError(s, reached))
  {
    var session := h.sessions[s];
    var c := session.queue[0];
    var call := h.calls[c].(writes := h.calls[c].writes + (if reached then 1 else 0));
    h.(calls := h.calls[c := Settled(call, Dropped)],
       sessions := h.sessions[s := session.(queue := session.queue[1..])])
  }

  lemma WriteErrorMoves(h: Hub, s: nat, reached: bool, c: nat)
    requires Inv(h) && Enabled(h, WriteError(s, reached)) && c < |h.calls|
    ensures |Step(h, WriteError(s, reached)).calls| == |h.calls|
    ensures CallMoves(h, WriteError(s, reached), c, h.calls[c], Step(h, WriteError(s, reached)).calls[c])
  {
    assert SessionConsistent(h, s);
    assert Holds(h, h.sessions[s].queue[0], s, 0);
    EndSessionCallKept(Refused(h, s, reached), s, Dropped, c);
  }

  lemma WriteMoves(h: Hub, s: nat, c: nat)
    requires Inv(h) && Enabled(h, Write(s)) && c < |h.calls|
    ensures |Step(h, Write(s)).calls| == |h.calls|
    ensures CallMoves(h, Write(s), c, h.calls[c], Step(h, Write(s)).calls[c])
  {
    assert SessionConsistent(h, s);
    assert Holds(h, h.sessions[s].queue[0], s, 0);
  }

  lemma NewCall(h: Hub, e: Event, c: nat)
    requires Enabled(h, e) && |h.calls| <= c < |Step(h, e).calls|
    ensures Step(h, e).calls[c].home.None? && Step(h, e).calls[c].writes == 0
  {
  }

  /** A queue grows at its end, shrinks at its front, or is dropped. */
  ghost predicate QueueMoves(h: Hub, e: Event, s: nat, q: seq<nat>, q': seq<nat>) {
    || q' == q
    || (q != [] && q' == q[1..])
    || q' == []
    || (exists c :: Queues(h, e, c, s) && q' == q + [c])
  }

  lemma QueueStep(h: Hub, e: Event, s: nat)
    requires Enabled(h, e) && s < |h.sessions|
    ensures |h.sessions| <= |Step(h, e).sessions|
    ensures QueueMoves(h, e, s, h.sessions[s].queue, Step(h, e).sessions[s].queue)
  {
    if e.Send? && Queues(h, e, e.call, s) {
      assert Step(h, e).sessions[s].queue == h.sessions[s].queue + [e.call];
    }
  }

  lemma NewSession(h: Hub, e: Event, s: nat)
    requires Enabled(h, e) && |h.sessions| <= s < |Step(h, e).sessions|
    ensures Step(h, e).sessions[s].queue == []
  {
  }

  // ----- requests that will never be written --------------------------------------------------

  /** A request settled without being written belongs to a session that has ended. */
  predicate Unwritable(h: Hub, k: Call) {
    k.home.Some? && k.writes == 0 && k.settlements > 0 && k.home.value < |h.sessions| ==>
      !h.sessions[k.home.value].open
  }

  ghost predicate Abandoned(h: Hub) {
    forall c :: 0 <= c < |h.calls| ==> Unwritable(h, h.calls[c])
  }

  lemma OpenStep(h: Hub, e: Event, s: nat)
    requires Enabled(h, e) && s < |h.sessions|
    ensures |h.sessions| <= |Step(h, e).sessions|
    ensures Step(h, e).sessions[s].open <==> h.sessions[s].open && !Ends(e, s)
  {
  }

  /** A call is settled only after it was written, or by the end of its session. */
  ghost predicate SettlesLate(h: Hub, e: Event, k: Call, k': Call) {
    k'.settlements > k.settlements ==> k.writes > 0 || (k.home.Some? && Ends(e, k.home.value))
  }

  lemma SettlementStep(h: Hub, e: Event, c: nat)
    requires Inv(h) && Enabled(h, e) && c < |h.calls|
    ensures |h.calls| <= |Step(h, e).calls| && SettlesLate(h, e, h.calls[c], Step(h, e).calls[c])
  {
    match e
    case Write(s) =>
      WriteSettles(h, s, c);
    case Text(s, frame) =>
      assert SessionConsistent(h, s);
    case ReadEnd(s) =>
      assert SessionConsistent(h, s);
      EndSessionCallKept(h, s, Failed, c);
    case Abandon(s) =>
      assert SessionConsistent(h, s);
      EndSessionCallKept(h, s, Dropped, c);
    case WriteError(s, reached) =>
      WriteErrorSettles(h, s, reached, c);
    case _ =>
  }

  lemma WriteSettles(h: Hub, s: nat, c: nat)
    requires Inv(h) && Enabled(h, Write(s)) && c < |h.calls|
    ensures SettlesLate(h, Write(s), h.calls[c], Step(h, Write(s)).calls[c])
  {
    assert SessionConsistent(h, s);
    var id := h.calls[h.sessions[s].queue[0]].id;
    if id in h.sessions[s].pending {
      assert Holds(h, h.sessions[s].pending[id], s, 1);
    }
  }

  lemma WriteErrorSettles(h: Hub, s: nat, reached: bool, c: nat)
    requires Inv(h) && Enabled(h, WriteError(s, reached)) && c < |h.calls|
    ensures SettlesLate(h, WriteError(s, reached), h.calls[c], Step(h, WriteError(s, reached)).calls[c])
  {
    assert SessionConsistent(h, s);
    var q := h.sessions[s].queue;
    assert Holds(h, q[0], s, 0);
    if c != q[0] {
      EndSessionCallKept(Refused(h, s, reached), s, Dropped, c);
      if c in q[1..] {
        assert c in q;
      }
    }
  }

  lemma UnwritableStep(h: Hub, e: Event, c: nat)
    requires Inv(h) && Abandoned(h) && Enabled(h, e) && c < |h.calls|
    ensures |h.calls| <= |Step(h, e).calls| && Unwritable(Step(h, e), Step(h, e).calls[c])
  {
    var k := h.calls[c];
    assert Unwritable(h, k) && CallLocated(h, c) && CallConsistent(k);
    CallStep(h, e, c);
    SettlementStep(h, e, c);
    StepKeepsInv(h, e);
    assert CallConsistent(Step(h, e).calls[c]);
    if k.home.Some? {
      OpenStep(h, e, k.home.value);
    } else {
      FreshlyQueued(h, e, c);
    }
  }

  lemma FreshlyQueued(h: Hub, e: Event, c: nat)
    requires Inv(h) && Enabled(h, e) && c < |h.calls| && h.calls[c].home.None?
    ensures |h.calls| <= |Step(h, e).calls|
    ensures Step(h, e).calls[c].home.Some? ==> Step(h, e).calls[c].settlements == 0
  {
    CallStep(h, e, c);
    assert CallConsistent(h.calls[c]);
  }

  // ----- over a run ---------------------------------------------------------------------------

  lemma {:induction false} RunAbandons(es: seq<Event>)
    requires IsRun(es)
    ensures Abandoned(After(es))
  {
    if es != [] {
      var h, e := After(es[..|es| - 1]), es[|es| - 1];
      RunAbandons(es[..|es| - 1]);
      RunKeepsInv(es[..|es| - 1]);
      forall c | 0 <= c < |After(es).calls| ensures Unwritable(After(es), After(es).calls[c]) {
        if c < |h.calls| {
          UnwritableStep(h, e, c);
        } else {
          NewCall(h, e, c);
        }
      }
    }
  }

  /** Send and write times exist for the calls sent and written, and name the right event. */
  ghost predicate Timed(es: seq<Event>, c: nat) {
    && (SendTime(es, c).Some? <==> IsSent(After(es), c))
    && (WriteTime(es, c).Some? <==> IsWritten(After(es), c))
    && (SendTime(es, c).Some? ==> SendTime(es, c).value < |es| && es[SendTime(es, c).value] == Send(c))
    && (WriteTime(es, c).Some? ==>
          && WriteTime(es, c).value < |es| && After(es).calls[c].home.Some?
          && es[WriteTime(es, c).value]
             in {Write(After(es).calls[c].home.value), WriteError(After(es).calls[c].home.value, true)})
  }

  lemma {:induction false} RunIsTimed(es: seq<Event>, c: nat)
    requires IsRun(es)
    ensures Timed(es, c)
  {
    if es != [] {
      var init := es[..|es| - 1];
      RunIsTimed(init, c);
      RunKeepsInv(init);
      TimedStep(After(init), es[|es| - 1], c);
    }
  }

  /** The last event alone: what is known of `c` before and after it. */
  lemma TimedStep(h: Hub, e: Event, c: nat)
    requires Inv(h) && Enabled(h, e)
    ensures IsSent(h, c) ==> IsSent(Step(h, e), c) && Step(h, e).calls[c].home == h.calls[c].home
    ensures IsWritten(h, c) ==> IsWritten(Step(h, e), c)
    ensures IsSent(Step(h, e), c) && !IsSent(h, c) ==> e == Send(c)
    ensures IsWritten(Step(h, e), c) && !IsWritten(h, c) ==>
              IsSent(h, c) && Writes(h, e, c, h.calls[c].home.value)
  {
    if c < |h.calls| {
      CallStep(h, e, c);
      assert CallConsistent(h.calls[c]);
    } else if c < |Step(h, e).calls| {
      NewCall(h, e, c);
    }
  }

  ghost predicate SentBefore(es: seq<Event>, c: nat, d: nat) {
    SendTime(es, c).Some? && SendTime(es, d).Some? && SendTime(es, c).value < SendTime(es, d).value
  }

  /** The queue lists its calls in the order they were sent. */
  ghost predicate InSendOrder(es: seq<Event>, q: seq<nat>) {
    forall i, j :: 0 <= i < j < |q| ==> SentBefore(es, q[i], q[j])
  }

  lemma SentBeforePersists(es: seq<Event>, c: nat, d: nat)
    requires es != [] && SentBefore(es[..|es| - 1], c, d)
    ensures SentBefore(es, c, d)
  {
  }

  lemma {:induction false} RunKeepsOrder(es: seq<Event>, s: nat)
    requires IsRun(es) && s < |After(es).sessions|
    ensures InSendOrder(es, After(es).sessions[s].queue)
  {
    if es != [] {
      var init, e := es[..|es| - 1], es[|es| - 1];
      var h := After(init);
      if s < |h.sessions| {
        RunKeepsOrder(init, s);
        RunKeepsInv(init);
        QueueStep(h, e, s);
        var q, q' := h.sessions[s].queue, After(es).sessions[s].queue;
        if c :| Queues(h, e, c, s) && q' == q + [c] {
          QueuedLast(es, s, c);
        } else {
          forall i, j | 0 <= i < j < |q'| ensures SentBefore(es, q'[i], q'[j]) {
            if q' == q {
              SentBeforePersists(es, q[i], q[j]);
            } else {
              SentBeforePersists(es, q[i + 1], q[j + 1]);
            }
          }
        }
      } else {
        NewSession(h, e, s);
      }
    }
  }

  /** A call queued by the last event was sent after all that were in the queue. */
  lemma {:induction false} QueuedLast(es: seq<Event>, s: nat, c: nat)
    requires IsRun(es) && es != [] && s < |After(es[..|es| - 1]).sessions|
    requires Inv(After(es[..|es| - 1])) && Queues(After(es[..|es| - 1]), es[|es| - 1], c, s)
    requires InSendOrder(es[..|es| - 1], After(es[..|es| - 1]).sessions[s].queue)
    ensures InSendOrder(es, After(es[..|es| - 1]).sessions[s].queue + [c])
  {
    var init, q := es[..|es| - 1], After(es[..|es| - 1]).sessions[s].queue;
    assert SessionConsistent(After(init), s) && CallConsistent(After(init).calls[c]);
    RunIsTimed(init, c);
    RunIsTimed(es, c);
    forall i, j | 0 <= i < j < |q + [c]| ensures SentBefore(es, (q + [c])[i], (q + [c])[j]) {
      if j < |q| {
        SentBeforePersists(es, q[i], q[j]);
      } else {
        assert Holds(After(init), q[i], s, 0);
        RunIsTimed(init, q[i]);
      }
    }
  }

  /** First in, first out: of two requests on one session, the one sent first is written first; it
      was on the wire before the other was. */
  lemma {:induction false} WritesInSendOrder(es: seq<Event>, c: nat, d: nat)
    requires IsRun(es) && SentBefore(es, c, d) && WriteTime(es, d).Some?
    requires IsSent(After(es), c) && IsSent(After(es), d) && After(es).calls[c].home == After(es).calls[d].home
    ensures WriteTime(es, c).Some? && WriteTime(es, c).value < WriteTime(es, d).value
  {
    var init, e := es[..|es| - 1], es[|es| - 1];
    var h := After(init);
    RunKeepsInv(init);
    RunIsTimed(init, c);
    RunIsTimed(init, d);
    TimedStep(h, e, c);
    TimedStep(h, e, d);
    if WriteTime(init, d).Some? {
      assert CallConsistent(h.calls[d]);
      EarlierIsSent(es, c, d);
      WritesInSendOrder(init, c, d);
    } else {
      EarlierIsSent(es, c, d);
      HeadIsEarliest(init, c, d, h.calls[d].home.value);
    }
  }

  /** If `d` had been sent before the last event, so had `c`. */
  lemma EarlierIsSent(es: seq<Event>, c: nat, d: nat)
    requires es != [] && SentBefore(es, c, d) && SendTime(es[..|es| - 1], d).Some?
    requires SendTime(es[..|es| - 1], d).value < |es| - 1
    ensures SentBefore(es[..|es| - 1], c, d)
  {
  }

  /** When `d` is at the head of its session's queue, what was sent before it has been written. */
  lemma {:induction false} HeadIsEarliest(es: seq<Event>, c: nat, d: nat, s: nat)
    requires IsRun(es) && SentBefore(es, c, d) && IsSent(After(es), c) && After(es).calls[c].home == Some(s)
    requires s < |After(es).sessions| && After(es).sessions[s].open
    requires After(es).sessions[s].queue != [] && After(es).sessions[s].queue[0] == d
    ensures IsWritten(After(es), c)
  {
    var h := After(es);
    var q := h.sessions[s].queue;
    RunKeepsInv(es);
    RunAbandons(es);
    RunKeepsOrder(es, s);
    assert CallConsistent(h.calls[c]) && CallLocated(h, c) && Unwritable(h, h.calls[c]);
    NotBehind(es, q, c, d);
  }

  lemma NotBehind(es: seq<Event>, q: seq<nat>, c: nat, d: nat)
    requires InSendOrder(es, q) && q != [] && q[0] == d && SentBefore(es, c, d)
    ensures c !in q
  {
    forall i | 0 <= i < |q| ensures q[i] != c {
      assert i > 0 ==> SentBefore(es, d, q[i]);
    }
  }
}
