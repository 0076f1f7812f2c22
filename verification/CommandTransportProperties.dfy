/** At-most-once submission and response correlation, over every interleaving. */
module CommandTransportProperties {
  import opened Basics
  import opened RequestIds
  import opened CommandTransport

  /** The phases in which the payload has not been handed to any session. */
  predicate NotSubmitted(p: Phase) {
    match p
    case NeedSession(_) => true
    case Sending(_, _) => true
    case Awaiting(_) => false
    case Evicting(_, _, outcome) => outcome.Unavailable?
    case Finished(outcome) => outcome.Unavailable?
  }

  /** What a call's own fields keep to. */
  predicate CallConsistent(k: Call) {
    && (NotSubmitted(k.phase) <==> k.enqueues == 0)
    && (k.reply.Unsent? <==> k.enqueues == 0)
    && (k.home.Some? <==> k.enqueues == 1)
    && k.enqueues <= 1
    && k.writes <= k.enqueues
    && k.settlements == (if k.reply.Unsent? || k.reply.Waiting? then 0 else 1)
    && (k.reply.Answered? ==> k.writes == 1 && k.reply.frame.id == Some(k.id))
    && (k.phase.Finished? && k.phase.outcome.Success? ==> k.reply == Answered(k.phase.outcome.frame))
    && !(k.phase.Evicting? && k.phase.outcome.Success?)
  }

  /** An unsettled request is in exactly one place: in its session's queue before it is written,
      and in that session's pending map afterwards. */
  predicate CallLocated(h: Hub, c: nat)
    requires c < |h.calls|
  {
    var k := h.calls[c];
    && (k.home.Some? ==> k.home.value < |h.sessions|)
    && (k.phase.Sending? || k.phase.Awaiting? || k.phase.Evicting? ==> k.phase.session < |h.sessions|)
    && (k.reply.Waiting? && k.home.Some? ==>
          && h.sessions[k.home.value].open
          && (if k.writes == 0 then c in h.sessions[k.home.value].queue
              else k.id in h.sessions[k.home.value].pending && h.sessions[k.home.value].pending[k.id] == c))
  }

  predicate Holds(h: Hub, c: nat, s: nat, writes: nat) {
    c < |h.calls| && h.calls[c].reply.Waiting? && h.calls[c].home == Some(s) && h.calls[c].writes == writes
  }

  ghost predicate SessionConsistent(h: Hub, s: nat)
    requires s < |h.sessions|
  {
    var session := h.sessions[s];
    && (!session.open ==> session.queue == [] && session.pending == map[])
    && (forall i, j :: 0 <= i < j < |session.queue| ==> session.queue[i] != session.queue[j])
    && (forall i :: 0 <= i < |session.queue| ==> Holds(h, session.queue[i], s, 0))
    && (forall id :: id in session.pending ==>
          Holds(h, session.pending[id], s, 1) && h.calls[session.pending[id]].id == id)
  }

  ghost predicate Inv(h: Hub) {
    && (forall c :: 0 <= c < |h.calls| ==> CallConsistent(h.calls[c]))
    && (forall c :: 0 <= c < |h.calls| ==> CallLocated(h, c))
    && (forall s :: 0 <= s < |h.sessions| ==> SessionConsistent(h, s))
    && (forall c :: 0 <= c < |h.calls| ==> h.calls[c].id == IssuedId(h.calls[c].prefix, c))
    && (h.slot.Some? ==> h.slot.value == |h.sessions| - 1)
  }

  // ----- one step -----------------------------------------------------------------------------

  /** A step that only moves one caller on, without touching its payload. */
  lemma PhaseStep(h: Hub, c: nat, phase: Phase)
    requires Inv(h) && c < |h.calls|
    requires CallConsistent(h.calls[c].(phase := phase))
    requires phase.Sending? || phase.Awaiting? || phase.Evicting? ==> phase.session < |h.sessions|
    ensures Inv(SetPhase(h, c, phase))
  {
    var h' := SetPhase(h, c, phase);
    forall d | 0 <= d < |h.calls| ensures CallConsistent(h'.calls[d]) && CallLocated(h', d) {
      assert CallLocated(h, d);
    }
    forall s | 0 <= s < |h.sessions| ensures SessionConsistent(h', s) {
      assert SessionConsistent(h, s);
    }
  }

  lemma StartStep(h: Hub, prefix: string)
    requires Inv(h)
    ensures Inv(Step(h, Start(prefix)))
  {
    var h' := Step(h, Start(prefix));
    forall d | 0 <= d < |h.calls| ensures CallLocated(h', d) {
      assert CallLocated(h, d);
    }
    forall s | 0 <= s < |h.sessions| ensures SessionConsistent(h', s) {
      assert SessionConsistent(h, s);
    }
  }

  lemma ConnectStep(h: Hub, e: Event)
    requires Inv(h) && e.Connect? && Enabled(h, e)
    ensures Inv(Step(h, e))
  {
    var c := e.call;
    var attempt := h.calls[c].phase.attempt;
    if h.slot.Some? {
      PhaseStep(h, c, Sending(attempt, h.slot.value));
    } else if !e.connects {
      PhaseStep(h, c, Finished(Unavailable));
    } else {
      var g := h.(sessions := h.sessions + [Session(true, [], map[])], slot := Some(|h.sessions|));
      assert Inv(g) by {
        forall d | 0 <= d < |h.calls| ensures CallLocated(g, d) {
          assert CallLocated(h, d);
        }
        forall s | 0 <= s < |g.sessions| ensures SessionConsistent(g, s) {
          assert s < |h.sessions| ==> SessionConsistent(h, s);
        }
      }
      PhaseStep(g, c, Sending(attempt, |h.sessions|));
    }
  }

  lemma SendStep(h: Hub, c: nat)
    requires Inv(h) && Enabled(h, Send(c))
    ensures Inv(Step(h, Send(c)))
  {
    var s := h.calls[c].phase.session;
    var h' := Step(h, Send(c));
    if !h.sessions[s].open {
      PhaseStep(h, c, Evicting(h.calls[c].phase.attempt, s, Unavailable));
    } else {
      forall d | 0 <= d < |h.calls| ensures CallConsistent(h'.calls[d]) && CallLocated(h', d) {
        assert CallLocated(h, d) && CallConsistent(h.calls[d]);
      }
      forall x | 0 <= x < |h.sessions| ensures SessionConsistent(h', x) {
        QueuedSession(h, c, x);
      }
    }
  }

  lemma QueuedSession(h: Hub, c: nat, x: nat)
    requires Inv(h) && Enabled(h, Send(c)) && h.sessions[h.calls[c].phase.session].open && x < |h.sessions|
    ensures SessionConsistent(Step(h, Send(c)), x)
  {
    assert SessionConsistent(h, x) && CallConsistent(h.calls[c]);
    assert c !in h.sessions[x].queue;
  }

  lemma WriteStep(h: Hub, s: nat)
    requires Inv(h) && Enabled(h, Write(s))
    ensures Inv(Step(h, Write(s)))
  {
    forall d | 0 <= d < |h.calls|
      ensures CallConsistent(Step(h, Write(s)).calls[d]) && CallLocated(Step(h, Write(s)), d)
    {
      WriteCall(h, s, d);
    }
    forall x | 0 <= x < |h.sessions| ensures SessionConsistent(Step(h, Write(s)), x) {
      WriteSession(h, s, x);
    }
  }

  lemma WriteCall(h: Hub, s: nat, d: nat)
    requires Inv(h) && Enabled(h, Write(s)) && d < |h.calls|
    ensures CallConsistent(Step(h, Write(s)).calls[d]) && CallLocated(Step(h, Write(s)), d)
  {
    assert SessionConsistent(h, s) && CallLocated(h, d) && CallConsistent(h.calls[d]);
    var queue := h.sessions[s].queue;
    assert d in queue && d != queue[0] ==> d in queue[1..];
  }

  lemma WriteSession(h: Hub, s: nat, x: nat)
    requires Inv(h) && Enabled(h, Write(s)) && x < |h.sessions|
    ensures SessionConsistent(Step(h, Write(s)), x)
  {
    assert SessionConsistent(h, s) && SessionConsistent(h, x);
  }

  lemma TextStep(h: Hub, s: nat, frame: Frame)
    requires Inv(h) && Enabled(h, Text(s, frame))
    ensures Inv(Step(h, Text(s, frame)))
  {
    forall d | 0 <= d < |h.calls|
      ensures CallConsistent(Step(h, Text(s, frame)).calls[d])
              && CallLocated(Step(h, Text(s, frame)), d)
    {
      TextCall(h, s, frame, d);
    }
    forall x | 0 <= x < |h.sessions| ensures SessionConsistent(Step(h, Text(s, frame)), x) {
      TextSession(h, s, frame, x);
    }
  }

  lemma TextCall(h: Hub, s: nat, frame: Frame, d: nat)
    requires Inv(h) && Enabled(h, Text(s, frame)) && d < |h.calls|
    ensures CallConsistent(Step(h, Text(s, frame)).calls[d]) && CallLocated(Step(h, Text(s, frame)), d)
  {
    assert SessionConsistent(h, s) && CallLocated(h, d) && CallConsistent(h.calls[d]);
  }

  lemma TextSession(h: Hub, s: nat, frame: Frame, x: nat)
    requires Inv(h) && Enabled(h, Text(s, frame)) && x < |h.sessions|
    ensures SessionConsistent(Step(h, Text(s, frame)), x)
  {
    assert SessionConsistent(h, s) && SessionConsistent(h, x);
  }

  lemma EndSessionStep(h: Hub, s: nat, reply: Reply)
    requires Inv(h) && s < |h.sessions| && (reply.Failed? || reply.Dropped?)
    ensures Inv(EndSession(h, s, reply))
  {
    forall d | 0 <= d < |h.calls|
      ensures CallConsistent(EndSession(h, s, reply).calls[d]) && CallLocated(EndSession(h, s, reply), d)
    {
      EndSessionCall(h, s, reply, d);
    }
    forall x | 0 <= x < |h.sessions| ensures SessionConsistent(EndSession(h, s, reply), x) {
      EndSessionSession(h, s, reply, x);
    }
  }

  lemma EndSessionCall(h: Hub, s: nat, reply: Reply, d: nat)
    requires Inv(h) && s < |h.sessions| && (reply.Failed? || reply.Dropped?) && d < |h.calls|
    ensures CallConsistent(EndSession(h, s, reply).calls[d]) && CallLocated(EndSession(h, s, reply), d)
  {
    assert SessionConsistent(h, s) && CallLocated(h, d) && CallConsistent(h.calls[d]);
  }

  lemma EndSessionSession(h: Hub, s: nat, reply: Reply, x: nat)
    requires Inv(h) && s < |h.sessions| && (reply.Failed? || reply.Dropped?) && x < |h.sessions|
    ensures SessionConsistent(EndSession(h, s, reply), x)
  {
    if x != s {
      var h', session := EndSession(h, s, reply), h.sessions[x];
      assert SessionConsistent(h, x);
      forall i | 0 <= i < |session.queue| ensures Holds(h', session.queue[i], x, 0) {
        HeldElsewhere(h, s, reply, x, session.queue[i], 0);
      }
      forall id | id in session.pending
        ensures Holds(h', session.pending[id], x, 1) && h'.calls[session.pending[id]].id == id
      {
        HeldElsewhere(h, s, reply, x, session.pending[id], 1);
      }
    }
  }

  /** The end of one session leaves the requests of the others alone. */
  lemma HeldElsewhere(h: Hub, s: nat, reply: Reply, x: nat, c: nat, writes: nat)
    requires s < |h.sessions| && SessionConsistent(h, s) && x != s && Holds(h, c, x, writes)
    ensures EndSession(h, s, reply).calls[c] == h.calls[c]
  {
  }

  lemma WriteErrorStep(h: Hub, s: nat, reached: bool)
    requires Inv(h) && Enabled(h, WriteError(s, reached))
    ensures Inv(Step(h, WriteError(s, reached)))
  {
    var session := h.sessions[s];
    var c := session.queue[0];
    var call := h.calls[c].(writes := h.calls[c].writes + (if reached then 1 else 0));
    var g := h.(calls := h.calls[c := Settled(call, Dropped)],
                sessions := h.sessions[s := session.(queue := session.queue[1..])]);
    assert SessionConsistent(h, s);
    assert Inv(g) by {
      forall d | 0 <= d < |h.calls| ensures CallConsistent(g.calls[d]) && CallLocated(g, d) {
        assert CallLocated(h, d) && CallConsistent(h.calls[d]);
        assert d in session.queue && d != c ==> d in session.queue[1..];
      }
      forall x | 0 <= x < |h.sessions| ensures SessionConsistent(g, x) {
        assert SessionConsistent(h, x);
      }
    }
    EndSessionStep(g, s, Dropped);
  }

  lemma StepKeepsInv(h: Hub, e: Event)
    requires Inv(h) && Enabled(h, e)
    ensures Inv(Step(h, e))
  {
    match e
    case Start(prefix) => StartStep(h, prefix);
    case Connect(_, _) => ConnectStep(h, e);
    case Send(c) => SendStep(h, c);
    case Timeout(c) =>
      assert CallLocated(h, c);
      PhaseStep(h, c, Evicting(0, h.calls[c].phase.session, Uncertain));
    case TakeReply(c) =>
      if h.calls[c].reply.Answered? {
        PhaseStep(h, c, Finished(Success(h.calls[c].reply.frame)));
      } else {
        assert CallLocated(h, c);
        PhaseStep(h, c, Evicting(0, h.calls[c].phase.session, Uncertain));
      }
    case Evict(c) =>
      var Evicting(attempt, s, outcome) := h.calls[c].phase;
      var phase := if outcome.Unavailable? && attempt == 0 then NeedSession(1) else Finished(outcome);
      PhaseStep(h, c, phase);
      EvictSlot(SetPhase(h, c, phase), s);
    case Write(s) => WriteStep(h, s);
    case WriteError(s, reached) => WriteErrorStep(h, s, reached);
    case Text(s, frame) => TextStep(h, s, frame);
    case ReadEnd(s) => EndSessionStep(h, s, Failed);
    case Abandon(s) => EndSessionStep(h, s, Dropped);
  }

  lemma EvictSlot(h: Hub, s: nat)
    requires Inv(h)
    ensures Inv(h.(slot := if h.slot == Some(s) then None else h.slot))
  {
    var h' := h.(slot := if h.slot == Some(s) then None else h.slot);
    forall d | 0 <= d < |h.calls| ensures CallLocated(h', d) {
      assert CallLocated(h, d);
    }
    forall x | 0 <= x < |h.sessions| ensures SessionConsistent(h', x) {
      assert SessionConsistent(h, x);
    }
  }

  lemma {:induction false} RunKeepsInv(es: seq<Event>)
    requires IsRun(es)
    ensures Inv(After(es))
  {
    if es != [] {
      RunKeepsInv(es[..|es| - 1]);
      StepKeepsInv(After(es[..|es| - 1]), es[|es| - 1]);
    }
  }

  // ----- the guarantees -----------------------------------------------------------------------

  /** At-most-once submission: over every run a call's payload is queued on at most one session
      and written at most once, and a call that ends `Unavailable` never submitted it. */
  lemma AtMostOnce(es: seq<Event>, c: nat)
    requires IsRun(es) && c < |After(es).calls|
    ensures var k := After(es).calls[c];
            && k.enqueues <= 1 && k.writes <= 1
            && (k.phase == Finished(Unavailable) ==> k.enqueues == 0 && k.writes == 0)
  {
    RunKeepsInv(es);
    assert CallConsistent(After(es).calls[c]);
  }

  /** Response correlation: an `Ok` payload carries the caller's own id and answers a request that
      was written; and a queued request is settled at most once, answered, failed or dropped. */
  lemma RepliesCorrelate(es: seq<Event>, c: nat)
    requires IsRun(es) && c < |After(es).calls|
    ensures var k := After(es).calls[c];
            && (k.phase.Finished? && k.phase.outcome.Success? ==>
                  k.phase.outcome.frame.id == Some(k.id) && k.writes == 1)
            && k.settlements <= k.enqueues
  {
    RunKeepsInv(es);
    assert CallConsistent(After(es).calls[c]);
  }

  /** Until the id counter wraps, no two calls share an id ... */
  lemma IdsIdentifyCalls(es: seq<Event>, c: nat, d: nat)
    requires IsRun(es) && |After(es).calls| <= U64
    requires c < |After(es).calls| && d < |After(es).calls| && After(es).calls[c].id == After(es).calls[d].id
    ensures c == d
  {
    RunKeepsInv(es);
    var calls := After(es).calls;
    if c < d {
      IssuedIdsDistinct(calls[c].prefix, c, calls[d].prefix, d);
    } else if d < c {
      IssuedIdsDistinct(calls[d].prefix, d, calls[c].prefix, c);
    }
  }

  /** ... so a frame answering call `c`'s id changes no other call, however late it arrives, and
      reaches `c` only if `c`'s request is pending on that very session. */
  lemma FrameReachesItsCall(es: seq<Event>, s: nat, frame: Frame, c: nat, d: nat)
    requires IsRun(es) && |After(es).calls| <= U64 && Enabled(After(es), Text(s, frame))
    requires c < |After(es).calls| && d < |After(es).calls| && frame.id == Some(After(es).calls[c].id)
    ensures var h, h' := After(es), Step(After(es), Text(s, frame));
            && (d != c ==> h'.calls[d] == h.calls[d])
            && (h'.calls[c] != h.calls[c]
                <==> h.calls[c].reply.Waiting? && h.calls[c].home == Some(s) && h.calls[c].writes == 1)
            && (h'.calls[c] != h.calls[c] ==> h'.calls[c] == Settled(h.calls[c], Answered(frame)))
  {
    RunKeepsInv(es);
    var h := After(es);
    assert SessionConsistent(h, s) && CallLocated(h, c) && CallConsistent(h.calls[c]);
    if frame.id.value in h.sessions[s].pending {
      IdsIdentifyCalls(es, c, h.sessions[s].pending[frame.id.value]);
    }
  }

  /** ... and writing a request never displaces a pending one. */
  lemma PendingIsNeverDisplaced(es: seq<Event>, s: nat)
    requires IsRun(es) && |After(es).calls| <= U64 && Enabled(After(es), Write(s))
    ensures var session := After(es).sessions[s];
            After(es).calls[session.queue[0]].id !in session.pending
  {
    RunKeepsInv(es);
    var h := After(es);
    var session := h.sessions[s];
    assert SessionConsistent(h, s);
    var c, id := session.queue[0], h.calls[session.queue[0]].id;
    assert Holds(h, c, s, 0);
    if id in session.pending {
      IdsIdentifyCalls(es, c, session.pending[id]);
      assert false;
    }
  }

  /** Once a session has ended, every request queued on it has been settled exactly once, and no
      caller is left waiting for it. */
  lemma DeadSessionReleasesCallers(es: seq<Event>, c: nat)
    requires IsRun(es) && c < |After(es).calls|
    requires After(es).calls[c].home.Some? && After(es).calls[c].home.value < |After(es).sessions|
    requires !After(es).sessions[After(es).calls[c].home.value].open
    ensures After(es).calls[c].settlements == 1
    ensures After(es).calls[c].phase.Awaiting? ==> Enabled(After(es), TakeReply(c))
  {
    RunKeepsInv(es);
    assert CallLocated(After(es), c) && CallConsistent(After(es).calls[c]);
  }

  /** The slot only ever goes from empty to a brand-new session and from a session to empty, and
      only a caller that used the very session in the slot empties it. */
  lemma SlotStep(es: seq<Event>, e: Event)
    requires IsRun(es) && Enabled(After(es), e)
    ensures var h, h' := After(es), Step(After(es), e);
            || h'.slot == h.slot
            || (h.slot.None? && h'.slot == Some(|h.sessions|) && |h'.sessions| == |h.sessions| + 1)
            || (h'.slot.None? && e.Evict? && h.slot == Some(h.calls[e.call].phase.session))
    ensures |After(es).sessions| <= |Step(After(es), e).sessions|
  {
  }

  /** Hence an evicted session never returns to the slot. */
  lemma {:induction false} EvictedStaysEvicted(es: seq<Event>, more: seq<Event>, s: nat)
    requires IsRun(es + more)
    requires s < |After(es).sessions| && After(es).slot != Some(s)
    ensures s < |After(es + more).sessions| && After(es + more).slot != Some(s)
  {
    if more == [] {
      assert es + more == es;
    } else {
      var init, e := more[..|more| - 1], more[|more| - 1];
      assert (es + more)[..|es + more| - 1] == es + init;
      EvictedStaysEvicted(es, init, s);
      SlotStep(es + init, e);
    }
  }
}
