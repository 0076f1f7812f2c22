/** The locked state with its broadcast channels (crates/bat-markets/src/client.rs). */
module SharedStates {
  import opened Basics
  import H = Health
  import opened Engine
  import opened EngineStates

  /** The instrument whose absence makes applying the event fail, if there is one. */
  function FallibleInstrument(e: PublicEvent): Option<string> {
    match e
    case Ticker(m) => Some(m.instrument)
    case Trade(_, m) => Some(m.instrument)
    case BookTop(m) => Some(m.instrument)
    case Kline(m) => Some(m.instrument)
    case MarkPrice(m) => Some(m.instrument)
    case Liquidation(m) => Some(m.instrument)
    case OrderBookDelta(_) => None
    case FundingRate(_) => None
    case OpenInterest(_) => None
    case Divergence(_) => None
  }

  predicate Acceptable(s: State, e: PublicEvent) {
    FallibleInstrument(e).None? || FallibleInstrument(e).value in s.market.instruments
  }

  predicate AllAcceptable(s: State, es: seq<PublicEvent>) {
    forall i :: 0 <= i < |es| ==> Acceptable(s, es[i])
  }

  /** Applying in order up to the first error; what was applied before it stays. */
  function ApplyEach(s: State, es: seq<PublicEvent>): (State, bool) {
    if es == [] then (s, true)
    else
      var (t, ok) := ApplyEach(s, es[..|es| - 1]);
      if ok then ApplyPublic(t, es[|es| - 1]) else (t, false)
  }

  /** `apply_public_events`: batches of more than one event are checked first. */
  function ApplyBatch(s: State, es: seq<PublicEvent>): (State, bool) {
    if |es| > 1 && !AllAcceptable(s, es) then (s, false) else ApplyEach(s, es)
  }

  predicate ShouldPublish(before: H.Report, after: H.Report) {
    || before.status != after.status
    || before.restOk != after.restOk
    || before.wsPublicOk != after.wsPublicOk
    || before.wsPrivateOk != after.wsPrivateOk
    || before.clockSkewMs != after.clockSkewMs
    || before.reconnectCount != after.reconnectCount
    || before.stateDivergence != after.stateDivergence
    || before.degradedReason != after.degradedReason
  }

  datatype Notification = Notification(previous: H.Report, current: H.Report)

  /** What writes that leave these healths behind put on the watch. */
  function Watched(hs: seq<H.Report>): H.Report
    requires hs != []
  {
    if |hs| == 1 then hs[0]
    else if ShouldPublish(hs[|hs| - 2], hs[|hs| - 1]) then hs[|hs| - 1]
    else Watched(hs[..|hs| - 1])
  }

  /** ... and on the notification channel. */
  function Notified(hs: seq<H.Report>): seq<Notification> {
    if |hs| <= 1 then []
    else
      Notified(hs[..|hs| - 1])
      + (if ShouldPublish(hs[|hs| - 2], hs[|hs| - 1]) then [Notification(hs[|hs| - 2], hs[|hs| - 1])] else [])
  }

  lemma PublishSnoc(hs: seq<H.Report>, h: H.Report)
    requires hs != []
    ensures var before := hs[|hs| - 1];
            && Watched(hs + [h]) == (if ShouldPublish(before, h) then h else Watched(hs))
            && Notified(hs + [h]) == Notified(hs) + (if ShouldPublish(before, h) then [Notification(before, h)] else [])
  {
    assert (hs + [h])[..|hs|] == hs;
  }

  class SharedState {
    const engine: EngineState
    var healthWatch: H.Report
    var notifications: seq<Notification>
    var publicEvents: seq<PublicEvent>
    var privateEvents: seq<PrivateEvent>

    /** The health at the start and after every write. */
    ghost var healths: seq<H.Report>

    ghost predicate Published()
      reads this
    {
      healths != [] && healthWatch == Watched(healths) && notifications == Notified(healths)
    }

    /** The channels tell the history of the health up to now. */
    ghost predicate Valid()
      reads this, engine.health
    {
      Published() && healths[|healths| - 1] == engine.health.View()
    }

    constructor (engine: EngineState)
      ensures this.engine == engine && Valid() && healths == [engine.health.View()]
      ensures notifications == [] && publicEvents == [] && privateEvents == []
    {
      this.engine := engine;
      healthWatch, notifications, publicEvents, privateEvents := engine.health.View(), [], [], [];
      healths := [engine.health.View()];
    }

    /** The tail of every write: publish the health change, if it is one worth publishing. */
    method PublishHealth(before: H.Report)
      requires Published() && before == healths[|healths| - 1]
      modifies this`healthWatch, this`notifications, this`healths
      ensures Valid() && healths == old(healths) + [engine.health.View()]
    {
      var after := engine.health.View();
      PublishSnoc(healths, after);
      if ShouldPublish(before, after) {
        healthWatch := after;
        notifications := notifications + [Notification(before, after)];
      }
      healths := healths + [after];
    }

    /** `write`, with a closure that performs these operations. */
    method Write(os: seq<Operation>)
      requires Valid()
      modifies this`healthWatch, this`notifications, this`healths, engine, engine.health
      ensures Valid() && healths == old(healths) + [engine.health.View()]
      ensures engine.View() == Run(old(engine.View()), os)
    {
      var before := engine.health.View();
      for i := 0 to |os|
        invariant engine.View() == Run(old(engine.View()), os[..i])
        modifies engine, engine.health
      {
        assert os[..i + 1][..i] == os[..i];
        engine.Perform(os[i]);
      }
      assert os[..|os|] == os;
      PublishHealth(before);
    }

    method CheckBatch(es: seq<PublicEvent>) returns (ok: bool)
      ensures ok == AllAcceptable(engine.View(), es)
    {
      for i := 0 to |es|
        invariant AllAcceptable(engine.View(), es[..i])
      {
        var id := FallibleInstrument(es[i]);
        if id.Some? && id.value !in engine.instruments {
          return false;
        }
      }
      return true;
    }

    method ApplyPublicEvents(es: seq<PublicEvent>) returns (ok: bool)
      requires Valid()
      modifies this`healthWatch, this`notifications, this`healths, this`publicEvents, engine, engine.health
      ensures Valid() && healths == old(healths) + (if es == [] then [] else [engine.health.View()])
      ensures (engine.View(), ok) == ApplyBatch(old(engine.View()), es)
      ensures publicEvents == old(publicEvents) + (if ok then es else [])
    {
      if es == [] {
        return true;
      }
      var before := engine.health.View();
      ok := true;
      if |es| > 1 {
        ok := CheckBatch(es);
      }
      if ok {
        ok := ApplyInOrder(es);
      }
      PublishHealth(before);
      if ok {
        BroadcastPublic(es);
      }
    }

    method BroadcastPublic(es: seq<PublicEvent>)
      modifies this`publicEvents
      ensures publicEvents == old(publicEvents) + es
    {
      for i := 0 to |es|
        invariant publicEvents == old(publicEvents) + es[..i]
      {
        publicEvents := publicEvents + [es[i]];
      }
      assert es[..|es|] == es;
    }

    method ApplyInOrder(es: seq<PublicEvent>) returns (ok: bool)
      modifies engine, engine.health
      ensures (engine.View(), ok) == ApplyEach(old(engine.View()), es)
    {
      for i := 0 to |es|
        invariant (engine.View(), true) == ApplyEach(old(engine.View()), es[..i])
      {
        assert es[..i + 1][..i] == es[..i];
        ok := engine.ApplyPublicEvent(es[i]);
        if !ok {
          FailurePersists(old(engine.View()), es, i + 1);
          return;
        }
      }
      assert es[..|es|] == es;
      ok := true;
    }

    method ApplyPrivateEvents(es: seq<PrivateEvent>)
      requires Valid()
      modifies this`healthWatch, this`notifications, this`healths, this`privateEvents, engine, engine.health
      ensures Valid() && healths == old(healths) + (if es == [] then [] else [engine.health.View()])
      ensures engine.View() == Run(old(engine.View()), Privates(es))
      ensures privateEvents == old(privateEvents) + es
    {
      if es == [] {
        NothingToApply(engine.View());
        return;
      }
      var before := engine.health.View();
      ApplyAll(es);
      PublishHealth(before);
      BroadcastPrivate(es);
    }

    method ApplyAll(es: seq<PrivateEvent>)
      modifies engine, engine.health
      ensures engine.View() == Run(old(engine.View()), Privates(es))
    {
      for i := 0 to |es|
        invariant engine.View() == Run(old(engine.View()), Privates(es[..i]))
      {
        assert Privates(es[..i + 1])[..i] == Privates(es[..i]);
        engine.ApplyPrivateEvent(es[i]);
      }
      assert es[..|es|] == es;
    }

    method BroadcastPrivate(es: seq<PrivateEvent>)
      modifies this`privateEvents
      ensures privateEvents == old(privateEvents) + es
    {
      for i := 0 to |es|
        invariant privateEvents == old(privateEvents) + es[..i]
      {
        privateEvents := privateEvents + [es[i]];
      }
      assert es[..|es|] == es;
    }
  }

  lemma NothingToApply(s: State)
    ensures Run(s, Privates([])) == s
  {
  }

  lemma {:induction false} FailurePersists(s: State, es: seq<PublicEvent>, i: nat)
    requires i <= |es| && !ApplyEach(s, es[..i]).1
    ensures ApplyEach(s, es) == ApplyEach(s, es[..i])
    decreases |es| - i
  {
    if i < |es| {
      assert es[..i + 1][..i] == es[..i];
      FailurePersists(s, es, i + 1);
    } else {
      assert es[..i] == es;
    }
  }

  // ----- all or nothing -----------------------------------------------------------------------

  /** The pre-check names exactly the events whose application fails, and no event changes the set
      of known instruments, so a check at the start holds to the end. */
  lemma PreCheckIsExact(s: State, e: PublicEvent)
    ensures ApplyPublic(s, e).1 <==> Acceptable(s, e)
    ensures ApplyPublic(s, e).0.market.instruments == s.market.instruments
    ensures !ApplyPublic(s, e).1 ==> ApplyPublic(s, e).0 == s
  {
  }

  lemma {:induction false} ApplyEachIsRun(s: State, es: seq<PublicEvent>)
    ensures ApplyEach(s, es).1 <==> AllAcceptable(s, es)
    ensures ApplyEach(s, es).1 ==> ApplyEach(s, es).0 == Run(s, Publics(es))
    ensures ApplyEach(s, es).0.market.instruments == s.market.instruments
  {
    if es != [] {
      var init, last := es[..|es| - 1], es[|es| - 1];
      ApplyEachIsRun(s, init);
      PreCheckIsExact(ApplyEach(s, init).0, last);
      assert Publics(es)[..|es| - 1] == Publics(init);
      assert es == init + [last];
      assert AllAcceptable(s, es) <==> AllAcceptable(s, init) && Acceptable(s, last);
    }
  }

  /** Public batches are all-or-nothing: either every event is applied, in order, or there is an
      error and the state is exactly as before; and which of the two is decided by the instruments
      known beforehand. */
  lemma BatchIsAllOrNothing(s: State, es: seq<PublicEvent>)
    ensures ApplyBatch(s, es).1 <==> AllAcceptable(s, es)
    ensures ApplyBatch(s, es) == if AllAcceptable(s, es) then (Run(s, Publics(es)), true) else (s, false)
  {
    ApplyEachIsRun(s, es);
    if |es| == 1 {
      assert es[..0] == [];
      PreCheckIsExact(s, es[0]);
    }
  }

  /** The pre-check is what makes it so: without it a failing batch leaves its first events applied. */
  lemma UncheckedBatchIsPartial(s: State, known: Fast, unknown: Fast)
    requires known.instrument in s.market.instruments && unknown.instrument !in s.market.instruments
    requires known.instrument !in s.market.tickers
    ensures var (t, ok) := ApplyEach(s, [Ticker(known), Ticker(unknown)]);
            !ok && t != s
  {
    var es := [Ticker(known), Ticker(unknown)];
    assert es[..1] == [Ticker(known)] && es[..1][..0] == [];
    PreCheckIsExact(s, Ticker(known));
    PreCheckIsExact(ApplyPublic(s, Ticker(known)).0, Ticker(unknown));
    assert ApplyEach(s, es[..1]) == ApplyPublic(s, Ticker(known));
    assert known.instrument in ApplyPublic(s, Ticker(known)).0.market.tickers;
  }

  // ----- health notifications -----------------------------------------------------------------

  /** The watch never shows an outdated value of a published field, and the notifications form a
      chain: each starts where the one before ended, the last ends at the current health. */
  lemma {:induction false} PublishedChain(hs: seq<H.Report>)
    requires hs != []
    ensures !ShouldPublish(Watched(hs), hs[|hs| - 1])
    ensures var ns := Notified(hs);
            && (forall i :: 0 < i < |ns| ==> !ShouldPublish(ns[i - 1].current, ns[i].previous))
            && (ns != [] ==> !ShouldPublish(hs[0], ns[0].previous) && ns[|ns| - 1].current == Watched(hs))
            && (ns == [] ==> Watched(hs) == hs[0])
  {
    if |hs| > 1 {
      PublishedChain(hs[..|hs| - 1]);
    }
  }

  /** The fields whose changes are published; message times and the snapshot's age are not. */
  predicate SamePublished(a: H.Report, b: H.Report) {
    && a.status == b.status && a.degradedReason == b.degradedReason && a.stateDivergence == b.stateDivergence
    && a.restOk == b.restOk && a.wsPublicOk == b.wsPublicOk && a.wsPrivateOk == b.wsPrivateOk
    && a.clockSkewMs == b.clockSkewMs && a.reconnectCount == b.reconnectCount
  }

  lemma {:induction false} NotifiedDiffer(hs: seq<H.Report>)
    ensures forall i :: 0 <= i < |Notified(hs)| ==> !SamePublished(Notified(hs)[i].previous, Notified(hs)[i].current)
  {
    if |hs| > 1 {
      NotifiedDiffer(hs[..|hs| - 1]);
    }
  }

  /** So it is for every shared state, after any sequence of its writes: constructor and methods keep
      it valid, and in a valid one the watch shows the current value of every published field, every
      notification changes one, and they lead from the initial health to the watched one without a gap. */
  lemma WatchFollowsHealth(shared: SharedState)
    requires shared.Valid()
    ensures var watch, now := shared.healthWatch, shared.engine.health.View();
            var ns, hs := shared.notifications, shared.healths;
            && SamePublished(watch, now)
            && (forall i :: 0 <= i < |ns| ==> !SamePublished(ns[i].previous, ns[i].current))
            && (forall i :: 0 < i < |ns| ==> SamePublished(ns[i - 1].current, ns[i].previous))
            && (if ns == [] then watch == hs[0]
                else SamePublished(hs[0], ns[0].previous) && ns[|ns| - 1].current == watch)
  {
    PublishedChain(shared.healths);
    NotifiedDiffer(shared.healths);
  }
}
