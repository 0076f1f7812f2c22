/** Engine health (crates/bat-markets-core/src/health.rs). */
module Health {
  import opened Basics

  datatype HealthStatus =
    | Healthy | DegradedPublicStream | DegradedPrivateStream | ReconcileRequired
    | CommandUncertain | ReadOnlySafe | Disconnected

  datatype DegradedReason =
    | PublicStreamGap | PrivateStreamGap | NeedsReconcile | UncertainCommand
    | SnapshotStale | StateDivergence | NotConnected

  datatype Report = Report(
    status: HealthStatus,
    restOk: bool,
    wsPublicOk: bool,
    wsPrivateOk: bool,
    clockSkewMs: Option<int>,
    lastPublicMsgAt: Option<int>,
    lastPrivateMsgAt: Option<int>,
    reconnectCount: nat,
    snapshotAgeMs: Option<nat>,
    stateDivergence: bool,
    degradedReason: Option<DegradedReason>)

  const DEFAULT := Report(Disconnected, false, false, false, None, None, None, 0, None, false, Some(NotConnected))

  datatype Event =
    | PublicMessage(at: int)
    | PrivateMessage(at: int)
    | RestSuccess(skew: Option<int>)
    | PublicDisconnect
    | PublicGap
    | PrivateDisconnect
    | PrivateGap
    | SnapshotAge(age: nat, staleAfter: nat)
    | Reconnect
    | MarkReconcileRequired
    | MarkCommandUncertain
    | MarkStateDivergence
    | ReconcileComplete

  function Degrade(r: Report, status: HealthStatus, reason: DegradedReason): Report {
    r.(status := status, degradedReason := Some(reason))
  }

  function Recover(r: Report): Report {
    r.(status := Healthy, degradedReason := None)
  }

  function Next(r: Report, e: Event): Report {
    match e
    case PublicMessage(at) =>
      var s := r.(lastPublicMsgAt := Some(at), wsPublicOk := true);
      if r.status in {Disconnected, DegradedPublicStream, ReadOnlySafe} && !r.stateDivergence
         && r.degradedReason !in {Some(NeedsReconcile), Some(UncertainCommand), Some(StateDivergence)}
      then Recover(s) else s
    case PrivateMessage(at) =>
      var s := r.(lastPrivateMsgAt := Some(at), wsPrivateOk := true);
      if r.status in {Disconnected, DegradedPrivateStream, ReadOnlySafe} then Recover(s) else s
    case RestSuccess(skew) =>
      var s := r.(restOk := true, clockSkewMs := if skew.Some? then skew else r.clockSkewMs);
      if r.status.Disconnected? then Recover(s) else s
    case PublicDisconnect =>
      var s := r.(wsPublicOk := false);
      if r.wsPrivateOk || r.restOk then Degrade(s, DegradedPublicStream, PublicStreamGap)
      else Degrade(s, Disconnected, NotConnected)
    case PublicGap => Degrade(r.(wsPublicOk := false), DegradedPublicStream, PublicStreamGap)
    case PrivateDisconnect =>
      var s := r.(wsPrivateOk := false);
      if r.wsPublicOk || r.restOk then Degrade(s, ReadOnlySafe, PrivateStreamGap)
      else Degrade(s, Disconnected, NotConnected)
    case PrivateGap => Degrade(r.(wsPrivateOk := false), ReconcileRequired, PrivateStreamGap)
    case SnapshotAge(age, staleAfter) =>
      var s := r.(snapshotAgeMs := Some(age));
      if age >= staleAfter && r.degradedReason !in {Some(UncertainCommand), Some(StateDivergence)}
      then Degrade(s, ReconcileRequired, SnapshotStale) else s
    case Reconnect => r.(reconnectCount := r.reconnectCount + 1)
    case MarkReconcileRequired => Degrade(r, ReconcileRequired, NeedsReconcile)
    case MarkCommandUncertain => Degrade(r, CommandUncertain, UncertainCommand)
    case MarkStateDivergence => Degrade(r.(stateDivergence := true), ReconcileRequired, StateDivergence)
    case ReconcileComplete =>
      var s := r.(stateDivergence := false, snapshotAgeMs := Some(0));
      if r.wsPublicOk && (r.wsPrivateOk || r.restOk) then Recover(s)
      else if r.wsPublicOk then Degrade(s, ReadOnlySafe, PrivateStreamGap)
      else Degrade(s, Disconnected, NotConnected)
  }

  function After(es: seq<Event>): Report {
    if es == [] then DEFAULT else Next(After(es[..|es| - 1]), es[|es| - 1])
  }

  // ----- the report as the engine updates it --------------------------------------------------

  class HealthReport {
    var status: HealthStatus
    var restOk: bool
    var wsPublicOk: bool
    var wsPrivateOk: bool
    var clockSkewMs: Option<int>
    var lastPublicMsgAt: Option<int>
    var lastPrivateMsgAt: Option<int>
    var reconnectCount: nat
    var snapshotAgeMs: Option<nat>
    var stateDivergence: bool
    var degradedReason: Option<DegradedReason>

    function View(): Report
      reads this
    {
      Report(status, restOk, wsPublicOk, wsPrivateOk, clockSkewMs, lastPublicMsgAt, lastPrivateMsgAt,
             reconnectCount, snapshotAgeMs, stateDivergence, degradedReason)
    }

    constructor ()
      ensures View() == DEFAULT
    {
      status, restOk, wsPublicOk, wsPrivateOk := Disconnected, false, false, false;
      clockSkewMs, lastPublicMsgAt, lastPrivateMsgAt := None, None, None;
      reconnectCount, snapshotAgeMs, stateDivergence, degradedReason := 0, None, false, Some(NotConnected);
    }

    method ObservePublicMessage(at: int)
      modifies this
      ensures View() == Next(old(View()), PublicMessage(at))
    {
      lastPublicMsgAt := Some(at);
      wsPublicOk := true;
      if status in {Disconnected, DegradedPublicStream, ReadOnlySafe} && !stateDivergence
         && degradedReason !in {Some(NeedsReconcile), Some(UncertainCommand), Some(StateDivergence)}
      {
        status := Healthy;
        degradedReason := None;
      }
    }

    method ObservePrivateMessage(at: int)
      modifies this
      ensures View() == Next(old(View()), PrivateMessage(at))
    {
      lastPrivateMsgAt := Some(at);
      wsPrivateOk := true;
      if status in {Disconnected, DegradedPrivateStream, ReadOnlySafe} {
        status := Healthy;
        degradedReason := None;
      }
    }

    method ObserveRestSuccess(skew: Option<int>)
      modifies this
      ensures View() == Next(old(View()), RestSuccess(skew))
    {
      restOk := true;
      if skew.Some? {
        clockSkewMs := skew;
      }
      if status == Disconnected {
        status := Healthy;
        degradedReason := None;
      }
    }

    method MarkPublicDisconnect()
      modifies this
      ensures View() == Next(old(View()), PublicDisconnect)
    {
      wsPublicOk := false;
      if wsPrivateOk || restOk {
        status, degradedReason := DegradedPublicStream, Some(PublicStreamGap);
      } else {
        status, degradedReason := Disconnected, Some(NotConnected);
      }
    }

    method MarkPublicGap()
      modifies this
      ensures View() == Next(old(View()), PublicGap)
    {
      status, wsPublicOk, degradedReason := DegradedPublicStream, false, Some(PublicStreamGap);
    }

    method MarkPrivateDisconnect()
      modifies this
      ensures View() == Next(old(View()), PrivateDisconnect)
    {
      wsPrivateOk := false;
      if wsPublicOk || restOk {
        status, degradedReason := ReadOnlySafe, Some(PrivateStreamGap);
      } else {
        status, degradedReason := Disconnected, Some(NotConnected);
      }
    }

    method MarkPrivateGap()
      modifies this
      ensures View() == Next(old(View()), PrivateGap)
    {
      status, wsPrivateOk, degradedReason := ReconcileRequired, false, Some(PrivateStreamGap);
    }

    method MarkSnapshotAge(age: nat, staleAfter: nat)
      modifies this
      ensures View() == Next(old(View()), SnapshotAge(age, staleAfter))
    {
      snapshotAgeMs := Some(age);
      if age >= staleAfter && degradedReason !in {Some(UncertainCommand), Some(StateDivergence)} {
        status, degradedReason := ReconcileRequired, Some(SnapshotStale);
      }
    }

    method MarkReconnect()
      modifies this
      ensures View() == Next(old(View()), Reconnect)
    {
      reconnectCount := reconnectCount + 1;
    }

    method MarkNeedsReconcile()
      modifies this
      ensures View() == Next(old(View()), MarkReconcileRequired)
    {
      status, degradedReason := ReconcileRequired, Some(NeedsReconcile);
    }

    method MarkUncertain()
      modifies this
      ensures View() == Next(old(View()), MarkCommandUncertain)
    {
      status, degradedReason := CommandUncertain, Some(UncertainCommand);
    }

    method MarkDivergence()
      modifies this
      ensures View() == Next(old(View()), MarkStateDivergence)
    {
      status, stateDivergence, degradedReason := ReconcileRequired, true, Some(StateDivergence);
    }

    method MarkReconcileComplete()
      modifies this
      ensures View() == Next(old(View()), ReconcileComplete)
    {
      stateDivergence := false;
      snapshotAgeMs := Some(0);
      if wsPublicOk && (wsPrivateOk || restOk) {
        status, degradedReason := Healthy, None;
      } else if wsPublicOk {
        status, degradedReason := ReadOnlySafe, Some(PrivateStreamGap);
      } else {
        status, degradedReason := Disconnected, Some(NotConnected);
      }
    }
  }

  // ----- whole runs ---------------------------------------------------------------------------

  /** The nine status and reason pairs a run can show. */
  predicate KnownPair(status: HealthStatus, reason: Option<DegradedReason>) {
    match status
    case Healthy => reason.None?
    case DegradedPublicStream => reason == Some(PublicStreamGap)
    case DegradedPrivateStream => false
    case ReconcileRequired =>
      reason in {Some(PrivateStreamGap), Some(SnapshotStale), Some(NeedsReconcile), Some(StateDivergence)}
    case CommandUncertain => reason == Some(UncertainCommand)
    case ReadOnlySafe => reason == Some(PrivateStreamGap)
    case Disconnected => reason == Some(NotConnected)
  }

  /** The latest divergence mark is newer than the latest completed reconcile. */
  predicate DivergenceOpen(es: seq<Event>) {
    es != [] && !es[|es| - 1].ReconcileComplete?
    && (es[|es| - 1].MarkStateDivergence? || DivergenceOpen(es[..|es| - 1]))
  }

  /** Whole-run invariant: only the known pairs occur (so `Healthy` exactly when there is no
      reason, and `DegradedPrivateStream` never), and the divergence flag tells exactly whether a
      divergence mark awaits a completed reconcile. */
  lemma {:induction false} RunInvariant(es: seq<Event>)
    ensures KnownPair(After(es).status, After(es).degradedReason)
    ensures After(es).status.Healthy? <==> After(es).degradedReason.None?
    ensures After(es).stateDivergence <==> DivergenceOpen(es)
  {
    if es != [] {
      RunInvariant(es[..|es| - 1]);
      StepKeepsPairs(After(es[..|es| - 1]), es[|es| - 1]);
    }
  }

  /** Messages, REST successes, staleness ticks and reconnects. */
  predicate Routine(e: Event) {
    e.PublicMessage? || e.PrivateMessage? || e.RestSuccess? || e.SnapshotAge? || e.Reconnect?
  }

  lemma StepKeepsPairs(r: Report, e: Event)
    requires KnownPair(r.status, r.degradedReason)
    ensures KnownPair(Next(r, e).status, Next(r, e).degradedReason)
    ensures Next(r, e).stateDivergence <==> !e.ReconcileComplete? && (e.MarkStateDivergence? || r.stateDivergence)
  {
    FlagStep(r, e);
    if Routine(e) {
      RoutineStep(r, e);
    } else {
      MarkStep(r, e);
    }
  }

  lemma FlagStep(r: Report, e: Event)
    ensures Next(r, e).stateDivergence <==> !e.ReconcileComplete? && (e.MarkStateDivergence? || r.stateDivergence)
  {
  }

  lemma RoutineStep(r: Report, e: Event)
    requires KnownPair(r.status, r.degradedReason) && Routine(e)
    ensures KnownPair(Next(r, e).status, Next(r, e).degradedReason)
  {
  }

  /** A mark or a disconnect decides the pair, whatever it was. */
  lemma MarkStep(r: Report, e: Event)
    requires !Routine(e)
    ensures KnownPair(Next(r, e).status, Next(r, e).degradedReason)
  {
  }

  lemma AfterSnoc(es: seq<Event>, e: Event)
    ensures After(es + [e]) == Next(After(es), e)
  {
    assert (es + [e])[..|es|] == es;
  }

  /** Conversely every known pair does occur. */
  lemma KnownPairReachable(status: HealthStatus, reason: Option<DegradedReason>)
    requires KnownPair(status, reason)
    ensures exists es :: After(es).status == status && After(es).degradedReason == reason
  {
    var es: seq<Event> :=
      match (status, reason)
      case (Healthy, _) => [RestSuccess(None)]
      case (DegradedPublicStream, _) => [PublicGap]
      case (ReconcileRequired, Some(PrivateStreamGap)) => [PrivateGap]
      case (ReconcileRequired, Some(SnapshotStale)) => [SnapshotAge(0, 0)]
      case (ReconcileRequired, Some(NeedsReconcile)) => [MarkReconcileRequired]
      case (ReconcileRequired, Some(StateDivergence)) => [MarkStateDivergence]
      case (CommandUncertain, _) => [MarkCommandUncertain]
      case (ReadOnlySafe, _) => [PublicMessage(0), PrivateDisconnect]
      case _ => [];
    if status.ReadOnlySafe? {
      AfterSnoc([], PublicMessage(0));
      AfterSnoc([PublicMessage(0)], PrivateDisconnect);
      assert [] + [PublicMessage(0)] == [PublicMessage(0)] && [PublicMessage(0)] + [PrivateDisconnect] == es;
    } else if es != [] {
      AfterSnoc([], es[0]);
      assert [] + [es[0]] == es;
    }
    assert After(es).status == status && After(es).degradedReason == reason;
  }

  /** An uncertain command stays visible through any routine traffic. */
  lemma {:induction false} UncertaintySurvives(es: seq<Event>, more: seq<Event>)
    requires After(es).status.CommandUncertain?
    requires forall e :: e in more ==> Routine(e)
    ensures After(es + more).status.CommandUncertain?
  {
    if more == [] {
      assert es + more == es;
    } else {
      var init, e := more[..|more| - 1], more[|more| - 1];
      UncertaintySurvives(es, init);
      RunInvariant(es + init);
      AfterSnoc(es + init, e);
      assert es + init + [e] == es + more;
      assert e in more;
    }
  }

  /** A stream event or a reconcile result is what ends it: in particular a public disconnect
      overwrites it. */
  lemma UncertaintyEnds(es: seq<Event>, e: Event)
    requires After(es).status.CommandUncertain?
    ensures After(es + [e]).status.CommandUncertain? <==> Routine(e) || e.MarkCommandUncertain?
  {
    RunInvariant(es);
    AfterSnoc(es, e);
  }

  /** `Healthy` does not rule out an open divergence. It is reached from a divergent report that is
      not yet healthy exactly by a private message while disconnected or read-only, or by a REST
      success while disconnected. */
  lemma HealthyWhileDivergent(es: seq<Event>, e: Event)
    requires !After(es).status.Healthy?
    ensures After(es + [e]).status.Healthy? && After(es + [e]).stateDivergence
       <==> && After(es).stateDivergence
            && (|| (e.PrivateMessage? && (After(es).status.Disconnected? || After(es).status.ReadOnlySafe?))
                || (e.RestSuccess? && After(es).status.Disconnected?))
  {
    RunInvariant(es);
    AfterSnoc(es, e);
  }

  lemma HealthyWhileDivergentHappens()
    ensures var r := After([MarkStateDivergence, PublicDisconnect, RestSuccess(None)]);
            r.status.Healthy? && r.stateDivergence
  {
    AfterSnoc([], MarkStateDivergence);
    AfterSnoc([MarkStateDivergence], PublicDisconnect);
    AfterSnoc([MarkStateDivergence, PublicDisconnect], RestSuccess(None));
    assert [] + [MarkStateDivergence] == [MarkStateDivergence];
    assert [MarkStateDivergence] + [PublicDisconnect] == [MarkStateDivergence, PublicDisconnect];
    assert [MarkStateDivergence, PublicDisconnect] + [RestSuccess(None)]
        == [MarkStateDivergence, PublicDisconnect, RestSuccess(None)];
  }

  // ----- the report, read off the history -----------------------------------------------------

  /** Of the messages, gaps and disconnects of the public stream the last is a message. */
  predicate PublicUp(es: seq<Event>) {
    es != [] && var e := es[|es| - 1];
    (e.PublicMessage? || (!e.PublicGap? && !e.PublicDisconnect? && PublicUp(es[..|es| - 1])))
  }

  predicate PrivateUp(es: seq<Event>) {
    es != [] && var e := es[|es| - 1];
    (e.PrivateMessage? || (!e.PrivateGap? && !e.PrivateDisconnect? && PrivateUp(es[..|es| - 1])))
  }

  predicate RestSeen(es: seq<Event>) {
    exists i :: 0 <= i < |es| && es[i].RestSuccess?
  }

  lemma RestSeenSnoc(es: seq<Event>)
    requires es != []
    ensures RestSeen(es) <==> es[|es| - 1].RestSuccess? || RestSeen(es[..|es| - 1])
  {
    if i :| 0 <= i < |es| - 1 && es[i].RestSuccess? {
      assert es[..|es| - 1][i] == es[i];
    }
  }

  /** The connection flags tell what the history says of the three connections. */
  lemma {:induction false} FlagsFollowHistory(es: seq<Event>)
    ensures After(es).wsPublicOk <==> PublicUp(es)
    ensures After(es).wsPrivateOk <==> PrivateUp(es)
    ensures After(es).restOk <==> RestSeen(es)
    ensures es == [] ==> After(es).status == Disconnected
  {
    if es != [] {
      FlagsFollowHistory(es[..|es| - 1]);
      RestSeenSnoc(es);
      ConnectionStep(After(es[..|es| - 1]), es[|es| - 1]);
    }
  }

  lemma ConnectionStep(r: Report, e: Event)
    ensures Next(r, e).wsPublicOk <==> e.PublicMessage? || (r.wsPublicOk && !e.PublicGap? && !e.PublicDisconnect?)
    ensures Next(r, e).wsPrivateOk <==> e.PrivateMessage? || (r.wsPrivateOk && !e.PrivateGap? && !e.PrivateDisconnect?)
    ensures Next(r, e).restOk <==> e.RestSuccess? || r.restOk
  {
  }

  /** The last value some event set, or the initial one. */
  function LastSet<T>(es: seq<Event>, value: Event -> Option<T>): Option<T> {
    if es == [] then None
    else if value(es[|es| - 1]).Some? then value(es[|es| - 1])
    else LastSet(es[..|es| - 1], value)
  }

  function Reconnects(es: seq<Event>): nat {
    if es == [] then 0 else Reconnects(es[..|es| - 1]) + if es[|es| - 1].Reconnect? then 1 else 0
  }

  function PublicTime(e: Event): Option<int> {
    if e.PublicMessage? then Some(e.at) else None
  }

  function PrivateTime(e: Event): Option<int> {
    if e.PrivateMessage? then Some(e.at) else None
  }

  function Skew(e: Event): Option<int> {
    if e.RestSuccess? then e.skew else None
  }

  function Age(e: Event): Option<nat> {
    if e.SnapshotAge? then Some(e.age) else if e.ReconcileComplete? then Some(0) else None
  }

  /** Times, skew and age are the last ones observed; a completed reconcile sets the age to zero. */
  lemma {:induction false} FieldsFollowHistory(es: seq<Event>)
    ensures After(es).lastPublicMsgAt == LastSet(es, PublicTime)
    ensures After(es).lastPrivateMsgAt == LastSet(es, PrivateTime)
    ensures After(es).clockSkewMs == LastSet(es, Skew)
    ensures After(es).snapshotAgeMs == LastSet(es, Age)
    ensures After(es).reconnectCount == Reconnects(es)
  {
    if es != [] {
      FieldsFollowHistory(es[..|es| - 1]);
      FieldStep(After(es[..|es| - 1]), es[|es| - 1]);
    }
  }

  lemma FieldStep(r: Report, e: Event)
    ensures Next(r, e).lastPublicMsgAt == if PublicTime(e).Some? then PublicTime(e) else r.lastPublicMsgAt
    ensures Next(r, e).lastPrivateMsgAt == if PrivateTime(e).Some? then PrivateTime(e) else r.lastPrivateMsgAt
    ensures Next(r, e).clockSkewMs == if Skew(e).Some? then Skew(e) else r.clockSkewMs
    ensures Next(r, e).snapshotAgeMs == if Age(e).Some? then Age(e) else r.snapshotAgeMs
    ensures Next(r, e).reconnectCount == r.reconnectCount + if e.Reconnect? then 1 else 0
  {
  }

  /** The status after one more event, exactly, from what the history says of the connections and of
      an open divergence. */
  lemma StatusAfterMark(es: seq<Event>, e: Event)
    requires !Routine(e)
    ensures After(es + [e]).status == (match e
              case ReconcileComplete =>
                if !PublicUp(es) then Disconnected else if PrivateUp(es) || RestSeen(es) then Healthy else ReadOnlySafe
              case PublicDisconnect => if PrivateUp(es) || RestSeen(es) then DegradedPublicStream else Disconnected
              case PrivateDisconnect => if PublicUp(es) || RestSeen(es) then ReadOnlySafe else Disconnected
              case PublicGap => DegradedPublicStream
              case MarkCommandUncertain => CommandUncertain
              case _ => ReconcileRequired)
  {
    AfterSnoc(es, e);
    FlagsFollowHistory(es);
  }

  /** Traffic restores `Healthy` from some statuses only, and a public message only without an open
      divergence; a staleness tick demands a reconcile unless a doubt or a divergence is open. */
  lemma StatusAfterRoutine(es: seq<Event>, e: Event)
    requires Routine(e)
    ensures var was := After(es).status;
            After(es + [e]).status == (match e
              case PublicMessage(_) =>
                if was in {Disconnected, DegradedPublicStream, ReadOnlySafe} && !DivergenceOpen(es) then Healthy
                else was
              case PrivateMessage(_) => if was in {Disconnected, ReadOnlySafe} then Healthy else was
              case RestSuccess(_) => if was == Disconnected then Healthy else was
              case SnapshotAge(age, staleAfter) =>
                if age < staleAfter || was == CommandUncertain then was else ReconcileRequired
              case _ => was)
  {
    AfterSnoc(es, e);
    RunInvariant(es);
  }

  /** Why a reconcile is required: what last demanded it. A staleness tick takes over from any other
      reason but a divergence. */
  lemma ReasonForReconcile(es: seq<Event>, e: Event)
    requires After(es + [e]).status.ReconcileRequired?
    ensures After(es + [e]).degradedReason == (match e
              case PrivateGap => Some(PrivateStreamGap)
              case MarkReconcileRequired => Some(NeedsReconcile)
              case MarkStateDivergence => Some(StateDivergence)
              case SnapshotAge(age, staleAfter) =>
                if age < staleAfter || After(es).degradedReason == Some(StateDivergence) then After(es).degradedReason
                else Some(SnapshotStale)
              case _ => After(es).degradedReason)
  {
    AfterSnoc(es, e);
    RunInvariant(es);
  }
}
