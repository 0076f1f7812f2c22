/** Command handles and their resolution over the command bus (crates/bat-markets/src/entry.rs). */
module CommandHandle {
  import opened Basics

  datatype Operation =
    | CreateOrder | CreateOrders | AmendOrder | AmendOrders | CancelOrder | CancelOrders | CancelAllOrders
    | ClosePosition | ValidateOrder | GetOrder | SetLeverage | SetMarginMode | SetPositionMode

  datatype Status = Accepted | Rejected | UnknownExecution

  datatype Transport = Auto | Rest | WebSocket

  datatype Receipt = Receipt(
    operation: Operation,
    status: Status,
    venue: Venue,
    instrumentId: Option<string>,
    orderId: Option<string>,
    clientOrderId: Option<string>,
    requestId: Option<string>,
    message: Option<string>,
    nativeCode: Option<string>,
    retriable: bool)

  datatype Ack = Ack(receipt: Receipt, transport: Transport, acknowledgedAt: int)

  datatype Outcome = Synchronized | StillUncertain | Diverged

  datatype Report = Report(outcome: Outcome, repairedAt: int, note: Option<string>)

  datatype Lifecycle =
    | Acknowledged(ack: Ack)
    | ReceiptSeen(receipt: Receipt)
    | RecoveryScheduled(ack: Ack)
    | RecoveryCompleted(ack: Ack, report: Report)

  datatype LaneEvent = ReceiptEvent(receipt: Receipt) | LifecycleEvent(lifecycle: Lifecycle)

  /** What the bus receiver yields next: an event, or an error (lagged or closed). */
  datatype Delivery = Delivered(event: LaneEvent) | Lost

  /** A wait: over with a value or an error, or not over with what has been delivered so far. */
  datatype Wait<T> = Value(value: T) | ReceiveError | StillWaiting

  predicate MatchesReceipt(left: Receipt, right: Receipt) {
    if left.operation != right.operation then false
    else if left.orderId.Some? && right.orderId.Some? then left.orderId == right.orderId
    else if left.clientOrderId.Some? && right.clientOrderId.Some? then left.clientOrderId == right.clientOrderId
    else if left.requestId.Some? && right.requestId.Some? then left.requestId == right.requestId
    else false
  }

  predicate MatchesLifecycle(ack: Ack, l: Lifecycle) {
    match l
    case Acknowledged(other) => ack == other
    case RecoveryScheduled(other) => ack == other
    case RecoveryCompleted(other, _) => ack == other
    case ReceiptSeen(other) => MatchesReceipt(ack.receipt, other)
  }

  function ReceiptAfterRecovery(receipt: Receipt, report: Report): Receipt {
    match report.outcome
    case Synchronized =>
      receipt.(status := Accepted, retriable := false,
               message := if report.note.Some? then report.note else Some("command outcome resolved by reconcile"))
    case _ =>
      receipt.(status := UnknownExecution, retriable := true,
               message := if report.note.Some? then report.note
                          else Some("command outcome remains unresolved after reconcile"))
  }

  /** The first lifecycle event for this command, and the deliveries left after it. */
  function NextLifecycle(ack: Ack, inbox: seq<Delivery>): (Wait<Lifecycle>, seq<Delivery>) {
    if inbox == [] then (StillWaiting, [])
    else
      match inbox[0]
      case Lost => (ReceiveError, inbox[1..])
      case Delivered(LifecycleEvent(l)) =>
        if MatchesLifecycle(ack, l) then (Value(l), inbox[1..]) else NextLifecycle(ack, inbox[1..])
      case Delivered(ReceiptEvent(_)) => NextLifecycle(ack, inbox[1..])
  }

  function NextReceipt(ack: Ack, inbox: seq<Delivery>): (Wait<Receipt>, seq<Delivery>) {
    if inbox == [] then (StillWaiting, [])
    else
      match inbox[0]
      case Lost => (ReceiveError, inbox[1..])
      case Delivered(ReceiptEvent(r)) =>
        if MatchesReceipt(ack.receipt, r) then (Value(r), inbox[1..]) else NextReceipt(ack, inbox[1..])
      case Delivered(LifecycleEvent(_)) => NextReceipt(ack, inbox[1..])
  }

  lemma {:induction false} NextLifecycleConsumes(ack: Ack, inbox: seq<Delivery>)
    ensures |NextLifecycle(ack, inbox).1| <= |inbox|
    ensures NextLifecycle(ack, inbox).0.Value? ==> |NextLifecycle(ack, inbox).1| < |inbox|
  {
    if inbox != [] {
      NextLifecycleConsumes(ack, inbox[1..]);
    }
  }

  function Resolve(ack: Ack, inbox: seq<Delivery>): (Wait<Receipt>, seq<Delivery>)
    decreases |inbox|
  {
    NextLifecycleConsumes(ack, inbox);
    var (l, rest) := NextLifecycle(ack, inbox);
    match l
    case StillWaiting => (StillWaiting, rest)
    case ReceiveError => (ReceiveError, rest)
    case Value(RecoveryCompleted(_, report)) => (Value(ReceiptAfterRecovery(ack.receipt, report)), rest)
    case Value(_) => Resolve(ack, rest)
  }

  class PendingCommandHandle {
    const ack: Ack
    var inbox: seq<Delivery>
    var initialReceiptPending: bool

    constructor (ack: Ack, inbox: seq<Delivery>)
      ensures this.ack == ack && this.inbox == inbox && initialReceiptPending
    {
      this.ack, this.inbox, initialReceiptPending := ack, inbox, true;
    }

    method NextReceiptEvent() returns (r: Wait<Receipt>)
      modifies this`inbox, this`initialReceiptPending
      ensures !initialReceiptPending
      ensures (r, inbox) ==
                           if old(initialReceiptPending) then (Value(ack.receipt), old(inbox))
                           else NextReceipt(ack, old(inbox))
    {
      if initialReceiptPending {
        initialReceiptPending := false;
        return Value(ack.receipt);
      }
      while inbox != []
        invariant !initialReceiptPending
        invariant NextReceipt(ack, inbox) == NextReceipt(ack, old(inbox))
        decreases |inbox|
      {
        var d := inbox[0];
        inbox := inbox[1..];
        if d.Lost? {
          return ReceiveError;
        }
        if d.event.ReceiptEvent? && MatchesReceipt(ack.receipt, d.event.receipt) {
          return Value(d.event.receipt);
        }
      }
      return StillWaiting;
    }

    method NextLifecycleEvent() returns (r: Wait<Lifecycle>)
      modifies this`inbox
      ensures (r, inbox) == NextLifecycle(ack, old(inbox))
    {
      while inbox != []
        invariant NextLifecycle(ack, inbox) == NextLifecycle(ack, old(inbox))
        decreases |inbox|
      {
        var d := inbox[0];
        inbox := inbox[1..];
        if d.Lost? {
          return ReceiveError;
        }
        if d.event.LifecycleEvent? && MatchesLifecycle(ack, d.event.lifecycle) {
          return Value(d.event.lifecycle);
        }
      }
      return StillWaiting;
    }

    method Resolved() returns (r: Wait<Receipt>)
      modifies this`inbox
      ensures ack.receipt.status != UnknownExecution ==> r == Value(ack.receipt) && inbox == old(inbox)
      ensures ack.receipt.status == UnknownExecution ==> (r, inbox) == Resolve(ack, old(inbox))
    {
      if ack.receipt.status != UnknownExecution {
        return Value(ack.receipt);
      }
      while true
        invariant Resolve(ack, inbox) == Resolve(ack, old(inbox))
        decreases |inbox|
      {
        NextLifecycleConsumes(ack, inbox);
        var l := NextLifecycleEvent();
        match l {
          case StillWaiting => return StillWaiting;
          case ReceiveError => return ReceiveError;
          case Value(RecoveryCompleted(_, report)) => return Value(ReceiptAfterRecovery(ack.receipt, report));
          case Value(_) =>
        }
      }
    }
  }

  // ----- what resolution guarantees -----------------------------------------------------------

  /** A delivery that ends the wait of the command with this acknowledgement: a receive error, or a
      recovery completion for exactly this acknowledgement. */
  predicate Decisive(ack: Ack, d: Delivery) {
    || d.Lost?
    || (d.event.LifecycleEvent? && d.event.lifecycle.RecoveryCompleted? && d.event.lifecycle.ack == ack)
  }

  /** Resolution is decided by the first decisive delivery and by nothing else on the bus. */
  lemma {:induction false} FirstDecisiveResolves(ack: Ack, inbox: seq<Delivery>, i: nat)
    requires i < |inbox| && Decisive(ack, inbox[i])
    requires forall j :: 0 <= j < i ==> !Decisive(ack, inbox[j])
    ensures Resolve(ack, inbox).0
         == (if inbox[i].Lost? then ReceiveError
             else Value(ReceiptAfterRecovery(ack.receipt, inbox[i].event.lifecycle.report)))
  {
    if i > 0 {
      assert forall j :: 0 <= j < i - 1 ==> inbox[1..][j] == inbox[j + 1];
      assert inbox[1..][i - 1] == inbox[i];
      FirstDecisiveResolves(ack, inbox[1..], i - 1);
      SkipIndecisive(ack, inbox);
    }
  }

  lemma SkipIndecisive(ack: Ack, inbox: seq<Delivery>)
    requires inbox != [] && !Decisive(ack, inbox[0])
    ensures Resolve(ack, inbox).0 == Resolve(ack, inbox[1..]).0
  {
  }

  /** Until one arrives the command stays unresolved. */
  lemma {:induction false} IndecisiveKeepsWaiting(ack: Ack, inbox: seq<Delivery>)
    requires forall j :: 0 <= j < |inbox| ==> !Decisive(ack, inbox[j])
    ensures Resolve(ack, inbox).0 == StillWaiting
  {
    if inbox != [] {
      IndecisiveKeepsWaiting(ack, inbox[1..]);
      SkipIndecisive(ack, inbox);
    }
  }

  /** Hence an unknown command becomes `Accepted` exactly when the first decisive delivery is a
      synchronized recovery of this very acknowledgement. */
  lemma AcceptedOnlyBySynchronizedRecovery(ack: Ack, inbox: seq<Delivery>)
    ensures Resolve(ack, inbox).0.Value? && Resolve(ack, inbox).0.value.status.Accepted?
       <==> exists i :: 0 <= i < |inbox| && Decisive(ack, inbox[i])
                     && (forall j :: 0 <= j < i ==> !Decisive(ack, inbox[j]))
                     && !inbox[i].Lost? && inbox[i].event.lifecycle.report.outcome.Synchronized?
  {
    if exists i :: 0 <= i < |inbox| && Decisive(ack, inbox[i]) {
      var k :| 0 <= k < |inbox| && Decisive(ack, inbox[k]);
      var i := FirstDecisive(ack, inbox, k);
      FirstDecisiveResolves(ack, inbox, i);
    } else {
      IndecisiveKeepsWaiting(ack, inbox);
    }
  }

  lemma {:induction false} FirstDecisive(ack: Ack, inbox: seq<Delivery>, k: nat) returns (i: nat)
    requires k < |inbox| && Decisive(ack, inbox[k])
    ensures i <= k && Decisive(ack, inbox[i]) && forall j :: 0 <= j < i ==> !Decisive(ack, inbox[j])
  {
    if j :| 0 <= j < k && Decisive(ack, inbox[j]) {
      i := FirstDecisive(ack, inbox, j);
    } else {
      i := k;
    }
  }

  /** No recovery completion resolves two commands with different acknowledgements. */
  lemma CompletionResolvesOneCommand(a: Ack, b: Ack, d: Delivery)
    requires Decisive(a, d) && Decisive(b, d) && !d.Lost?
    ensures a == b
  {
  }

  /** Recovery changes only status, retriability and message: the command keeps its identity, and
      so keeps matching the same receipts. */
  lemma RecoveryKeepsIdentity(receipt: Receipt, report: Report, other: Receipt)
    ensures var r := ReceiptAfterRecovery(receipt, report);
            && r.(status := receipt.status, retriable := receipt.retriable, message := receipt.message) == receipt
            && (MatchesReceipt(r, other) <==> MatchesReceipt(receipt, other))
            && (r.status.Accepted? <==> report.outcome.Synchronized?) && !r.status.Rejected?
            && (r.retriable <==> !r.status.Accepted?)
            && r.message.Some? && (report.note.Some? ==> r.message == report.note)
  {
  }

  /** Matching is symmetric, and a receipt matches itself exactly when it carries an identity. */
  lemma MatchingIsByIdentity(a: Receipt, b: Receipt)
    ensures MatchesReceipt(a, b) <==> MatchesReceipt(b, a)
    ensures MatchesReceipt(a, a) <==> a.orderId.Some? || a.clientOrderId.Some? || a.requestId.Some?
  {
  }

  /** The identities of a command, the strongest first. */
  function Identity(r: Receipt, k: nat): Option<string> {
    if k == 0 then r.orderId else if k == 1 then r.clientOrderId else if k == 2 then r.requestId else None
  }

  /** Identity `k` is the strongest one that both carry, and it is the same. */
  ghost predicate SameStrongest(a: Receipt, b: Receipt, k: nat) {
    && Identity(a, k).Some? && Identity(a, k) == Identity(b, k)
    && forall j: nat :: j < k ==> Identity(a, j).None? || Identity(b, j).None?
  }

  /** Receipts match exactly when the operations are equal and so is the strongest identity that both
      carry. */
  lemma MatchesByStrongestIdentity(a: Receipt, b: Receipt)
    ensures MatchesReceipt(a, b) <==> a.operation == b.operation && exists k :: SameStrongest(a, b, k)
  {
    if MatchesReceipt(a, b) {
      var k := if a.orderId.Some? && b.orderId.Some? then 0
               else if a.clientOrderId.Some? && b.clientOrderId.Some? then 1
               else 2;
      assert SameStrongest(a, b, k);
    }
    if k: nat :| SameStrongest(a, b, k) {
      assert k > 0 ==> Identity(a, 0).None? || Identity(b, 0).None?;
      assert k > 1 ==> Identity(a, 1).None? || Identity(b, 1).None?;
    }
  }

  /** A delivery that ends the wait for a receipt. */
  predicate BringsReceipt(ack: Ack, d: Delivery) {
    d.Lost? || (d.event.ReceiptEvent? && MatchesReceipt(ack.receipt, d.event.receipt))
  }

  /** The receipt returned is the first on the bus that matches, unless an error comes before it; what
      follows it stays on the bus. */
  lemma {:induction false} FirstReceiptIsReturned(ack: Ack, inbox: seq<Delivery>, i: nat)
    requires i < |inbox| && BringsReceipt(ack, inbox[i])
    requires forall j :: 0 <= j < i ==> !BringsReceipt(ack, inbox[j])
    ensures NextReceipt(ack, inbox)
         == (if inbox[i].Lost? then ReceiveError else Value(inbox[i].event.receipt), inbox[i + 1..])
  {
    if i > 0 {
      assert !BringsReceipt(ack, inbox[0]);
      assert forall j :: 0 <= j < i - 1 ==> inbox[1..][j] == inbox[j + 1];
      FirstReceiptIsReturned(ack, inbox[1..], i - 1);
      assert inbox[1..][i..] == inbox[i + 1..];
    }
  }

  /** A delivery that ends the wait for a lifecycle event: of this very acknowledgement, or a receipt
      that matches its own. */
  predicate BringsLifecycle(ack: Ack, d: Delivery) {
    || d.Lost?
    || (d.event.LifecycleEvent?
        && var l := d.event.lifecycle;
           if l.ReceiptSeen? then MatchesReceipt(ack.receipt, l.receipt) else l.ack == ack)
  }

  lemma {:induction false} FirstLifecycleIsReturned(ack: Ack, inbox: seq<Delivery>, i: nat)
    requires i < |inbox| && BringsLifecycle(ack, inbox[i])
    requires forall j :: 0 <= j < i ==> !BringsLifecycle(ack, inbox[j])
    ensures NextLifecycle(ack, inbox)
         == (if inbox[i].Lost? then ReceiveError else Value(inbox[i].event.lifecycle), inbox[i + 1..])
  {
    if i > 0 {
      assert !BringsLifecycle(ack, inbox[0]);
      assert forall j :: 0 <= j < i - 1 ==> inbox[1..][j] == inbox[j + 1];
      FirstLifecycleIsReturned(ack, inbox[1..], i - 1);
      assert inbox[1..][i..] == inbox[i + 1..];
    }
  }
}
