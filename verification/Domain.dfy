/** Statuses, request inputs and errors of the order service, and the rules that
    guard status changes. */
module Domain {
  datatype Option<+T> = None | Some(value: T)

  datatype Error =
    | NotFound
    | Validation
    | SapSyncFailed(message: string)
    | OrderNumberRequired
    | StatusRequired
    | ItemFieldsRequired
    | InvalidDeliveryDate
    | SyncNotCancellable
    | OrderClosed
    | InvalidStatusTransition
    | InvalidOrderStatus
    | ItemStatusImmutable
    | ItemNotSyncable
    | SyncAlreadyActive
    | DeliveryDateInPast
    | Database  // a statement, a constraint or a commit failed

  datatype Result<+T> = Ok(value: T) | Err(error: Error) {
    predicate IsFailure() {
      Err?
    }

    function PropagateFailure<U>(): Result<U>
      requires Err?
    {
      Err(error)
    }

    function Extract(): T
      requires Ok?
    {
      value
    }
  }

  /** Order statuses arrive as free text, so an unknown one is a value too. */
  datatype OrderStatus = Open | InProgress | Closed | Unknown(text: string)

  datatype ItemStatus = Pending | Updated | Synced | Failed

  datatype SyncStatus = Success | Failed

  datatype OutboxStatus = Pending | Processing | Completed | Failed | Cancelled

  /** A delivery date as it comes in a request body; days are numbered. */
  datatype DateText = Blank | Malformed | Day(day: int)

  /** The attempt budget every enqueued sync gets. */
  const MAX_ATTEMPTS: nat := 3

  datatype Order = Order(number: string, status: OrderStatus, createdBy: string)

  datatype Item = Item(orderId: nat, demandCode: string, description: string, deliveryDate: int, status: ItemStatus)

  /** The fields of the demand update document that is sent to SAP. */
  datatype Payload = Payload(orderNumber: string, demandCode: string, description: string, deliveryDate: int,
                             status: ItemStatus)

  /** What a call hands to SAP: the function to run and the document. */
  datatype Document = Document(rfc: string, payload: Payload)

  datatype Entry = Entry(itemId: nat, orderNumber: string, rfc: string, payload: Payload, status: OutboxStatus,
                         attempts: nat, maxAttempts: nat, error: Option<string>, processedAt: Option<int>)

  datatype Log = Log(itemId: nat, rfc: string, request: Payload, response: Option<string>, status: SyncStatus,
                     error: Option<string>)

  /** What a call to SAP comes back with. When the reply is lost nobody learns whether SAP had
      `applied` the update; no code reads that flag. */
  datatype Answer = TransportError(text: string, applied: bool) | Reply(success: bool, response: string, text: string)

  /** SAP reported success and the worker heard of it. */
  predicate Accepted(a: Answer) {
    a.Reply? && a.success
  }

  /** SAP took the update over, whether or not the worker heard of it. */
  predicate Applied(a: Answer) {
    if a.TransportError? then a.applied else a.success
  }

  predicate IsValid(s: OrderStatus) {
    !s.Unknown?
  }

  predicate Terminal(s: ItemStatus) {
    s.Synced? || s.Failed?
  }

  predicate AllTerminal(items: seq<Item>) {
    items != [] && forall i :: 0 <= i < |items| ==> Terminal(items[i].status)
  }

  /** The early-return loop over an order's items. */
  method AllItemsTerminal(items: seq<Item>) returns (all: bool)
    ensures all <==> AllTerminal(items)
  {
    if |items| == 0 {
      return false;
    }
    for i := 0 to |items|
      invariant forall k :: 0 <= k < i ==> Terminal(items[k].status)
    {
      if items[i].status != ItemStatus.Synced && items[i].status != ItemStatus.Failed {
        return false;
      }
    }
    return true;
  }

  /** None when the order may move from `s` to `next`, else why it may not. */
  function CanTransitionTo(s: OrderStatus, next: OrderStatus, items: seq<Item>): (e: Option<Error>) {
    if !IsValid(next) then Some(InvalidOrderStatus)
    else if s == next then None
    else if s.Closed? then Some(OrderClosed)
    else if s.Open? && next.InProgress? && |items| > 0 then None
    else if s.InProgress? && next.Closed? && AllTerminal(items) then None
    else Some(InvalidStatusTransition)
  }

  predicate CanSync(s: ItemStatus) {
    s.Updated? || s.Failed?
  }

  predicate ShouldPromoteOnEdit(s: ItemStatus) {
    s.Pending? || s.Synced? || s.Failed?
  }

  predicate IsDeliveryDateInPast(day: int, today: int) {
    day < today
  }

  /** Position of a status in the order lifecycle. */
  function Rank(s: OrderStatus): nat {
    match s
    case Open => 0
    case InProgress => 1
    case Closed => 2
    case Unknown(_) => 3
  }

  predicate Active(e: Entry) {
    e.status.Pending? || e.status.Processing?
  }

  predicate Finished(e: Entry) {
    !Active(e)
  }

  /** A row the claim query looks for. */
  predicate Eligible(e: Entry) {
    e.status.Pending? && e.attempts < e.maxAttempts
  }

  /** Attempts of this row whose outcome has been recorded. */
  function ClosedAttempts(e: Entry): int {
    e.attempts - if e.status.Processing? then 1 else 0
  }

  /** What a transition asks of order and items, and why it is refused. From a valid status it
      never goes down, and a closed order stays closed. */
  lemma TransitionRules(s: OrderStatus, next: OrderStatus, items: seq<Item>)
    ensures var e := CanTransitionTo(s, next, items);
            && (e.None? <==> !next.Unknown?
                             && (next == s
                                 || (s.Open? && next.InProgress? && items != [])
                                 || (s.InProgress? && next.Closed? && items != []
                                     && forall k :: 0 <= k < |items| ==>
                                                      items[k].status.Synced? || items[k].status.Failed?)))
            && (e == Some(InvalidOrderStatus) <==> next.Unknown?)
            && (e == Some(OrderClosed) <==> s.Closed? && (next.Open? || next.InProgress?))
            && (e.Some? ==> e.value in {InvalidOrderStatus, OrderClosed, InvalidStatusTransition})
            && (e.None? && !s.Unknown? ==> Rank(s) <= Rank(next) <= 2)
            && (e.None? && s.Closed? ==> next.Closed?)
  {
    match s
    case Open =>
    case InProgress =>
    case Closed =>
    case Unknown(_) =>
  }
}
