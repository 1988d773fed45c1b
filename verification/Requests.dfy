/** The four tables and what each request or transaction does to them when every statement
    succeeds, as functions of the tables it starts from. */
module Requests {
  import opened Domain

  /** Rows are never deleted, so a row's id is its position; positions follow creation time. */
  datatype Tables = Tables(orders: seq<Order>, items: seq<Item>, outbox: seq<Entry>, logs: seq<Log>)

  /** What an enqueue request has read before it opens its transaction. */
  datatype Ticket = Ticket(itemId: nat, orderNumber: string, item: Item)

  const CANCEL_MESSAGE := "cancelled by user"

  // ---- reads

  /** The rows of `items` that belong to order `o`. */
  function ItemsOf(items: seq<Item>, o: nat): (mine: seq<Item>)
    ensures mine == [] <==> forall i :: 0 <= i < |items| ==> items[i].orderId != o
    ensures forall k :: 0 <= k < |mine| ==> mine[k].orderId == o && mine[k] in items
    ensures forall i :: 0 <= i < |items| && items[i].orderId == o ==> items[i] in mine
  {
    if items == [] then []
    else
      var last := |items| - 1;
      var rest := ItemsOf(items[..last], o);
      if items[last].orderId == o then rest + [items[last]] else rest
  }

  predicate HasItem(t: Tables, o: nat, i: nat) {
    i < |t.items| && t.items[i].orderId == o
  }

  predicate HasActive(rows: seq<Entry>, item: nat) {
    exists e :: 0 <= e < |rows| && rows[e].itemId == item && Active(rows[e])
  }

  /** The newest row of an item: ORDER BY created_at DESC LIMIT 1. */
  function LatestEntry(rows: seq<Entry>, item: nat): (e: Option<nat>)
    ensures e.None? <==> forall k :: 0 <= k < |rows| ==> rows[k].itemId != item
    ensures e.Some? ==> e.value < |rows| && rows[e.value].itemId == item
                        && forall k :: e.value < k < |rows| ==> rows[k].itemId != item
  {
    if rows == [] then None
    else if rows[|rows| - 1].itemId == item then Some(|rows| - 1)
    else LatestEntry(rows[..|rows| - 1], item)
  }

  /** An item's sync logs, newest first. */
  function LogsNewestFirst(logs: seq<Log>, item: nat): (mine: seq<Log>)
    ensures forall k :: 0 <= k < |mine| ==> mine[k].itemId == item && mine[k] in logs
  {
    if logs == [] then []
    else
      var last := |logs| - 1;
      var rest := LogsNewestFirst(logs[..last], item);
      if logs[last].itemId == item then [logs[last]] + rest else rest
  }

  function BuildPayload(orderNumber: string, item: Item): Payload {
    Payload(orderNumber, item.demandCode, item.description, item.deliveryDate, item.status)
  }

  /** A status response: the row and, once it is closed, the item's newest log. */
  datatype SyncView = SyncView(id: nat, row: Entry, latestLog: Option<Log>)

  function ViewWith(id: nat, row: Entry, logs: seq<Log>): SyncView {
    var mine := LogsNewestFirst(logs, row.itemId);
    SyncView(id, row, if (row.status.Completed? || row.status.Failed?) && |mine| > 0 then Some(mine[0]) else None)
  }

  /** Rows come from `rows` and logs from `logs`, which are two separate reads. */
  function BuildView(rows: seq<Entry>, logs: seq<Log>, id: nat): SyncView
    requires id < |rows|
  {
    ViewWith(id, rows[id], logs)
  }

  function LatestOf(rows: seq<Entry>, logs: seq<Log>, i: nat): Result<SyncView> {
    match LatestEntry(rows, i)
    case None => Err(NotFound)
    case Some(id) => Ok(BuildView(rows, logs, id))
  }

  function RowOf(rows: seq<Entry>, logs: seq<Log>, i: nat, id: nat): Result<SyncView> {
    if id < |rows| && rows[id].itemId == i then Ok(BuildView(rows, logs, id)) else Err(NotFound)
  }

  function LatestView(t: Tables, o: nat, i: nat): Result<SyncView> {
    if HasItem(t, o, i) then LatestOf(t.outbox, t.logs, i) else Err(NotFound)
  }

  function ViewOf(t: Tables, o: nat, i: nat, id: nat): Result<SyncView> {
    if HasItem(t, o, i) then RowOf(t.outbox, t.logs, i, id) else Err(NotFound)
  }

  // ---- writes of one statement

  function WithItemStatus(t: Tables, i: nat, status: ItemStatus): Result<Tables> {
    if i < |t.items| then Ok(t.(items := t.items[i := t.items[i].(status := status)])) else Err(NotFound)
  }

  function WithOrderStatus(t: Tables, o: nat, status: OrderStatus): Result<Tables> {
    if o < |t.orders| then Ok(t.(orders := t.orders[o := t.orders[o].(status := status)])) else Err(NotFound)
  }

  predicate DemandTaken(items: seq<Item>, o: nat, code: string) {
    exists i :: 0 <= i < |items| && items[i].orderId == o && items[i].demandCode == code
  }

  predicate NumberTaken(orders: seq<Order>, number: string) {
    exists o :: 0 <= o < |orders| && orders[o].number == number
  }

  function WithItem(t: Tables, o: nat, code: string, description: string, day: int): Result<Tables> {
    if o < |t.orders| && !DemandTaken(t.items, o, code) then
      Ok(t.(items := t.items + [Item(o, code, description, day, ItemStatus.Pending)]))
    else Err(Database)
  }

  function WithOrder(t: Tables, number: string, createdBy: string): Result<Tables> {
    if NumberTaken(t.orders, number) then Err(Database)
    else Ok(t.(orders := t.orders + [Order(number, Open, createdBy)]))
  }

  function WithEntry(t: Tables, itemId: nat, orderNumber: string, rfc: string, payload: Payload): Result<Tables> {
    if itemId < |t.items| then
      Ok(t.(outbox := t.outbox + [Entry(itemId, orderNumber, rfc, payload, OutboxStatus.Pending, 0, MAX_ATTEMPTS,
                                        None, None)]))
    else Err(Database)
  }

  function WithLog(t: Tables, log: Log): Result<Tables> {
    if log.itemId < |t.items| then Ok(t.(logs := t.logs + [log])) else Err(Database)
  }

  function CompletedRow(row: Entry, now: int): Entry {
    row.(status := OutboxStatus.Completed, processedAt := Some(now), error := None)
  }

  /** The two closing updates select by id alone. */
  function WithCompleted(t: Tables, id: nat, now: int): Tables {
    if id < |t.outbox| then t.(outbox := t.outbox[id := CompletedRow(t.outbox[id], now)]) else t
  }

  function FailedRow(row: Entry, message: string, retry: bool, now: int): Entry {
    row.(status := if retry then OutboxStatus.Pending else OutboxStatus.Failed,
    error := Some(message),
    processedAt := if retry then None else Some(now))
  }

  function WithFailed(t: Tables, id: nat, message: string, retry: bool, now: int): Tables {
    if id < |t.outbox| then t.(outbox := t.outbox[id := FailedRow(t.outbox[id], message, retry, now)]) else t
  }

  function CancelledRow(row: Entry, now: int): Entry {
    row.(status := OutboxStatus.Cancelled, processedAt := Some(now), error := Some(CANCEL_MESSAGE))
  }

  predicate Cancellable(t: Tables, itemId: nat, id: nat) {
    id < |t.outbox| && t.outbox[id].itemId == itemId && t.outbox[id].status.Pending?
  }

  /** What a second read answers after the cancel update has matched no row. A row that is PENDING
      by then counts as not found. */
  function CancelReason(t: Tables, itemId: nat, id: nat): Error {
    if id < |t.outbox| && t.outbox[id].itemId == itemId && !t.outbox[id].status.Pending? then SyncNotCancellable
    else NotFound
  }

  /** The guarded cancel update, with the reason when it matches no row. */
  function WithCancelled(t: Tables, itemId: nat, id: nat, now: int): Result<Tables> {
    if Cancellable(t, itemId, id) then Ok(t.(outbox := t.outbox[id := CancelledRow(t.outbox[id], now)]))
    else Err(CancelReason(t, itemId, id))
  }

  // ---- requests

  function CreateOrderTx(t: Tables, number: string, createdBy: string): Result<Tables> {
    if number == "" then Err(OrderNumberRequired) else WithOrder(t, number, createdBy)
  }

  function SetStatusTx(t: Tables, o: nat, next: Option<OrderStatus>): Result<Tables> {
    if next.None? then Err(StatusRequired)
    else if !IsValid(next.value) then Err(InvalidOrderStatus)
    else if o >= |t.orders| then Err(NotFound)
    else
      match CanTransitionTo(t.orders[o].status, next.value, ItemsOf(t.items, o))
      case Some(e) => Err(e)
      case None => WithOrderStatus(t, o, next.value)
  }

  /** The day an item is to be added for, once every check has passed. */
  function CheckAddItem(t: Tables, o: nat, code: string, description: string, date: DateText, today: int): Result<int> {
    if code == "" || description == "" || date.Blank? then Err(ItemFieldsRequired)
    else if o >= |t.orders| then Err(NotFound)
    else if t.orders[o].status.Closed? then Err(OrderClosed)
    else if date.Malformed? then Err(InvalidDeliveryDate)
    else if IsDeliveryDateInPast(date.day, today) then Err(DeliveryDateInPast)
    else Ok(date.day)
  }

  /** Adding an item is two separate writes; `promoted` tells whether the second one, which
      moves an open order on, took place. */
  function AddItemTx(t: Tables, o: nat, code: string, description: string, date: DateText, today: int,
                     promoted: bool): Result<Tables> {
    match CheckAddItem(t, o, code, description, date, today)
    case Err(e) => Err(e)
    case Ok(day) =>
      match WithItem(t, o, code, description, day)
      case Err(e) => Err(e)
      case Ok(added) =>
        if promoted && t.orders[o].status.Open? then WithOrderStatus(added, o, InProgress) else Ok(added)
  }

  function EditedItem(item: Item, description: Option<string>, day: Option<int>): Item {
    item.(description := if description.Some? then description.value else item.description,
    deliveryDate := if day.Some? then day.value else item.deliveryDate,
    status := if ShouldPromoteOnEdit(item.status) then ItemStatus.Updated else item.status)
  }

  function EditItemTx(t: Tables, o: nat, i: nat, description: Option<string>, date: Option<DateText>,
                      status: Option<ItemStatus>, today: int): Result<Tables> {
    if status.Some? then Err(ItemStatusImmutable)
    else if description.None? && date.None? then Err(Validation)
    else if o >= |t.orders| then Err(NotFound)
    else if t.orders[o].status.Closed? then Err(OrderClosed)
    else if !HasItem(t, o, i) then Err(NotFound)
    else if date.Some? && !date.value.Day? then Err(InvalidDeliveryDate)
    else if date.Some? && IsDeliveryDateInPast(date.value.day, today) then Err(DeliveryDateInPast)
    else
      var day := if date.Some? then Some(date.value.day) else None;
      Ok(t.(items := t.items[i := EditedItem(t.items[i], description, day)]))
  }

  /** Why a status change is refused: the order is read from `t`, its items from `first`. */
  function CheckStatus(t: Tables, first: Tables, o: nat, next: Option<OrderStatus>): Option<Error> {
    if next.None? then Some(StatusRequired)
    else if !IsValid(next.value) then Some(InvalidOrderStatus)
    else if o >= |t.orders| then Some(NotFound)
    else CanTransitionTo(t.orders[o].status, next.value, ItemsOf(first.items, o))
  }

  /** Why an edit is refused: the order is read from `t`, the item from `first`. */
  function CheckEdit(t: Tables, first: Tables, o: nat, i: nat, description: Option<string>, date: Option<DateText>,
                     status: Option<ItemStatus>, today: int): Option<Error> {
    if status.Some? then Some(ItemStatusImmutable)
    else if description.None? && date.None? then Some(Validation)
    else if o >= |t.orders| then Some(NotFound)
    else if t.orders[o].status.Closed? then Some(OrderClosed)
    else if !HasItem(first, o, i) then Some(NotFound)
    else if date.Some? && !date.value.Day? then Some(InvalidDeliveryDate)
    else if date.Some? && IsDeliveryDateInPast(date.value.day, today) then Some(DeliveryDateInPast)
    else None
  }

  function DayOf(date: Option<DateText>): Option<int> {
    if date.Some? && date.value.Day? then Some(date.value.day) else None
  }

  /** `row` with the given fields, and with status UPDATED if `item`, an earlier read of the row,
      was to be promoted. */
  function EditedRow(row: Item, item: Item, description: Option<string>, day: Option<int>): Item {
    row.(description := if description.Some? then description.value else row.description,
    deliveryDate := if day.Some? then day.value else row.deliveryDate,
    status := if ShouldPromoteOnEdit(item.status) then ItemStatus.Updated else row.status)
  }

  /** The writes of an added item, for an order that was read with status `read`. */
  function AddWritten(t: Tables, o: nat, read: OrderStatus, code: string, description: string, day: int,
                      promoted: bool): Result<Tables> {
    match WithItem(t, o, code, description, day)
    case Err(e) => Err(e)
    case Ok(added) => if promoted && read.Open? then WithOrderStatus(added, o, InProgress) else Ok(added)
  }

  /** The write of an edit: the columns of the edited item that was read go over the stored row,
      which the statement has to find. */
  function EditWritten(t: Tables, o: nat, i: nat, edited: Item): Result<Tables> {
    if HasItem(t, o, i) then
      Ok(t.(items := t.items[i := t.items[i].(description := edited.description, deliveryDate := edited.deliveryDate,
                                              status := edited.status)]))
    else Err(Database)
  }

  /** The reads an enqueue makes before its transaction. */
  function CheckEnqueue(t: Tables, o: nat, i: nat, today: int): Result<Ticket> {
    if o >= |t.orders| then Err(NotFound)
    else if t.orders[o].status.Closed? then Err(OrderClosed)
    else if !HasItem(t, o, i) then Err(NotFound)
    else if !CanSync(t.items[i].status) then Err(ItemNotSyncable)
    else if IsDeliveryDateInPast(t.items[i].deliveryDate, today) then Err(DeliveryDateInPast)
    else if HasActive(t.outbox, i) then Err(SyncAlreadyActive)
    else Ok(Ticket(i, t.orders[o].number, t.items[i]))
  }

  /** The same reads when others act in between: the order is read from `t`, the item from
      `first`, and rows are looked for in `second`. */
  function CheckInReads(t: Tables, first: Tables, second: Tables, o: nat, i: nat, today: int): Result<Ticket> {
    if o >= |t.orders| then Err(NotFound)
    else if t.orders[o].status.Closed? then Err(OrderClosed)
    else if !HasItem(first, o, i) then Err(NotFound)
    else if !CanSync(first.items[i].status) then Err(ItemNotSyncable)
    else if IsDeliveryDateInPast(first.items[i].deliveryDate, today) then Err(DeliveryDateInPast)
    else if HasActive(second.outbox, i) then Err(SyncAlreadyActive)
    else Ok(Ticket(i, t.orders[o].number, first.items[i]))
  }

  /** The enqueue transaction, run on what the ticket remembers. */
  function InsertTx(t: Tables, k: Ticket, rfc: string): Result<Tables> {
    var reset := if k.item.status.Failed? then WithItemStatus(t, k.itemId, ItemStatus.Updated) else Ok(t);
    match reset
    case Err(e) => Err(e)
    case Ok(u) => WithEntry(u, k.itemId, k.orderNumber, rfc, BuildPayload(k.orderNumber, k.item))
  }

  function CancelTx(t: Tables, o: nat, i: nat, id: nat, now: int): Result<Tables> {
    if !HasItem(t, o, i) then Err(NotFound)
    else
      match WithCancelled(t, i, id, now)
      case Err(e) => Err(e)
      case Ok(u) => WithItemStatus(u, i, ItemStatus.Updated)
  }

  /** The audit record of one answered call for a claimed row. */
  function LogFor(row: Entry, a: Answer): Log {
    match a
    case TransportError(text, _) => Log(row.itemId, row.rfc, row.payload, None, SyncStatus.Failed, Some(text))
    case Reply(success, response, text) =>
      Log(row.itemId, row.rfc, row.payload, Some(response),
          if success then SyncStatus.Success else SyncStatus.Failed,
          if success || text == "" then None else Some(text))
  }

  predicate Retries(row: Entry) {
    row.attempts < row.maxAttempts
  }

  function ItemStatusAfter(row: Entry, a: Answer): ItemStatus {
    if Accepted(a) then ItemStatus.Synced
    else if a.TransportError? && Retries(row) then ItemStatus.Updated
    else ItemStatus.Failed
  }

  function MarkedRow(stored: Entry, snapshot: Entry, a: Answer, now: int): Entry {
    if Accepted(a) then CompletedRow(stored, now) else FailedRow(stored, a.text, Retries(snapshot), now)
  }

  /** The transaction that closes an attempt. Everything it decides comes from the claimed
      snapshot, and the outbox row is found by id alone. */
  function CloseTx(t: Tables, id: nat, snapshot: Entry, a: Answer, now: int): Result<Tables> {
    match WithLog(t, LogFor(snapshot, a))
    case Err(e) => Err(e)
    case Ok(u) =>
      match WithItemStatus(u, snapshot.itemId, ItemStatusAfter(snapshot, a))
      case Err(e) => Err(e)
      case Ok(v) =>
        Ok(if Accepted(a) then WithCompleted(v, id, now) else WithFailed(v, id, a.text, Retries(snapshot), now))
  }
}
