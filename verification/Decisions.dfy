/** What each request's checks let through and why they refuse, what its writes leave behind and
    what a status query answers, said of the rows it reads. */
module Decisions {
  import opened Domain
  import opened Requests
  import opened Listings

  // ---- orders

  /** An order is created unless its number is empty or taken. It is OPEN and comes last, with
      nothing else changed. */
  lemma OrderCreated(t: Tables, number: string, createdBy: string)
    ensures var r := CreateOrderTx(t, number, createdBy);
            && (r.Ok? <==> number != "" && forall p :: 0 <= p < |t.orders| ==> t.orders[p].number != number)
            && (r.Err? ==> r.error == if number == "" then OrderNumberRequired else Error.Database)
            && (r.Ok? ==>
                  && |r.value.orders| == |t.orders| + 1 && r.value.orders[..|t.orders|] == t.orders
                  && var order := r.value.orders[|t.orders|];
                  && order.number == number && order.status.Open? && order.createdBy == createdBy
                  && r.value.items == t.items && r.value.outbox == t.outbox && r.value.logs == t.logs)
  {}

  lemma NoneOf(items: seq<Item>, o: nat)
    ensures ItemsOf(items, o) != [] <==> exists i :: 0 <= i < |items| && items[i].orderId == o
    ensures (forall k :: 0 <= k < |ItemsOf(items, o)| ==> Terminal(ItemsOf(items, o)[k].status))
            <==> (forall i :: 0 <= i < |items| && items[i].orderId == o ==> Terminal(items[i].status))
  {
    var mine := ItemsOf(items, o);
    if forall k :: 0 <= k < |mine| ==> Terminal(mine[k].status) {
      forall i | 0 <= i < |items| && items[i].orderId == o ensures Terminal(items[i].status) {
        assert items[i] in mine;
      }
    }
  }

  /** A status change is let through exactly for the order's own status, from OPEN to IN_PROGRESS
      when the order has an item, and from IN_PROGRESS to CLOSED when it has one and every one is
      SYNCED or FAILED. Orders are looked at in `t` and items in `first`. */
  lemma StatusAllowedIff(t: Tables, first: Tables, o: nat, next: Option<OrderStatus>)
    ensures var e := CheckStatus(t, first, o, next);
            var valid := next.Some? && !next.value.Unknown?;
            var some := exists i :: 0 <= i < |first.items| && first.items[i].orderId == o;
            var settled := forall i :: 0 <= i < |first.items| && first.items[i].orderId == o ==>
                                         first.items[i].status.Synced? || first.items[i].status.Failed?;
            && (e.None? <==> valid && o < |t.orders|
                             && var s := t.orders[o].status;
                             || next.value == s
                             || (s.Open? && next.value.InProgress? && some)
                             || (s.InProgress? && next.value.Closed? && some && settled))
            && (e == Some(StatusRequired) <==> next.None?)
            && (e == Some(InvalidOrderStatus) <==> next.Some? && next.value.Unknown?)
            && (e == Some(NotFound) <==> valid && o >= |t.orders|)
            && (e == Some(OrderClosed) <==>
                  valid && o < |t.orders| && t.orders[o].status.Closed? && !next.value.Closed?)
            && (e.Some? ==>
                  e.value in {StatusRequired, InvalidOrderStatus, NotFound, OrderClosed, InvalidStatusTransition})
  {
    NoneOf(first.items, o);
    if o < |t.orders| && next.Some? {
      TransitionRules(t.orders[o].status, next.value, ItemsOf(first.items, o));
    }
  }

  /** The write of a status finds its order or fails, and changes that order's status alone. */
  lemma StatusWritten(t: Tables, o: nat, status: OrderStatus)
    ensures var r := WithOrderStatus(t, o, status);
            && (r.Ok? <==> o < |t.orders|)
            && (r.Err? ==> r.error == NotFound)
            && (r.Ok? ==>
                  && |r.value.orders| == |t.orders| && r.value.orders[o].status == status
                  && r.value.orders[o].number == t.orders[o].number
                  && r.value.orders[o].createdBy == t.orders[o].createdBy
                  && (forall p :: 0 <= p < |t.orders| && p != o ==> r.value.orders[p] == t.orders[p])
                  && r.value.items == t.items && r.value.outbox == t.outbox && r.value.logs == t.logs)
  {}

  /** With nobody else acting a status change is the check and then the write. */
  lemma StatusAsOneStep(t: Tables, o: nat, next: Option<OrderStatus>)
    ensures match CheckStatus(t, t, o, next)
            case Some(e) => SetStatusTx(t, o, next) == Err(e)
            case None => next.Some? && SetStatusTx(t, o, next) == WithOrderStatus(t, o, next.value)
  {}

  // ---- items

  /** An item may be added exactly when its fields are there, the order exists and is not CLOSED,
      and the date is a day that is not past; an earlier reason hides a later one. */
  lemma AddAllowedIff(t: Tables, o: nat, code: string, description: string, date: DateText, today: int)
    ensures var r := CheckAddItem(t, o, code, description, date, today);
            var given := code != "" && description != "" && !date.Blank?;
            var open := o < |t.orders| && !t.orders[o].status.Closed?;
            && (r.Ok? <==> given && open && date.Day? && date.day >= today)
            && (r.Ok? ==> date == Day(r.value))
            && (r == Err(ItemFieldsRequired) <==> !given)
            && (r == Err(NotFound) <==> given && o >= |t.orders|)
            && (r == Err(OrderClosed) <==> given && o < |t.orders| && t.orders[o].status.Closed?)
            && (r == Err(InvalidDeliveryDate) <==> given && open && date.Malformed?)
            && (r == Err(DeliveryDateInPast) <==> given && open && date.Day? && date.day < today)
            && (r.Err? ==>
                  r.error in {ItemFieldsRequired, NotFound, OrderClosed, InvalidDeliveryDate, DeliveryDateInPast})
  {}

  /** An item is inserted exactly when its order exists and has no item with that demand code. It
      is PENDING and comes last, with nothing else changed. */
  lemma ItemInserted(t: Tables, o: nat, code: string, description: string, day: int)
    ensures var r := WithItem(t, o, code, description, day);
            && (r.Ok? <==>
                  && o < |t.orders|
                  && forall i :: 0 <= i < |t.items| && t.items[i].orderId == o ==> t.items[i].demandCode != code)
            && (r.Err? ==> r.error == Error.Database)
            && (r.Ok? ==>
                  && |r.value.items| == |t.items| + 1 && r.value.items[..|t.items|] == t.items
                  && var item := r.value.items[|t.items|];
                  && item.orderId == o && item.demandCode == code && item.description == description
                  && item.deliveryDate == day && item.status.Pending?
                  && r.value.orders == t.orders && r.value.outbox == t.outbox && r.value.logs == t.logs)
  {}

  /** With nobody else acting, adding an item is the check, the insert and, for an order that was
      OPEN, the promotion unless that write is the one that fails. */
  lemma AddAsOneStep(t: Tables, o: nat, code: string, description: string, date: DateText, today: int, promoted: bool)
    ensures var r := AddItemTx(t, o, code, description, date, today, promoted);
            match CheckAddItem(t, o, code, description, date, today)
            case Err(e) => r == Err(e)
            case Ok(day) =>
              var added := WithItem(t, o, code, description, day);
              && (r.Ok? <==> added.Ok?)
              && (r.Err? ==> r == added)
              && (r.Ok? && !(promoted && t.orders[o].status.Open?) ==> r == added)
              && (r.Ok? && promoted && t.orders[o].status.Open? ==>
                    r == WithOrderStatus(added.value, o, InProgress))
  {}

  /** An edit is let through exactly when it names no status and something else, the order exists
      and is not CLOSED, the item is the order's, and a given date is a day that is not past. The
      order is looked at in `t` and the item in `first`. */
  lemma EditAllowedIff(t: Tables, first: Tables, o: nat, i: nat, description: Option<string>, date: Option<DateText>,
                       status: Option<ItemStatus>, today: int)
    ensures var e := CheckEdit(t, first, o, i, description, date, status, today);
            var asked := status.None? && (description.Some? || date.Some?);
            var open := o < |t.orders| && !t.orders[o].status.Closed?;
            var found := i < |first.items| && first.items[i].orderId == o;
            && (e.None? <==> asked && open && found && (date.Some? ==> date.value.Day? && date.value.day >= today))
            && (e == Some(ItemStatusImmutable) <==> status.Some?)
            && (e == Some(Validation) <==> status.None? && description.None? && date.None?)
            && (e == Some(NotFound) <==> asked && (o >= |t.orders| || (open && !found)))
            && (e == Some(OrderClosed) <==> asked && o < |t.orders| && t.orders[o].status.Closed?)
            && (e == Some(InvalidDeliveryDate) <==> asked && open && found && date.Some? && !date.value.Day?)
            && (e == Some(DeliveryDateInPast) <==>
                  asked && open && found && date.Some? && date.value.Day? && date.value.day < today)
            && (e.Some? ==> e.value in {ItemStatusImmutable, Validation, NotFound, OrderClosed, InvalidDeliveryDate,
                                        DeliveryDateInPast})
  {}

  /** The write of an edit, for an item read as `item` and a row read as `row`: what was given is
      new and the other columns are as in `row`, but the item is UPDATED whenever `item` was
      anything else. Order, demand code, other items and other tables stay. */
  lemma EditedRowWritten(t: Tables, o: nat, i: nat, row: Item, item: Item, description: Option<string>,
                         day: Option<int>)
    ensures var r := EditWritten(t, o, i, EditedRow(row, item, description, day));
            && (r.Ok? <==> i < |t.items| && t.items[i].orderId == o)
            && (r.Err? ==> r.error == Error.Database)
            && (r.Ok? ==>
                  && |r.value.items| == |t.items|
                  && var x, y := t.items[i], r.value.items[i];
                  && y.orderId == x.orderId && y.demandCode == x.demandCode
                  && y.description == (if description.Some? then description.value else row.description)
                  && y.deliveryDate == (if day.Some? then day.value else row.deliveryDate)
                  && y.status == (if item.status.Updated? then row.status else ItemStatus.Updated)
                  && (forall k :: 0 <= k < |t.items| && k != i ==> r.value.items[k] == t.items[k])
                  && r.value.orders == t.orders && r.value.outbox == t.outbox && r.value.logs == t.logs)
  {}

  /** With nobody else acting an edit is the check and then the write over the row that was read. */
  lemma EditAsOneStep(t: Tables, o: nat, i: nat, description: Option<string>, date: Option<DateText>,
                      status: Option<ItemStatus>, today: int)
    ensures var r := EditItemTx(t, o, i, description, date, status, today);
            match CheckEdit(t, t, o, i, description, date, status, today)
            case Some(e) => r == Err(e)
            case None =>
              && i < |t.items|
              && r == EditWritten(t, o, i, EditedRow(t.items[i], t.items[i], description, DayOf(date)))
  {
    if HasItem(t, o, i) {
      var x := t.items[i];
      var y := EditedRow(x, x, description, DayOf(date));
      assert x.(description := y.description, deliveryDate := y.deliveryDate, status := y.status) == y;
    }
  }

  // ---- syncs

  /** An enqueue's reads let it through exactly when the order exists and is not CLOSED, the item
      is the order's, UPDATED or FAILED and due today or later, and no row of it is PENDING or
      PROCESSING; the ticket holds what was read. The order is looked at in `t`, the item in
      `first` and the rows in `second`. */
  lemma EnqueueAllowedIff(t: Tables, first: Tables, second: Tables, o: nat, i: nat, today: int)
    ensures var r := CheckInReads(t, first, second, o, i, today);
            var open := o < |t.orders| && !t.orders[o].status.Closed?;
            var found := open && i < |first.items| && first.items[i].orderId == o;
            var ready := found && (first.items[i].status.Updated? || first.items[i].status.Failed?);
            var due := ready && first.items[i].deliveryDate >= today;
            var active := exists e :: 0 <= e < |second.outbox| && second.outbox[e].itemId == i
                                      && (second.outbox[e].status.Pending? || second.outbox[e].status.Processing?);
            && (r.Ok? <==> due && !active)
            && (r.Ok? ==>
                  && r.value.itemId == i && r.value.orderNumber == t.orders[o].number
                  && r.value.item == first.items[i])
            && (r == Err(NotFound) <==> o >= |t.orders| || (open && !found))
            && (r == Err(OrderClosed) <==> o < |t.orders| && t.orders[o].status.Closed?)
            && (r == Err(ItemNotSyncable) <==> found && !ready)
            && (r == Err(DeliveryDateInPast) <==> ready && !due)
            && (r == Err(SyncAlreadyActive) <==> due && active)
            && (r.Err? ==>
                  r.error in {NotFound, OrderClosed, ItemNotSyncable, DeliveryDateInPast, SyncAlreadyActive})
  {
    if exists e :: 0 <= e < |second.outbox| && second.outbox[e].itemId == i
                   && (second.outbox[e].status.Pending? || second.outbox[e].status.Processing?)
    {
      var e :| 0 <= e < |second.outbox| && second.outbox[e].itemId == i
               && (second.outbox[e].status.Pending? || second.outbox[e].status.Processing?);
      assert Active(second.outbox[e]);
    }
  }

  /** With nobody else acting the reads are the protocol's check. */
  lemma EnqueueAsOneCheck(t: Tables, o: nat, i: nat, today: int)
    ensures CheckInReads(t, t, t, o, i, today) == CheckEnqueue(t, o, i, today)
  {}

  /** The enqueue transaction goes through exactly for an item that exists. It appends one PENDING
      row that carries the order number and the item as they were read, with no attempt used, and
      turns the item UPDATED if it was read FAILED, with nothing else changed. */
  lemma RowInserted(t: Tables, k: Ticket, rfc: string)
    ensures var r := InsertTx(t, k, rfc);
            && (r.Ok? <==> k.itemId < |t.items|)
            && (r.Ok? ==>
                  && |r.value.outbox| == |t.outbox| + 1 && r.value.outbox[..|t.outbox|] == t.outbox
                  && var row := r.value.outbox[|t.outbox|];
                  && row.itemId == k.itemId && row.orderNumber == k.orderNumber && row.rfc == rfc
                  && row.payload.orderNumber == k.orderNumber && row.payload.demandCode == k.item.demandCode
                  && row.payload.description == k.item.description && row.payload.status == k.item.status
                  && row.payload.deliveryDate == k.item.deliveryDate
                  && row.status.Pending? && row.attempts == 0 && row.maxAttempts == 3
                  && row.error.None? && row.processedAt.None?
                  && |r.value.items| == |t.items|
                  && (if k.item.status.Failed? then
                        r.value.items[k.itemId] == t.items[k.itemId].(status := ItemStatus.Updated)
                      else r.value.items[k.itemId] == t.items[k.itemId])
                  && (forall i :: 0 <= i < |t.items| && i != k.itemId ==> r.value.items[i] == t.items[i])
                  && r.value.orders == t.orders && r.value.logs == t.logs)
  {}

  // ---- status queries

  /** The log a response shows: none for a row that is not COMPLETED or FAILED, nor for an item
      without logs, else the item's newest. */
  ghost predicate Shows(v: SyncView, logs: seq<Log>) {
    var i := v.row.itemId;
    if (v.row.status.Completed? || v.row.status.Failed?) && exists l :: 0 <= l < |logs| && logs[l].itemId == i then
      exists l :: 0 <= l < |logs| && logs[l].itemId == i && v.latestLog == Some(logs[l])
                  && forall m :: l < m < |logs| ==> logs[m].itemId != i
    else v.latestLog.None?
  }

  lemma ViewShows(id: nat, row: Entry, logs: seq<Log>)
    ensures Shows(ViewWith(id, row, logs), logs)
  {
    var at := LogPositions(logs, row.itemId);
    var mine := LogsNewestFirst(logs, row.itemId);
    if mine != [] {
      var l := at[0];
      assert l in at && logs[l].itemId == row.itemId && mine[0] == logs[l];
      forall m | l < m < |logs| ensures logs[m].itemId != row.itemId {
        assert m !in at;
      }
    } else {
      forall l | 0 <= l < |logs| ensures logs[l].itemId != row.itemId {
        assert l !in at;
      }
    }
  }

  /** An item that has rows is answered for with its newest one, whatever that row's status. */
  lemma LatestAnswered(rows: seq<Entry>, logs: seq<Log>, i: nat)
    ensures var r := LatestOf(rows, logs, i);
            && (r.Ok? <==> exists e :: 0 <= e < |rows| && rows[e].itemId == i)
            && (r.Err? ==> r.error == NotFound)
            && (r.Ok? ==>
                  && r.value.id < |rows| && r.value.row == rows[r.value.id] && r.value.row.itemId == i
                  && (forall e :: r.value.id < e < |rows| ==> rows[e].itemId != i)
                  && Shows(r.value, logs))
  {
    match LatestEntry(rows, i)
    case None =>
    case Some(id) => ViewShows(id, rows[id], logs);
  }

  /** A row of the item is answered for, whatever its status. */
  lemma RowAnswered(rows: seq<Entry>, logs: seq<Log>, i: nat, id: nat)
    ensures var r := RowOf(rows, logs, i, id);
            && (r.Ok? <==> id < |rows| && rows[id].itemId == i)
            && (r.Err? ==> r.error == NotFound)
            && (r.Ok? ==> r.value.id == id && r.value.row == rows[id] && Shows(r.value, logs))
  {
    if id < |rows| {
      ViewShows(id, rows[id], logs);
    }
  }
}
