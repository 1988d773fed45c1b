/** What single steps amount to in reachable states, case by case. */
module Outcomes {
  import opened Domain
  import opened Queue
  import opened Requests
  import opened Protocol
  import opened CoreInvariant
  import opened Audit
  import opened SerialInvariant
  import opened Lifecycle

  /** A claim hands its worker as many rows as were eligible and unlocked, up to the limit; each
      was pending, is now PROCESSING with one attempt more, and is older than every such row
      left behind; no other row changes. */
  lemma ClaimOutcome(acts: seq<Action>, w: nat, limit: nat, skip: set<nat>)
    requires HandOf(Run(INIT, acts), w) == EMPTY_HAND
    ensures var s := Run(INIT, acts);
            var s' := Apply(s, Claim(w, limit, skip));
            var rows, rows' := s.db.outbox, s'.db.outbox;
            var got := HandOf(s', w).todo;
            && |got.Keys| == (if Claimable(rows, |rows|, skip) < limit then Claimable(rows, |rows|, skip) else limit)
            && |rows'| == |rows|
            && (forall x :: x in got ==>
                              && x < |rows| && x !in skip && rows[x].status.Pending? && got[x] == rows'[x]
                              && rows'[x] == rows[x].(status := OutboxStatus.Processing,
                                                      attempts := rows[x].attempts + 1))
            && (forall x :: 0 <= x < |rows| && x !in got ==> rows'[x] == rows[x])
            && (forall x, y :: 0 <= x < |rows| && rows[x].status.Pending? && x !in skip && x !in got && y in got ==>
                                 y < x)
  {
    var s := Run(INIT, acts);
    ReachableIsCore(acts);
    ClaimShape(s, w, limit, skip);
    ClaimContract(s.db.outbox, skip, limit);
    var ids := ClaimIds(s.db.outbox, skip, limit);
    assert HandOf(AfterClaim(s, w, ids), w).todo.Keys == ids;
    forall x | 0 <= x < |s.db.outbox| && s.db.outbox[x].status.Pending? ensures Eligible(s.db.outbox[x]) {
      assert EntryAt(s, x);
    }
  }

  /** What the close of a recorded answer shows afterwards. An accepted call completes the row
      and syncs the item. A rejection fails the item even when the row will be retried, while a
      transport error leaves it UPDATED as long as an attempt is left. The row goes back to
      PENDING exactly when an attempt is left, is stamped with the time otherwise, and keeps the
      text of what went wrong. Nothing else changes but the log. */
  lemma CloseOutcome(acts: seq<Action>, w: nat, now: int)
    requires HandOf(Run(INIT, acts), w).current.Some?
    ensures var s := Run(INIT, acts);
            var s' := Apply(s, Close(w, now));
            var cur := HandOf(s, w).current.value;
            && cur.id < |s.db.outbox| && |s'.db.outbox| == |s.db.outbox| && |s'.db.logs| == |s.db.logs| + 1
            && var row, row' := s.db.outbox[cur.id], s'.db.outbox[cur.id];
            && row.itemId < |s'.db.items| && |s'.db.items| == |s.db.items|
            && s'.db.items[row.itemId].(status := s.db.items[row.itemId].status) == s.db.items[row.itemId]
            && (forall k :: 0 <= k < |s.db.items| && k != row.itemId ==> s'.db.items[k] == s.db.items[k])
            && (forall e :: 0 <= e < |s.db.outbox| && e != cur.id ==> s'.db.outbox[e] == s.db.outbox[e])
            && s'.db.orders == s.db.orders
            && row'.(status := row.status, error := row.error, processedAt := row.processedAt) == row
            && row'.processedAt == (if row'.status.Pending? then None else Some(now))
            && row'.error == (if Accepted(cur.answer) then None else Some(cur.answer.text))
            && var status, log := s'.db.items[row.itemId].status, s'.db.logs[|s.db.logs|];
            && log.itemId == row.itemId && log.request == row.payload && log.rfc == row.rfc
            && (log.status.Success? <==> row'.status.Completed?)
            && match cur.answer
               case TransportError(text, _) =>
                 && log.response.None? && log.error == Some(text)
                 && (if row.attempts < 3 then row'.status.Pending? && status.Updated?
                     else row'.status.Failed? && status.Failed?)
               case Reply(true, response, _) =>
                 row'.status.Completed? && status.Synced? && log.response == Some(response) && log.error.None?
               case Reply(false, response, text) =>
                 && status.Failed? && log.response == Some(response)
                 && log.error == (if text == "" then None else Some(text))
                 && (if row.attempts < 3 then row'.status.Pending? else row'.status.Failed?)
  {
    var s := Run(INIT, acts);
    ReachableIsCore(acts);
    CloseShape(s, w, now);
    assert EntryAt(s, HandOf(s, w).current.value.id);
  }

  /** A cancel goes through exactly for a pending row of an item of that order; then the row is
      CANCELLED with the time and a fixed message, the item UPDATED and every other row and item
      as before. Otherwise the reason is a missing item or row, or a row that is no longer
      pending. */
  lemma CancelOutcome(acts: seq<Action>, o: nat, i: nat, id: nat, now: int)
    ensures var s := Run(INIT, acts);
            var r := CancelTx(s.db, o, i, id, now);
            var t' := Apply(s, Cancel(o, i, id, now)).db;
            var found := i < |s.db.items| && s.db.items[i].orderId == o && id < |s.db.outbox|
                         && s.db.outbox[id].itemId == i;
            && (r.Ok? <==> found && s.db.outbox[id].status.Pending?)
            && (r.Err? ==> t' == s.db && r.error == if found then SyncNotCancellable else NotFound)
            && (r.Ok? ==>
                  && |t'.outbox| == |s.db.outbox| && |t'.items| == |s.db.items|
                  && t'.outbox[id] == s.db.outbox[id].(status := OutboxStatus.Cancelled, processedAt := Some(now),
                                                       error := Some("cancelled by user"))
                  && t'.items[i] == s.db.items[i].(status := ItemStatus.Updated)
                  && (forall e :: 0 <= e < |t'.outbox| && e != id ==> t'.outbox[e] == s.db.outbox[e])
                  && (forall k :: 0 <= k < |t'.items| && k != i ==> t'.items[k] == s.db.items[k])
                  && t'.orders == s.db.orders && t'.logs == s.db.logs)
  {
    CancelShape(Run(INIT, acts), o, i, id, now);
  }

  /** A cancel that went through is final: in every later run the row stays CANCELLED at the same
      attempt, is never sent again and gets no log, whatever workers and requests do. */
  lemma CancelIsFinal(before: seq<Action>, o: nat, i: nat, id: nat, now: int, later: seq<Action>)
    requires CancelTx(Run(INIT, before).db, o, i, id, now).Ok?
    ensures var s := Run(INIT, before);
            var s' := Run(Apply(s, Cancel(o, i, id, now)), later);
            && id < |s.db.outbox| && id < |s'.db.outbox|
            && s'.db.outbox[id].status.Cancelled? && s'.db.outbox[id].attempts == s.db.outbox[id].attempts
            && Answers(s'.hist.calls, id) == Answers(s.hist.calls, id)
            && |s.db.logs| == |s.hist.origin| && |s'.db.logs| == |s'.hist.origin|
            && Trail(s'.db.logs, s'.hist.origin, id) == Trail(s.db.logs, s.hist.origin, id)
  {
    var s := Run(INIT, before);
    var a := Cancel(o, i, id, now);
    ReachableIsCore(before);
    CancelOutcome(before, o, i, id, now);
    CoreStep(s, a);
    assert Apply(s, a).hist == s.hist;
    FinishedForever(Apply(s, a), later, id);
  }

  /** Without overlapping enqueues a check succeeds exactly when the order is open to changes,
      the item is the order's, UPDATED or FAILED and not yet due, and the item's newest row, if
      it has one, is done. The ticket then holds what was read. */
  lemma CheckOutcome(acts: seq<Action>, o: nat, i: nat, today: int)
    requires SerialRun(INIT, acts)
    ensures var t := Run(INIT, acts).db;
            var r := CheckEnqueue(t, o, i, today);
            && (r.Ok? <==>
                  && o < |t.orders| && !t.orders[o].status.Closed?
                  && i < |t.items| && t.items[i].orderId == o
                  && (t.items[i].status.Updated? || t.items[i].status.Failed?)
                  && t.items[i].deliveryDate >= today
                  && (LatestEntry(t.outbox, i).Some? ==> Finished(t.outbox[LatestEntry(t.outbox, i).value])))
            && (r.Ok? ==>
                  r.value.itemId == i && r.value.orderNumber == t.orders[o].number && r.value.item == t.items[i])
  {
    ReachableIsSerial(acts);
    var rows := Run(INIT, acts).db.outbox;
    var latest := LatestEntry(rows, i);
    if HasActive(rows, i) {
      var e :| 0 <= e < |rows| && rows[e].itemId == i && Active(rows[e]);
      assert e == latest.value;
    } else if latest.Some? {
      assert !Active(rows[latest.value]);
    }
  }

  /** Adding an item, both writes done, goes through exactly when the fields are there, the
      order is open to changes, the date is a day not yet past and the order lacks that demand
      code. It appends one PENDING item and leaves the order IN_PROGRESS, with nothing else
      changed. */
  lemma AddOutcome(acts: seq<Action>, o: nat, code: string, description: string, date: DateText, today: int)
    ensures var t := Run(INIT, acts).db;
            var r := AddItemTx(t, o, code, description, date, today, true);
            && (r.Ok? <==>
                  && code != "" && description != "" && date.Day? && date.day >= today
                  && o < |t.orders| && !t.orders[o].status.Closed?
                  && forall i :: 0 <= i < |t.items| && t.items[i].orderId == o ==> t.items[i].demandCode != code)
            && (r.Ok? ==>
                  && |r.value.items| == |t.items| + 1 && r.value.items[..|t.items|] == t.items
                  && var item := r.value.items[|t.items|];
                  && item.orderId == o && item.demandCode == code && item.description == description
                  && item.deliveryDate == date.day && item.status.Pending?
                  && |r.value.orders| == |t.orders| && r.value.orders[o].status.InProgress?
                  && r.value.orders[o].number == t.orders[o].number
                  && (forall p :: 0 <= p < |t.orders| && p != o ==> r.value.orders[p] == t.orders[p])
                  && r.value.outbox == t.outbox && r.value.logs == t.logs)
  {
    InitIsCore();
    OrdersRun(INIT, acts);
    if o < |Run(INIT, acts).db.orders| {
      assert OrderOk(Run(INIT, acts).db, o);
    }
  }

  /** An insert whose check did not overlap another adds one fresh pending row, the newest of
      its item, with order number, fields and status as they were read. The item is UPDATED
      whatever it was read as, and nothing else changes. */
  lemma EnqueueOutcome(acts: seq<Action>, req: nat, rfc: string)
    requires SerialRun(INIT, acts) && req in Run(INIT, acts).tickets
    ensures var s := Run(INIT, acts);
            var t' := Apply(s, Insert(req, rfc)).db;
            var i, n := s.tickets[req].ticket.itemId, |s.db.outbox|;
            && |t'.outbox| == n + 1 && t'.outbox[..n] == s.db.outbox
            && var k, row := s.tickets[req].ticket, t'.outbox[n];
            && row.itemId == i && row.orderNumber == k.orderNumber && row.rfc == rfc
            && row.payload == Payload(k.orderNumber, k.item.demandCode, k.item.description, k.item.deliveryDate,
                                      k.item.status)
            && row.status.Pending? && row.attempts == 0 && row.maxAttempts == 3
            && row.error.None? && row.processedAt.None?
            && LatestEntry(t'.outbox, i) == Some(n)
            && i < |s.db.items| && |t'.items| == |s.db.items|
            && t'.items[i] == s.db.items[i].(status := ItemStatus.Updated)
            && (forall k :: 0 <= k < |t'.items| && k != i ==> t'.items[k] == s.db.items[k])
            && t'.orders == s.db.orders && t'.logs == s.db.logs
  {
    var s := Run(INIT, acts);
    ReachableIsSerial(acts);
    InsertShape(s, req, rfc);
    assert TicketOk(s.tickets[req].ticket, s.db);
  }

  /** An edit goes through exactly when it says something, its order is open to changes, the
      item is the order's and a given date is a day not yet past. It replaces what was given,
      keeps the rest, and leaves the item UPDATED. */
  lemma EditOutcome(t: Tables, o: nat, i: nat, description: Option<string>, date: Option<DateText>, today: int)
    ensures var r := EditItemTx(t, o, i, description, date, None, today);
            && (r.Ok? <==>
                  && (description.Some? || date.Some?)
                  && o < |t.orders| && !t.orders[o].status.Closed? && i < |t.items| && t.items[i].orderId == o
                  && (date.Some? ==> date.value.Day? && date.value.day >= today))
            && (r.Ok? ==>
                  && |r.value.items| == |t.items|
                  && var x, y := t.items[i], r.value.items[i];
                  && y.status.Updated? && y.orderId == x.orderId && y.demandCode == x.demandCode
                  && (if description.Some? then y.description == description.value else y.description == x.description)
                  && (if date.Some? then y.deliveryDate == date.value.day else y.deliveryDate == x.deliveryDate)
                  && (forall k :: 0 <= k < |t.items| && k != i ==> r.value.items[k] == t.items[k])
                  && r.value.orders == t.orders && r.value.outbox == t.outbox && r.value.logs == t.logs)
  {
    if HasItem(t, o, i) {
      assert ShouldPromoteOnEdit(t.items[i].status) || t.items[i].status.Updated?;
    }
  }
}
