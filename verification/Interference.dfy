/** What a worker or a request can rely on while everyone else goes on: its hand, its ticket and
    the items it has seen stay. */
module Interference {
  import opened Domain
  import opened Requests
  import opened Protocol
  import opened CoreInvariant
  import opened Audit
  import opened Lifecycle

  /** Steps that worker `w` takes on its own behalf. */
  predicate Own(a: Action, w: nat) {
    match a
    case Claim(v, _, _) => v == w
    case CallSap(v, _, _) => v == w
    case Close(v, _) => v == w
    case CloseLost(v) => v == w
    case Crash(v) => v == w
    case _ => false
  }

  /** Steps that enqueue request `req` takes. */
  predicate Asks(a: Action, req: nat) {
    match a
    case Check(r, _, _, _) => r == req
    case Insert(r, _) => r == req
    case Drop(r) => r == req
    case _ => false
  }

  /** What everyone else does while worker `w`, or request `req`, is busy elsewhere. */
  predicate WithoutWorker(acts: seq<Action>, w: nat) {
    forall k :: 0 <= k < |acts| ==> !Own(acts[k], w)
  }

  predicate WithoutRequest(acts: seq<Action>, req: nat) {
    forall k :: 0 <= k < |acts| ==> !Asks(acts[k], req)
  }

  lemma HandStaysStep(s: State, a: Action, w: nat)
    requires !Own(a, w)
    ensures HandOf(Apply(s, a), w) == HandOf(s, w)
  {
    match a
    case Insert(_, _) =>
    case Close(_, _) =>
    case Cancel(o, i, id, now) => CancelShape(s, o, i, id, now);
    case _ =>
  }

  lemma {:induction false} HandStays(s: State, acts: seq<Action>, w: nat)
    requires WithoutWorker(acts, w)
    ensures HandOf(Run(s, acts), w) == HandOf(s, w)
    decreases |acts|
  {
    if acts == [] {
    } else {
      assert !Own(acts[0], w);
      HandStaysStep(s, acts[0], w);
      HandStays(Apply(s, acts[0]), acts[1..], w);
    }
  }

  predicate SameTicket(s: State, s': State, req: nat) {
    (req in s'.tickets <==> req in s.tickets) && (req in s.tickets ==> s'.tickets[req] == s.tickets[req])
  }

  lemma TicketStaysStep(s: State, a: Action, req: nat)
    requires !Asks(a, req)
    ensures SameTicket(s, Apply(s, a), req)
  {
    match a
    case Insert(_, _) =>
    case Cancel(o, i, id, now) => CancelShape(s, o, i, id, now);
    case _ =>
  }

  lemma {:induction false} TicketStays(s: State, acts: seq<Action>, req: nat)
    requires WithoutRequest(acts, req)
    ensures SameTicket(s, Run(s, acts), req)
    decreases |acts|
  {
    if acts == [] {
    } else {
      assert !Asks(acts[0], req);
      TicketStaysStep(s, acts[0], req);
      TicketStays(Apply(s, acts[0]), acts[1..], req);
    }
  }

  lemma {:induction false} ItemsStay(s: State, acts: seq<Action>)
    requires Core(s)
    ensures Core(Run(s, acts)) && |Run(s, acts).db.items| >= |s.db.items|
    ensures forall i :: 0 <= i < |s.db.items| ==> Run(s, acts).db.items[i].orderId == s.db.items[i].orderId
    decreases |acts|
  {
    if acts == [] {
    } else {
      CoreStep(s, acts[0]);
      KeysStep(s, acts[0]);
      ItemsStay(Apply(s, acts[0]), acts[1..]);
    }
  }

  // ---- requests that read first and write later

  /** What a request that has read an order still finds after others' steps. */
  lemma OrdersAfter(before: seq<Action>, between: seq<Action>, o: nat)
    requires o < |Run(INIT, before).db.orders|
    ensures var t, t' := Run(INIT, before).db, Run(Run(INIT, before), between).db;
            && o < |t'.orders| && OrderOk(t, o) && OrderOk(t', o)
            && t'.orders[o].number == t.orders[o].number
            && Rank(t.orders[o].status) <= Rank(t'.orders[o].status)
            && |t.items| <= |t'.items|
            && forall i :: 0 <= i < |t.items| ==> t'.items[i].orderId == t.items[i].orderId
  {
    InitIsCore();
    OrdersRun(INIT, before);
    assert OrderOk(Run(INIT, before).db, o);
    OrderRun(Run(INIT, before), between, o);
    ItemsStay(Run(INIT, before), between);
  }

  lemma ItemsRemain(before: seq<Action>, between: seq<Action>, o: nat)
    ensures var t, t' := Run(INIT, before).db, Run(Run(INIT, before), between).db;
            ItemsOf(t.items, o) != [] ==> ItemsOf(t'.items, o) != []
  {
    ReachableIsCore(before);
    ItemsStay(Run(INIT, before), between);
    var t, t' := Run(INIT, before).db, Run(Run(INIT, before), between).db;
    if ItemsOf(t.items, o) != [] {
      var i :| 0 <= i < |t.items| && t.items[i].orderId == o;
      assert t'.items[i].orderId == o;
    }
  }

  /** A status change that was allowed by what was read, the order first and its items later, is
      written over what others have left since. It is still an allowed change if and only if the
      order did not overtake it: writing OPEN finds it OPEN, IN_PROGRESS finds it not CLOSED,
      CLOSED finds it CLOSED or all its items terminal. */
  lemma StatusIsOneStepIff(before: seq<Action>, first: seq<Action>, second: seq<Action>, o: nat, next: OrderStatus)
    requires var s := Run(INIT, before); CheckStatus(s.db, Run(s, first).db, o, Some(next)).None?
    ensures var t' := Run(Run(INIT, before), first + second).db;
            && o < |t'.orders|
            && var now := t'.orders[o].status;
            SetStatusTx(t', o, Some(next)) == WithOrderStatus(t', o, next)
            <==> (if next.Open? then now.Open?
                  else if next.InProgress? then !now.Closed?
                  else now.Closed? || AllTerminal(ItemsOf(t'.items, o)))
  {
    var s := Run(INIT, before);
    OrdersAfter(before, first + second, o);
    RunAppend(INIT, before, first);
    RunAppend(s, first, second);
    ItemsRemain(before + first, second, o);
  }

  /** Such a write moves the order down if and only if it writes OPEN over an order that is no
      longer OPEN, or IN_PROGRESS over one that is CLOSED. */
  lemma StaleStatusLowersIff(before: seq<Action>, first: seq<Action>, second: seq<Action>, o: nat, next: OrderStatus)
    requires var s := Run(INIT, before); CheckStatus(s.db, Run(s, first).db, o, Some(next)).None?
    ensures var t' := Run(Run(INIT, before), first + second).db;
            && o < |t'.orders|
            && WithOrderStatus(t', o, next).Ok?
            && (Rank(WithOrderStatus(t', o, next).value.orders[o].status) < Rank(t'.orders[o].status)
                <==> (next.Open? && !t'.orders[o].status.Open?) || (next.InProgress? && t'.orders[o].status.Closed?))
  {
    OrdersAfter(before, first + second, o);
  }

  /** An item that could be added when the order was read is, written over what others have left
      since, added as by one step if and only if the order has not been closed. */
  lemma AddIsOneStepIff(before: seq<Action>, between: seq<Action>, o: nat, code: string, description: string,
                        date: DateText, today: int)
    requires CheckAddItem(Run(INIT, before).db, o, code, description, date, today).Ok?
    requires WithItem(Run(Run(INIT, before), between).db, o, code, description,
                      CheckAddItem(Run(INIT, before).db, o, code, description, date, today).value).Ok?
    ensures var t, t' := Run(INIT, before).db, Run(Run(INIT, before), between).db;
            var day := CheckAddItem(t, o, code, description, date, today).value;
            && o < |t'.orders|
            && (AddWritten(t', o, t.orders[o].status, code, description, day, true)
                == AddItemTx(t', o, code, description, date, today, true)
                <==> !t'.orders[o].status.Closed?)
  {
    OrdersAfter(before, between, o);
    var t' := Run(Run(INIT, before), between).db;
    if t'.orders[o].status.InProgress? {
      assert t'.orders[o := t'.orders[o].(status := InProgress)] == t'.orders;
    }
  }

  lemma PromotionIsAllowedIff(s: State, o: nat)
    requires o < |s.db.orders| && OrderOk(s.db, o) && ItemsOf(s.db.items, o) != []
    ensures WithOrderStatus(s.db, o, InProgress) == Ok(Apply(s, SetStatus(o, InProgress)).db)
            <==> !s.db.orders[o].status.Closed?
  {
    var t := s.db;
    assert t.(orders := t.orders[o := t.orders[o].(status := InProgress)]).orders[o].status == InProgress;
  }

  /** With others acting before each of its two writes, adding an item that could be added when
      the order was read is two steps of the protocol, an item without promotion and a change to
      IN_PROGRESS: the first if and only if the order is not closed by then, and so the second. */
  lemma AddIsTwoStepsIff(before: seq<Action>, first: seq<Action>, second: seq<Action>, o: nat, code: string,
                         description: string, date: DateText, today: int)
    requires CheckAddItem(Run(INIT, before).db, o, code, description, date, today).Ok?
    requires WithItem(Run(Run(INIT, before), first).db, o, code, description,
                      CheckAddItem(Run(INIT, before).db, o, code, description, date, today).value).Ok?
    ensures var s1 := Run(Run(INIT, before), first);
            var day := CheckAddItem(Run(INIT, before).db, o, code, description, date, today).value;
            var half := AddItem(o, code, description, date, today, false);
            var s2 := Run(Apply(s1, half), second);
            && o < |s1.db.orders| && o < |s2.db.orders|
            && (WithItem(s1.db, o, code, description, day) == Ok(Apply(s1, half).db)
                <==> !s1.db.orders[o].status.Closed?)
            && (!s1.db.orders[o].status.Closed? ==>
                  (WithOrderStatus(s2.db, o, InProgress) == Ok(Apply(s2, SetStatus(o, InProgress)).db)
                   <==> !s2.db.orders[o].status.Closed?))
  {
    var s1 := Run(Run(INIT, before), first);
    var half := AddItem(o, code, description, date, today, false);
    OrdersAfter(before, first, o);
    RunAppend(INIT, before, first);
    RunAppend(INIT, before + first, [half]);
    RunOne(s1, half);
    OrdersAfter(before + first + [half], second, o);
    ItemsRemain(before + first + [half], second, o);
    var s2 := Run(Apply(s1, half), second);
    if !s1.db.orders[o].status.Closed? {
      assert Apply(s1, half).db.items[|s1.db.items|].orderId == o;
      PromotionIsAllowedIff(s2, o);
    }
  }

  /** The promotion moves the order down if and only if the order was read OPEN and is CLOSED by
      the time it is written. */
  lemma StaleAddLowersIff(before: seq<Action>, between: seq<Action>, o: nat, code: string, description: string,
                          date: DateText, today: int)
    requires CheckAddItem(Run(INIT, before).db, o, code, description, date, today).Ok?
    requires WithItem(Run(Run(INIT, before), between).db, o, code, description,
                      CheckAddItem(Run(INIT, before).db, o, code, description, date, today).value).Ok?
    ensures var t, t' := Run(INIT, before).db, Run(Run(INIT, before), between).db;
            var day := CheckAddItem(t, o, code, description, date, today).value;
            var written := AddWritten(t', o, t.orders[o].status, code, description, day, true);
            && o < |t'.orders| && written.Ok?
            && (Rank(written.value.orders[o].status) < Rank(t'.orders[o].status)
                <==> t.orders[o].status.Open? && t'.orders[o].status.Closed?)
  {
    OrdersAfter(before, between, o);
  }

  lemma WriteBackIff(t1: Tables, t2: Tables, t3: Tables, o: nat, i: nat, description: Option<string>,
                     date: Option<DateText>, today: int)
    requires o < |t3.orders| && i < |t1.items| && i < |t2.items| && HasItem(t3, o, i)
    requires (description.Some? || date.Some?) && (date.Some? ==> date.value.Day? && date.value.day >= today)
    ensures var row := EditedRow(t2.items[i], t1.items[i], description, DayOf(date));
            (EditWritten(t3, o, i, row) == EditItemTx(t3, o, i, description, date, None, today)
             <==>
             && !t3.orders[o].status.Closed?
             && (description.None? ==> t3.items[i].description == t2.items[i].description)
             && (date.None? ==> t3.items[i].deliveryDate == t2.items[i].deliveryDate)
             && (ShouldPromoteOnEdit(t1.items[i].status) || t2.items[i].status.Updated?))
  {
    var row := EditedRow(t2.items[i], t1.items[i], description, DayOf(date));
    var y := EditedItem(t3.items[i], description, DayOf(date));
    var z := t3.items[i].(description := row.description, deliveryDate := row.deliveryDate, status := row.status);
    assert y.status == ItemStatus.Updated;
    assert t3.items[i := z][i] == z && t3.items[i := y][i] == y;
  }

  /** An edit reads the order, then the item, then the row, and is written over what others have
      left since. It is the edit as one step if and only if the order has not been closed, what
      the edit leaves alone is still what the row held, and the item was to be promoted or the row
      was UPDATED still: a close that falls between those two reads leaves the edit SYNCED. */
  lemma EditIsOneStepIff(before: seq<Action>, first: seq<Action>, second: seq<Action>, third: seq<Action>, o: nat,
                         i: nat, description: Option<string>, date: Option<DateText>, today: int)
    requires var s := Run(INIT, before); CheckEdit(s.db, Run(s, first).db, o, i, description, date, None, today).None?
    ensures var s := Run(INIT, before);
            var t1, t2 := Run(s, first).db, Run(s, first + second).db;
            var t3 := Run(s, first + second + third).db;
            && o < |t3.orders| && i < |t1.items| && i < |t2.items| && i < |t3.items|
            && var row := EditedRow(t2.items[i], t1.items[i], description, DayOf(date));
            (EditWritten(t3, o, i, row) == EditItemTx(t3, o, i, description, date, None, today)
             <==>
             && !t3.orders[o].status.Closed?
             && (description.None? ==> t3.items[i].description == t2.items[i].description)
             && (date.None? ==> t3.items[i].deliveryDate == t2.items[i].deliveryDate)
             && (ShouldPromoteOnEdit(t1.items[i].status) || t2.items[i].status.Updated?))
  {
    var s := Run(INIT, before);
    OrdersAfter(before, first + second + third, o);
    ReachableIsCore(before);
    ItemsStay(s, first);
    RunAppend(s, first, second);
    ItemsStay(Run(s, first), second);
    RunAppend(s, first + second, third);
    ItemsStay(Run(s, first + second), third);
    WriteBackIff(Run(s, first).db, Run(s, first + second).db, Run(s, first + second + third).db, o, i, description,
                 date, today);
  }

  lemma ReadsAgreeIff(t: Tables, first: Tables, second: Tables, o: nat, i: nat, today: int)
    requires CheckInReads(t, first, second, o, i, today).Ok?
    requires o < |second.orders| && second.orders[o].number == t.orders[o].number
    requires i < |second.items| && second.items[i].orderId == first.items[i].orderId
    ensures CheckEnqueue(second, o, i, today) == CheckInReads(t, first, second, o, i, today)
            <==> !second.orders[o].status.Closed? && second.items[i] == first.items[i]
  {}

  /** An enqueue's check whose reads others come between amounts to one check at its last read if
      and only if by then the order has not been closed and the item is as it was read. */
  lemma CheckIsOneStepIff(before: seq<Action>, first: seq<Action>, second: seq<Action>, o: nat, i: nat, today: int)
    requires var s := Run(INIT, before);
             CheckInReads(s.db, Run(s, first).db, Run(s, first + second).db, o, i, today).Ok?
    ensures var s := Run(INIT, before);
            var t1, t2 := Run(s, first).db, Run(s, first + second).db;
            && o < |t2.orders| && i < |t1.items| && i < |t2.items|
            && (CheckEnqueue(t2, o, i, today) == CheckInReads(s.db, t1, t2, o, i, today)
                <==> !t2.orders[o].status.Closed? && t2.items[i] == t1.items[i])
  {
    var s := Run(INIT, before);
    OrdersAfter(before, first + second, o);
    ReachableIsCore(before);
    ItemsStay(s, first);
    RunAppend(s, first, second);
    ItemsStay(Run(s, first), second);
    ReadsAgreeIff(s.db, Run(s, first).db, Run(s, first + second).db, o, i, today);
  }

  lemma InsertLeavesSyncedIff(t: Tables, first: Tables, second: Tables, last: Tables, o: nat, i: nat, today: int,
                              rfc: string)
    requires CheckInReads(t, first, second, o, i, today).Ok? && |first.items| <= |last.items|
    ensures var r := InsertTx(last, CheckInReads(t, first, second, o, i, today).value, rfc);
            && i < |first.items| && r.Ok? && i < |r.value.items| && HasActive(r.value.outbox, i)
            && (r.value.items[i].status.Synced? <==> first.items[i].status.Updated? && last.items[i].status.Synced?)
  {
    var rows := InsertTx(last, CheckInReads(t, first, second, o, i, today).value, rfc).value.outbox;
    assert rows[|rows| - 1].itemId == i && Active(rows[|rows| - 1]);
  }

  /** What such reads enqueue leaves the item SYNCED, with an active row, if and only if it was
      read UPDATED and is SYNCED when the row is inserted. */
  lemma SentWhileSyncedIff(before: seq<Action>, first: seq<Action>, second: seq<Action>, third: seq<Action>, o: nat,
                           i: nat, today: int, rfc: string)
    requires var s := Run(INIT, before);
             var s1 := Run(s, first);
             CheckInReads(s.db, s1.db, Run(s1, second).db, o, i, today).Ok?
    ensures var s := Run(INIT, before);
            var s1 := Run(s, first);
            var s2 := Run(s1, second);
            var t3 := Run(s2, third).db;
            var r := InsertTx(t3, CheckInReads(s.db, s1.db, s2.db, o, i, today).value, rfc);
            && i < |s1.db.items| && i < |t3.items| && r.Ok? && i < |r.value.items| && HasActive(r.value.outbox, i)
            && (r.value.items[i].status.Synced? <==> s1.db.items[i].status.Updated? && t3.items[i].status.Synced?)
  {
    var s := Run(INIT, before);
    var s1 := Run(s, first);
    var s2 := Run(s1, second);
    ReachableIsCore(before);
    ItemsStay(s, first);
    ItemsStay(s1, second);
    ItemsStay(s2, third);
    InsertLeavesSyncedIff(s.db, s1.db, s2.db, Run(s2, third).db, o, i, today, rfc);
  }
}
