/** One-way streets: rows that are done, the fall of every row's measure, order statuses that
    only move up, and closed orders that nothing changes any more. */
module Lifecycle {
  import opened Domain
  import opened Requests
  import opened Protocol
  import opened CoreInvariant
  import opened Audit

  // ---- rows

  /** A call is for a row in hand, which is PROCESSING. */
  lemma UnheldNotCalled(s: State, w: nat, id: nat, answer: Answer, e: nat)
    requires Core(s) && e < |s.db.outbox| && !s.db.outbox[e].status.Processing?
    ensures Answers(Apply(s, CallSap(w, id, answer)).hist.calls, e) == Answers(s.hist.calls, e)
  {
    if w in s.hands && id in s.hands[w].todo {
      assert HandOk(s, w) && InHandOk(s, w, id);
      AnswersAppend(s.hist.calls, CallFor(id, s.hands[w].todo[id], answer), e);
    }
  }

  /** No action changes a finished row, calls SAP for it or logs for it. */
  lemma FinishedStep(s: State, a: Action, e: nat)
    requires Core(s) && e < |s.db.outbox| && Finished(s.db.outbox[e])
    ensures var s' := Apply(s, a);
            && e < |s'.db.outbox| && s'.db.outbox[e] == s.db.outbox[e]
            && Answers(s'.hist.calls, e) == Answers(s.hist.calls, e)
            && |s'.db.logs| == |s'.hist.origin|
            && Trail(s'.db.logs, s'.hist.origin, e) == Trail(s.db.logs, s.hist.origin, e)
  {
    RowStep(s, a, e);
    match a
    case Insert(req, rfc) => InsertShape(s, req, rfc);
    case Claim(_, _, _) =>
    case CallSap(w, id, answer) => UnheldNotCalled(s, w, id, answer, e);
    case Close(w, now) =>
      if HandOf(s, w).current.Some? {
        CloseShape(s, w, now);
        var cur := HandOf(s, w).current.value;
        TrailAppend(s.db.logs, s.hist.origin, LogFor(s.db.outbox[cur.id], cur.answer), cur.id, e);
      }
    case Cancel(o, i, id, now) => CancelShape(s, o, i, id, now);
    case _ => QuietAction(s, a);
  }

  /** COMPLETED, FAILED and CANCELLED absorb every run: the row stays as it is, and SAP never
      hears of it again. */
  lemma {:induction false} FinishedForever(s: State, acts: seq<Action>, e: nat)
    requires Core(s) && e < |s.db.outbox| && Finished(s.db.outbox[e])
    ensures var s' := Run(s, acts);
            && e < |s'.db.outbox| && s'.db.outbox[e] == s.db.outbox[e]
            && Answers(s'.hist.calls, e) == Answers(s.hist.calls, e)
            && |s'.db.logs| == |s'.hist.origin|
            && Trail(s'.db.logs, s'.hist.origin, e) == Trail(s.db.logs, s.hist.origin, e)
    decreases |acts|
  {
    if acts == [] {
    } else {
      FinishedStep(s, acts[0], e);
      CoreStep(s, acts[0]);
      FinishedForever(Apply(s, acts[0]), acts[1..], e);
    }
  }

  /** What is left to happen to a row: two steps per remaining attempt, one more while its
      current attempt is open, none once it is done. */
  function Measure(row: Entry): int {
    if Finished(row) then 0
    else 2 * (row.maxAttempts - row.attempts) + if row.status.Processing? then 1 else 0
  }

  /** Every change of a row makes its measure smaller, so no row ever returns to a state it
      has left, and a row changes at most six times. */
  lemma MeasureFalls(s: State, a: Action, e: nat)
    requires Core(s) && e < |s.db.outbox|
    ensures var row, row' := s.db.outbox[e], Apply(s, a).db.outbox[e];
            && 0 <= Measure(row') <= Measure(row) <= 6
            && (row' != row ==> Measure(row') < Measure(row))
            && row'.attempts >= row.attempts && row'.itemId == row.itemId && row'.payload == row.payload
            && row'.orderNumber == row.orderNumber
  {
    assert EntryAt(s, e);
    RowStep(s, a, e);
  }

  /** How often row `e` changes along a run. */
  function Changes(s: State, acts: seq<Action>, e: nat): nat
    decreases |acts|
  {
    if acts == [] then 0
    else
      var s' := Apply(s, acts[0]);
      var moved := e < |s.db.outbox| && e < |s'.db.outbox| && s'.db.outbox[e] != s.db.outbox[e];
      (if moved then 1 else 0) + Changes(s', acts[1..], e)
  }

  lemma {:induction false} ChangesBounded(s: State, acts: seq<Action>, e: nat)
    requires Core(s) && e < |s.db.outbox|
    ensures e < |Run(s, acts).db.outbox|
    ensures Changes(s, acts, e) + Measure(Run(s, acts).db.outbox[e]) <= Measure(s.db.outbox[e]) <= 6
    ensures Run(s, acts).db.outbox[e].attempts >= s.db.outbox[e].attempts
    decreases |acts|
  {
    assert EntryAt(s, e);
    if acts == [] {
    } else {
      RowStep(s, acts[0], e);
      MeasureFalls(s, acts[0], e);
      CoreStep(s, acts[0]);
      ChangesBounded(Apply(s, acts[0]), acts[1..], e);
    }
  }

  lemma PendingNotCalled(s: State, a: Action, e: nat)
    requires Core(s) && e < |s.db.outbox| && s.db.outbox[e].status.Pending?
    ensures Answers(Apply(s, a).hist.calls, e) == Answers(s.hist.calls, e)
  {
    match a
    case Insert(req, rfc) => InsertShape(s, req, rfc);
    case Claim(_, _, _) =>
    case CallSap(w, id, answer) => UnheldNotCalled(s, w, id, answer, e);
    case Close(w, now) =>
      if HandOf(s, w).current.Some? {
        CloseShape(s, w, now);
      }
    case Cancel(o, i, id, now) => CancelShape(s, o, i, id, now);
    case _ => QuietAction(s, a);
  }

  /** A pending attempt ends in one way only: cancelled at this attempt count for good, or
      claimed, after which no later cancel is at this attempt count. */
  lemma {:induction false} OneWinner(s: State, acts: seq<Action>, e: nat)
    requires Core(s) && e < |s.db.outbox| && s.db.outbox[e].status.Pending?
    ensures var row := s.db.outbox[e];
            e < |Run(s, acts).db.outbox|
            && var row' := Run(s, acts).db.outbox[e];
            || row' == row
            || (row'.status.Cancelled? && row'.attempts == row.attempts
                && Answers(Run(s, acts).hist.calls, e) == Answers(s.hist.calls, e))
            || row'.attempts > row.attempts
    decreases |acts|
  {
    if acts == [] {
    } else {
      var s' := Apply(s, acts[0]);
      RowStep(s, acts[0], e);
      CoreStep(s, acts[0]);
      var row' := s'.db.outbox[e];
      if row'.status.Cancelled? {
        PendingNotCalled(s, acts[0], e);
        FinishedForever(s', acts[1..], e);
      } else if row'.status.Processing? {
        ChangesBounded(s', acts[1..], e);
      } else {
        assert row' == s.db.outbox[e];
        PendingNotCalled(s, acts[0], e);
        OneWinner(s', acts[1..], e);
      }
    }
  }

  // ---- orders

  predicate OrderOk(t: Tables, o: nat)
    requires o < |t.orders|
  {
    && IsValid(t.orders[o].status)
    && (t.orders[o].status.Open? || exists i :: 0 <= i < |t.items| && t.items[i].orderId == o)
  }

  /** What one action does to one order: its number stays, its status moves up or stays, and a
      move into CLOSED comes from IN_PROGRESS with every item SYNCED or FAILED. */
  predicate OrderMoves(t: Tables, t': Tables, o: nat)
    requires o < |t.orders|
  {
    && o < |t'.orders|
    && t'.orders[o].number == t.orders[o].number
    && Rank(t.orders[o].status) <= Rank(t'.orders[o].status)
    && (t'.orders[o].status.Closed? && !t.orders[o].status.Closed? ==>
          && t.orders[o].status.InProgress?
          && forall i :: 0 <= i < |t.items| && t.items[i].orderId == o ==> Terminal(t.items[i].status))
  }

  lemma OtherRequest(s: State, a: Action)
    requires IsQuiet(a) && !a.SetStatus? && !a.AddItem?
    ensures s.db.orders <= Apply(s, a).db.orders && |Apply(s, a).db.items| == |s.db.items|
    ensures forall i :: 0 <= i < |s.db.items| ==> Apply(s, a).db.items[i].orderId == s.db.items[i].orderId
  {}

  lemma KeepsItems(t: Tables, t': Tables, o: nat)
    requires o < |t.orders| && OrderOk(t, o)
    requires t.orders <= t'.orders && |t'.items| == |t.items|
    requires forall i :: 0 <= i < |t.items| ==> t'.items[i].orderId == t.items[i].orderId
    ensures OrderMoves(t, t', o) && OrderOk(t', o)
  {}

  lemma StatusStep(s: State, p: nat, next: OrderStatus, o: nat)
    requires o < |s.db.orders| && OrderOk(s.db, o)
    ensures OrderMoves(s.db, Apply(s, SetStatus(p, next)).db, o) && OrderOk(Apply(s, SetStatus(p, next)).db, o)
  {
    if p == o {
      var mine := ItemsOf(s.db.items, o);
      TransitionRules(s.db.orders[o].status, next, mine);
      if mine != [] {
        var i :| 0 <= i < |s.db.items| && s.db.items[i].orderId == o;
      }
      forall i | 0 <= i < |s.db.items| && s.db.items[i].orderId == o && AllTerminal(mine)
        ensures Terminal(s.db.items[i].status)
      {
        assert s.db.items[i] in mine;
      }
    }
  }

  lemma AddItemStep(s: State, a: Action, o: nat)
    requires a.AddItem? && o < |s.db.orders| && OrderOk(s.db, o)
    ensures OrderMoves(s.db, Apply(s, a).db, o) && OrderOk(Apply(s, a).db, o)
  {
    var t, t' := s.db, Apply(s, a).db;
    if t' != t {
      assert t.items <= t'.items && t'.items[|t.items|].orderId == a.o;
      if !t.orders[o].status.Open? {
        var i :| 0 <= i < |t.items| && t.items[i].orderId == o;
        assert t'.items[i].orderId == o;
      }
    }
  }

  lemma OrderStep(s: State, a: Action, o: nat)
    requires Core(s) && o < |s.db.orders| && OrderOk(s.db, o)
    ensures OrderMoves(s.db, Apply(s, a).db, o) && OrderOk(Apply(s, a).db, o)
  {
    if !IsQuiet(a) {
      QueueStep(s, a);
      KeepsItems(s.db, Apply(s, a).db, o);
    } else {
      match a
      case SetStatus(p, next) => StatusStep(s, p, next, o);
      case AddItem(_, _, _, _, _, _) => AddItemStep(s, a, o);
      case _ =>
        OtherRequest(s, a);
        KeepsItems(s.db, Apply(s, a).db, o);
    }
  }

  predicate OrdersOk(t: Tables) {
    forall o :: 0 <= o < |t.orders| ==> OrderOk(t, o)
  }

  lemma NewOrderOpen(s: State, a: Action, o: nat)
    requires Core(s) && |s.db.orders| <= o < |Apply(s, a).db.orders|
    ensures Apply(s, a).db.orders[o].status.Open?
  {
    if !IsQuiet(a) {
      QueueStep(s, a);
    }
  }

  lemma OrdersStep(s: State, a: Action)
    requires Core(s) && OrdersOk(s.db)
    ensures OrdersOk(Apply(s, a).db)
  {
    var t' := Apply(s, a).db;
    forall o | 0 <= o < |t'.orders| ensures OrderOk(t', o) {
      if o < |s.db.orders| {
        OrderStep(s, a, o);
      } else {
        NewOrderOpen(s, a, o);
      }
    }
  }

  lemma {:induction false} OrdersRun(s: State, acts: seq<Action>)
    requires Core(s) && OrdersOk(s.db)
    ensures Core(Run(s, acts)) && OrdersOk(Run(s, acts).db)
    decreases |acts|
  {
    if acts == [] {
    } else {
      CoreStep(s, acts[0]);
      OrdersStep(s, acts[0]);
      OrdersRun(Apply(s, acts[0]), acts[1..]);
    }
  }

  lemma {:induction false} OrderRun(s: State, acts: seq<Action>, o: nat)
    requires Core(s) && o < |s.db.orders| && OrderOk(s.db, o)
    ensures var t' := Run(s, acts).db;
            && o < |t'.orders| && OrderOk(t', o)
            && t'.orders[o].number == s.db.orders[o].number
            && Rank(s.db.orders[o].status) <= Rank(t'.orders[o].status)
    decreases |acts|
  {
    if acts == [] {
    } else {
      CoreStep(s, acts[0]);
      OrderStep(s, acts[0], o);
      OrderRun(Apply(s, acts[0]), acts[1..], o);
    }
  }

  /** Along every run from empty tables an order's status never moves down OPEN, IN_PROGRESS,
      CLOSED, and an order that is not OPEN has an item. */
  lemma OrderLifecycle(acts: seq<Action>, more: seq<Action>, o: nat)
    requires o < |Run(INIT, acts).db.orders|
    ensures var t, t' := Run(INIT, acts).db, Run(INIT, acts + more).db;
            && o < |t'.orders|
            && Rank(t.orders[o].status) <= Rank(t'.orders[o].status) <= 2
            && (!t.orders[o].status.Open? ==> exists i :: 0 <= i < |t.items| && t.items[i].orderId == o)
  {
    InitIsCore();
    OrdersRun(INIT, acts);
    assert OrderOk(Run(INIT, acts).db, o);
    OrderRun(Run(INIT, acts), more, o);
    RunAppend(INIT, acts, more);
  }

  /** Every step into CLOSED, in every run, is from IN_PROGRESS with all items SYNCED or
      FAILED and at least one of them. */
  lemma ClosingGuard(acts: seq<Action>, a: Action, o: nat)
    requires var t, t' := Run(INIT, acts).db, Apply(Run(INIT, acts), a).db;
             o < |t.orders| && o < |t'.orders| && !t.orders[o].status.Closed? && t'.orders[o].status.Closed?
    ensures var t := Run(INIT, acts).db;
            && t.orders[o].status.InProgress?
            && (exists i :: 0 <= i < |t.items| && t.items[i].orderId == o)
            && (forall i :: 0 <= i < |t.items| && t.items[i].orderId == o ==> Terminal(t.items[i].status))
  {
    InitIsCore();
    OrdersRun(INIT, acts);
    OrderStep(Run(INIT, acts), a, o);
    assert OrderOk(Run(INIT, acts).db, o);
  }

  // ---- keys

  /** Order numbers are unique, and so are demand codes within an order. */
  predicate KeysUnique(t: Tables) {
    && (forall o, p :: 0 <= o < p < |t.orders| ==> t.orders[o].number != t.orders[p].number)
    && (forall i, j :: 0 <= i < j < |t.items| && t.items[i].orderId == t.items[j].orderId ==>
                         t.items[i].demandCode != t.items[j].demandCode)
  }

  /** Existing rows keep their keys, and a new row's key is not taken. */
  predicate KeysKept(t: Tables, t': Tables) {
    && |t'.orders| >= |t.orders| && |t'.items| >= |t.items|
    && (forall o :: 0 <= o < |t.orders| ==> t'.orders[o].number == t.orders[o].number)
    && (forall i :: 0 <= i < |t.items| ==>
                      t'.items[i].orderId == t.items[i].orderId && t'.items[i].demandCode == t.items[i].demandCode)
    && |t'.orders| <= |t.orders| + 1 && |t'.items| <= |t.items| + 1
    && (|t'.orders| > |t.orders| ==> !NumberTaken(t.orders, t'.orders[|t.orders|].number))
    && (|t'.items| > |t.items| ==> !DemandTaken(t.items, t'.items[|t.items|].orderId, t'.items[|t.items|].demandCode))
  }

  lemma CreateKeepsKeys(s: State, number: string, createdBy: string)
    ensures KeysKept(s.db, Apply(s, CreateOrder(number, createdBy)).db)
  {}

  lemma AddKeepsKeys(t: Tables, a: Action)
    requires a.AddItem?
    ensures var r := AddItemTx(t, a.o, a.code, a.description, a.date, a.today, a.promoted);
            r.Ok? ==> KeysKept(t, r.value)
  {}

  lemma EditKeepsKeys(s: State, a: Action)
    requires a.EditItem?
    ensures KeysKept(s.db, Apply(s, a).db)
  {}

  lemma OtherKeepsKeys(s: State, a: Action)
    requires a.SetStatus? || a.Check? || a.Drop? || a.CloseLost? || a.Crash?
    ensures KeysKept(s.db, Apply(s, a).db)
  {}

  lemma KeysStep(s: State, a: Action)
    requires Core(s)
    ensures KeysKept(s.db, Apply(s, a).db)
  {
    match a
    case CreateOrder(number, createdBy) => CreateKeepsKeys(s, number, createdBy);
    case AddItem(_, _, _, _, _, _) => AddKeepsKeys(s.db, a);
    case EditItem(_, _, _, _, _) => EditKeepsKeys(s, a);
    case _ =>
      if IsQuiet(a) {
        OtherKeepsKeys(s, a);
      } else {
        QueueStep(s, a);
      }
  }

  lemma KeysStay(t: Tables, t': Tables)
    requires KeysUnique(t) && KeysKept(t, t')
    ensures KeysUnique(t')
  {}

  lemma {:induction false} UniqueKeys(s: State, acts: seq<Action>)
    requires Core(s) && KeysUnique(s.db)
    ensures KeysUnique(Run(s, acts).db)
    decreases |acts|
  {
    if acts == [] {
    } else {
      KeysStep(s, acts[0]);
      CoreStep(s, acts[0]);
      KeysStay(s.db, Apply(s, acts[0]).db);
      UniqueKeys(Apply(s, acts[0]), acts[1..]);
    }
  }

  /** The unique constraints hold in every reachable state, item-only outcomes included. */
  lemma ReachableKeysUnique(acts: seq<Action>)
    ensures KeysUnique(Run(INIT, acts).db)
  {
    InitIsCore();
    UniqueKeys(INIT, acts);
  }

  // ---- closed orders freeze

  /** A closed order the queue has no business with. */
  ghost predicate Settled(s: State, o: nat) {
    && o < |s.db.orders| && s.db.orders[o].status.Closed?
    && forall i :: 0 <= i < |s.db.items| && s.db.items[i].orderId == o ==> !Touched(s, i)
  }

  predicate OwnsRow(t: Tables, o: nat, i: nat) {
    i < |t.items| && t.items[i].orderId == o
  }

  /** Everything that belongs to order `o` is the same in both: the order, its items, their
      rows and their logs, with nothing new. */
  predicate SameOrder(t: Tables, t': Tables, o: nat) {
    && o < |t.orders| && o < |t'.orders| && t'.orders[o] == t.orders[o]
    && |t.items| <= |t'.items| && |t.outbox| <= |t'.outbox| && t.logs <= t'.logs
    && (forall i :: 0 <= i < |t'.items| && t'.items[i].orderId == o ==> i < |t.items|)
    && (forall i :: 0 <= i < |t.items| ==> t'.items[i].orderId == t.items[i].orderId)
    && (forall i :: 0 <= i < |t.items| && t.items[i].orderId == o ==> t'.items[i] == t.items[i])
    && (forall e :: 0 <= e < |t'.outbox| && OwnsRow(t, o, t'.outbox[e].itemId) ==> e < |t.outbox|)
    && (forall e :: 0 <= e < |t.outbox| ==> t'.outbox[e].itemId == t.outbox[e].itemId)
    && (forall e :: 0 <= e < |t.outbox| && OwnsRow(t, o, t.outbox[e].itemId) ==> t'.outbox[e] == t.outbox[e])
    && (forall l :: 0 <= l < |t'.logs| && OwnsRow(t, o, t'.logs[l].itemId) ==> l < |t.logs|)
  }

  lemma SettledQueueKeeps(s: State, s': State, o: nat)
    requires Core(s) && Settled(s, o) && QueueEffects(s, s')
    ensures SameOrder(s.db, s'.db, o) && Settled(s', o)
  {
    forall e | 0 <= e < |s.db.outbox| && OwnsRow(s.db, o, s.db.outbox[e].itemId)
      ensures s'.db.outbox[e] == s.db.outbox[e]
    {
      assert !HasActive(s.db.outbox, s.db.outbox[e].itemId);
    }
    forall i | 0 <= i < |s'.db.items| && s'.db.items[i].orderId == o ensures !Touched(s', i) {
      assert !Touched(s, i);
    }
  }

  /** Requests leave a closed order and its items alone. */
  lemma QuietLeavesClosed(s: State, a: Action, o: nat)
    requires IsQuiet(a) && o < |s.db.orders| && s.db.orders[o].status.Closed?
    ensures var t, t' := s.db, Apply(s, a).db;
            && o < |t'.orders| && t'.orders[o] == t.orders[o] && |t'.items| >= |t.items|
            && (forall i :: 0 <= i < |t.items| ==> t'.items[i].orderId == t.items[i].orderId)
            && (forall i :: 0 <= i < |t.items| && t.items[i].orderId == o ==> t'.items[i] == t.items[i])
            && (forall i :: |t.items| <= i < |t'.items| ==> t'.items[i].orderId != o)
  {}

  lemma QuietTicketsAvoidClosed(s: State, a: Action, o: nat)
    requires IsQuiet(a) && o < |s.db.orders| && s.db.orders[o].status.Closed?
    ensures var s' := Apply(s, a);
            forall r :: r in s'.tickets ==>
                          || (r in s.tickets && s'.tickets[r] == s.tickets[r])
                          || !OwnsRow(s.db, o, s'.tickets[r].ticket.itemId)
  {}

  lemma SettledQuietKeeps(s: State, s': State, o: nat)
    requires Core(s) && Settled(s, o) && Quiet(s, s') && Typed(s')
    requires o < |s'.db.orders| && s'.db.orders[o] == s.db.orders[o] && |s'.db.items| >= |s.db.items|
    requires forall i :: 0 <= i < |s.db.items| ==> s'.db.items[i].orderId == s.db.items[i].orderId
    requires forall i :: 0 <= i < |s.db.items| && s.db.items[i].orderId == o ==> s'.db.items[i] == s.db.items[i]
    requires forall i :: |s.db.items| <= i < |s'.db.items| ==> s'.db.items[i].orderId != o
    requires forall r :: r in s'.tickets ==>
                           (r in s.tickets && s'.tickets[r] == s.tickets[r])
                           || !OwnsRow(s.db, o, s'.tickets[r].ticket.itemId)
    ensures SameOrder(s.db, s'.db, o) && Settled(s', o)
  {
    forall i | 0 <= i < |s'.db.items| && s'.db.items[i].orderId == o ensures !Touched(s', i) {
      assert !Touched(s, i);
    }
  }

  lemma SettledQuiet(s: State, a: Action, o: nat)
    requires IsQuiet(a) && Core(s) && Settled(s, o)
    ensures SameOrder(s.db, Apply(s, a).db, o) && Settled(Apply(s, a), o)
  {
    QuietAction(s, a);
    QuietLeavesClosed(s, a, o);
    QuietTicketsAvoidClosed(s, a, o);
    QuietTyped(s, a);
    SettledQuietKeeps(s, Apply(s, a), o);
  }

  lemma SettledStep(s: State, a: Action, o: nat)
    requires Core(s) && Settled(s, o)
    ensures SameOrder(s.db, Apply(s, a).db, o) && Settled(Apply(s, a), o)
  {
    if IsQuiet(a) {
      SettledQuiet(s, a, o);
    } else {
      QueueStep(s, a);
      SettledQueueKeeps(s, Apply(s, a), o);
    }
  }

  lemma SameOrderTransitive(a: Tables, b: Tables, c: Tables, o: nat)
    requires SameOrder(a, b, o) && SameOrder(b, c, o)
    ensures SameOrder(a, c, o)
  {
    forall e | 0 <= e < |c.outbox| && OwnsRow(a, o, c.outbox[e].itemId) ensures e < |a.outbox| {
      assert OwnsRow(b, o, c.outbox[e].itemId);
      assert b.outbox[e].itemId == c.outbox[e].itemId;
    }
    forall l | 0 <= l < |c.logs| && OwnsRow(a, o, c.logs[l].itemId) ensures l < |a.logs| {
      assert OwnsRow(b, o, c.logs[l].itemId);
      assert c.logs[l] == b.logs[l];
    }
  }

  /** Once an order is CLOSED with no active row and no enqueue in flight, no later run changes
      its status, its items, their rows or their logs, or adds to them. */
  lemma {:induction false} ClosedOrdersFreeze(s: State, acts: seq<Action>, o: nat)
    requires Core(s) && Settled(s, o)
    ensures SameOrder(s.db, Run(s, acts).db, o) && Settled(Run(s, acts), o)
    decreases |acts|
  {
    if acts == [] {
    } else {
      var s' := Apply(s, acts[0]);
      SettledStep(s, acts[0], o);
      CoreStep(s, acts[0]);
      ClosedOrdersFreeze(s', acts[1..], o);
      SameOrderTransitive(s.db, s'.db, Run(s, acts).db, o);
    }
  }
}
