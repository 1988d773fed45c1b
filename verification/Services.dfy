/** The services and the worker over a database that can fail: each request leaves the tables
    either as they were or as the protocol's action leaves them. */
module Services {
  import opened Domain
  import opened Requests
  import opened Protocol
  import opened CoreInvariant
  import opened SerialInvariant
  import opened Database
  import opened Paging
  import opened Listings
  import opened Interference

  /** One call as SAP saw it: what it was handed and what it answered. */
  datatype Exchange = Exchange(sent: Document, answer: Answer)

  /** SAP answers the n-th call with the n-th answer, whatever that is. */
  class SapClient {
    const answers: nat -> Answer
    var exchanges: seq<Exchange>

    constructor (answers: nat -> Answer)
      ensures this.answers == answers && exchanges == []
    {
      this.answers := answers;
      exchanges := [];
    }

    method SyncDemandUpdate(rfc: string, payload: Payload) returns (a: Answer)
      modifies this
      ensures a == answers(|old(exchanges)|)
      ensures exchanges == old(exchanges) + [Exchange(Document(rfc, payload), a)]
    {
      a := answers(|exchanges|);
      exchanges := exchanges + [Exchange(Document(rfc, payload), a)];
    }
  }

  lemma AddKeeps(s: State, a: Action)
    requires a.AddItem?
    ensures Core(s) ==> Core(Apply(s, a))
    ensures Core(s) && Serial(s) ==> Serial(Apply(s, a))
  {
    if Core(s) {
      CoreStep(s, a);
      if Serial(s) {
        SerialQuiet(s, a);
      }
    }
  }

  class OrderService {
    const db: Database
    const orders: OrderRepository
    const items: ItemRepository

    predicate Valid() {
      orders.db == db && items.db == db
    }

    constructor (db: Database)
      ensures this.db == db && Valid()
    {
      this.db := db;
      orders := new OrderRepository(db);
      items := new ItemRepository(db);
    }

    /** One autocommitted insert. */
    method CreateOrder(number: string, createdBy: string) returns (r: Result<()>)
      requires Valid() && db.staged.None?
      modifies db
      ensures db.staged.None?
      ensures Ran(CreateOrderTx(old(db.committed), number, createdBy), old(db.committed), db.committed, r, db.Healthy())
    {
      if number == "" {
        return Err(OrderNumberRequired);
      }
      r := orders.Create(number, createdBy);
    }

    /** The rules are checked on what was read, the order first and then its items; the status is
        written over what others have left by then. `others(n)` is what everyone else leaves in the
        n-th pause. */
    method UpdateOrder(o: nat, next: Option<OrderStatus>, others: nat -> Tables) returns (r: Result<()>)
      requires Valid() && db.staged.None?
      modifies db
      ensures db.staged.None?
      ensures var t := old(db.committed);
              match CheckStatus(t, others(0), o, next)
              case Some(e) => Refused(e, {t, others(0)}, db.committed, r, db.Healthy())
              case None => Wrote(WithOrderStatus(others(1), o, next.value), {t, others(0)}, others(1), db.committed, r,
                                 db.Healthy())
    {
      if next.None? {
        return Err(StatusRequired);
      }
      if !IsValid(next.value) {
        return Err(InvalidOrderStatus);
      }
      var order :- orders.GetById(o, others(0));
      RulesIgnoreOrder(order.0.status, next.value, ItemsOf(others(0).items, o));
      match CanTransitionTo(order.0.status, next.value, order.1)
      case Some(e) => return Err(e);
      case None =>
        db.OthersCommit(others(1));
        r := orders.Update(o, next.value);
    }

    /** A page below 1 becomes page 1, a limit below 1 becomes 20 and one above 100 becomes 100; the
        page shown is then that page of the filtered list exactly when its offset fits 64 bits or
        wraps past the end. The count is taken first, the page from what others have left by then. */
    method ListOrders(page: int, limit: int, status: Option<OrderStatus>, later: Tables)
      returns (r: Result<PagedResult<Order>>)
      requires Valid() && db.staged.None? && page <= MAX_INT64 && |later.orders| <= MAX_INT64
      modifies db
      ensures var p := if page < 1 then 1 else page;
              var l := if limit < 1 then 20 else if limit > 100 then 100 else limit;
              var counted, shown := Filtered(old(db.committed).orders, status), Filtered(later.orders, status);
              && (r.Ok? ==>
                    && r.value.page == p && r.value.limit == l && r.value.total == |counted|
                    && r.value.totalPages == PageCount(l, |counted|)
                    && (r.value.data == PageOf(shown, p, l)
                        <==> (p - 1) * l <= MAX_INT64 || Wrap64((p - 1) * l) >= |shown|))
              && (db.Healthy() && (p - 1) * l <= MAX_INT64 ==> r.Ok?)
    {
      var p, l := page, limit;
      if p < 1 {
        p := DEFAULT_PAGE;
      }
      if l < 1 {
        l := DEFAULT_LIMIT;
      }
      if l > MAX_LIMIT {
        l := MAX_LIMIT;
      }
      Offset(p, l);
      SelectPageExactIff(Filtered(later.orders, status), p, l);
      r := orders.List(p, l, status, later);
    }

    /** The checks on what was read, then the two writes, each over what others have left by then. */
    method AddRows(o: nat, code: string, description: string, date: DateText, today: int, others: nat -> Tables)
      returns (r: Result<()>)
      requires Valid() && db.staged.None?
      modifies db
      ensures db.staged.None?
      ensures var t := old(db.committed);
              match CheckAddItem(t, o, code, description, date, today)
              case Err(e) => Refused(e, {t, others(0)}, db.committed, r, db.Healthy())
              case Ok(day) =>
                var added := WithItem(others(1), o, code, description, day);
                var promotes := added.Ok? && t.orders[o].status.Open?;
                var promoted := WithOrderStatus(others(2), o, InProgress);
                && (db.committed in {t, others(0), others(1)} || added == Ok(db.committed)
                    || (promotes && (db.committed == others(2) || promoted == Ok(db.committed))))
                && (r.Ok? ==> (if promotes then promoted else added) == Ok(db.committed))
                && (r.Err? && r.error != Error.Database ==> promotes && promoted == Err(r.error))
                && (db.Healthy() ==> r.Ok? == (if promotes then promoted else added).Ok?)
    {
      if code == "" || description == "" || date.Blank? {
        return Err(ItemFieldsRequired);
      }
      var order :- orders.GetById(o, others(0));
      if order.0.status.Closed? {
        return Err(OrderClosed);
      }
      if date.Malformed? {
        return Err(InvalidDeliveryDate);
      }
      if IsDeliveryDateInPast(date.day, today) {
        return Err(DeliveryDateInPast);
      }
      db.OthersCommit(others(1));
      var _ :- items.Create(o, code, description, date.day);
      if order.0.status.Open? {
        db.OthersCommit(others(2));
        var _ :- orders.Update(o, InProgress);
      }
      return Ok(());
    }

    /** Two autocommitted writes without a transaction: the tables end as they were, with the
        item only, or with the item and the promoted order, and each of the three is a state of
        the protocol that keeps its invariants. */
    method AddItem(o: nat, code: string, description: string, date: DateText, today: int, ghost s: State)
      returns (r: Result<()>, ghost s': State)
      requires Valid() && db.staged.None? && s.db == db.committed
      modifies db
      ensures db.staged.None? && db.committed == s'.db
      ensures var half := Apply(s, Action.AddItem(o, code, description, date, today, false));
              var full := Apply(s, Action.AddItem(o, code, description, date, today, true));
              s' == s || s' == half || s' == full
      ensures Core(s) ==> Core(s')
      ensures Core(s) && Serial(s) ==> Serial(s')
      ensures var spec := AddItemTx(s.db, o, code, description, date, today, true);
              && (r.Ok? ==> spec == Ok(db.committed))
              && (r.Err? && r.error != Error.Database ==> spec == Err(r.error) && s' == s)
              && (db.Healthy() ==> r.Ok? == spec.Ok? && (r.Err? ==> spec == Err(r.error)))
    {
      var t, half := db.committed, AddItemTx(db.committed, o, code, description, date, today, false);
      r := AddRows(o, code, description, date, today, n => if n < 2 || half.Err? then t else half.value);
      ghost var first := Action.AddItem(o, code, description, date, today, false);
      ghost var both := Action.AddItem(o, code, description, date, today, true);
      s' := if db.committed == s.db then s
      else if db.committed == Apply(s, first).db then Apply(s, first)
      else Apply(s, both);
      AddKeeps(s, first);
      AddKeeps(s, both);
    }

    /** The order, the item and the row are read one after another, and the row is written back
        over what others have left by then. */
    method UpdateItem(o: nat, i: nat, description: Option<string>, date: Option<DateText>, status: Option<ItemStatus>,
                      today: int, others: nat -> Tables)
      returns (r: Result<()>)
      requires Valid() && db.staged.None?
      modifies db
      ensures db.staged.None?
      ensures var t := old(db.committed);
              var seen := {t, others(0), others(1), others(2)};
              match CheckEdit(t, others(1), o, i, description, date, status, today)
              case Some(e) => Refused(e, seen, db.committed, r, db.Healthy())
              case None =>
                if HasItem(others(2), o, i) then
                  var row := EditedRow(others(2).items[i], others(1).items[i], description, DayOf(date));
                  Wrote(EditWritten(others(3), o, i, row), seen, others(3), db.committed, r, db.Healthy())
                else Refused(NotFound, seen, db.committed, r, db.Healthy())
    {
      if status.Some? {
        return Err(ItemStatusImmutable);
      }
      if description.None? && date.None? {
        return Err(Validation);
      }
      var order :- orders.GetById(o, others(0));
      if order.0.status.Closed? {
        return Err(OrderClosed);
      }
      db.OthersCommit(others(1));
      var item :- items.GetById(o, i);
      var day: Option<int> := None;
      if date.Some? {
        if !date.value.Day? {
          return Err(InvalidDeliveryDate);
        }
        if IsDeliveryDateInPast(date.value.day, today) {
          return Err(DeliveryDateInPast);
        }
        day := Some(date.value.day);
      }
      var promoted: Option<ItemStatus> := None;
      if ShouldPromoteOnEdit(item.status) {
        promoted := Some(ItemStatus.Updated);
      }
      db.OthersCommit(others(2));
      r := items.Update(o, i, description, day, promoted, others(3));
    }
  }

  /** The whole system after the first `n` pauses. */
  function After(s: State, pauses: nat -> seq<Action>, n: nat): State {
    if n == 0 then s else Run(After(s, pauses, n - 1), pauses(n - 1))
  }

  /** Where reads `k` amount to the check that the protocol would make, the request is one that
      has checked; otherwise the protocol knows nothing of it. */
  function Asked(s: State, req: nat, o: nat, i: nat, today: int, k: Result<Ticket>): State {
    if Requests.CheckEnqueue(s.db, o, i, today) == k then Apply(s, Check(req, o, i, today)) else s
  }

  lemma {:induction false} AfterKeeps(s: State, pauses: nat -> seq<Action>, n: nat, req: nat)
    requires Core(s) && req !in s.tickets && forall m :: WithoutRequest(pauses(m), req)
    ensures Core(After(s, pauses, n)) && req !in After(s, pauses, n).tickets
  {
    if n == 0 {
    } else {
      AfterKeeps(s, pauses, n - 1, req);
      CoreRun(After(s, pauses, n - 1), pauses(n - 1));
      TicketStays(After(s, pauses, n - 1), pauses(n - 1), req);
    }
  }

  /** A ticket outlives what others do between check and insert. */
  lemma TicketWaits(s: State, req: nat, o: nat, i: nat, today: int, k: Result<Ticket>, between: seq<Action>)
    requires Core(s) && req !in s.tickets && WithoutRequest(between, req)
    ensures var seen := Run(Asked(s, req, o, i, today, k), between);
            && Core(seen) && |s.db.items| <= |seen.db.items|
            && (k.Ok? && Requests.CheckEnqueue(s.db, o, i, today) == k ==>
                  req in seen.tickets && seen.tickets[req].ticket == k.value)
  {
    CoreStep(s, Check(req, o, i, today));
    var asked := Asked(s, req, o, i, today, k);
    assert asked.db == s.db;
    TicketStays(asked, between, req);
    ItemsStay(asked, between);
  }

  lemma InsertedBy(s: State, req: nat, rfc: string)
    requires Core(s)
    ensures req in s.tickets ==> InsertTx(s.db, s.tickets[req].ticket, rfc) == Ok(Apply(s, Insert(req, rfc)).db)
  {}

  /** What was read can be inserted whatever others do meanwhile, and when the reads amount to one
      check, inserting it is the protocol's insert. */
  lemma EnqueueRefines(s: State, pauses: nat -> seq<Action>, o: nat, i: nat, today: int, req: nat, rfc: string)
    requires Core(s) && req !in s.tickets && forall m :: WithoutRequest(pauses(m), req)
    ensures var base := After(s, pauses, 3);
            var k := CheckInReads(s.db, After(s, pauses, 2).db, base.db, o, i, today);
            var seen := Run(Asked(base, req, o, i, today, k), pauses(3));
            k.Ok? ==>
              && InsertTx(seen.db, k.value, rfc).Ok?
              && (Requests.CheckEnqueue(base.db, o, i, today) == k ==>
                    InsertTx(seen.db, k.value, rfc) == Ok(Apply(seen, Insert(req, rfc)).db))
  {
    var base := After(s, pauses, 3);
    var k := CheckInReads(s.db, After(s, pauses, 2).db, base.db, o, i, today);
    AfterKeeps(s, pauses, 2, req);
    AfterKeeps(s, pauses, 3, req);
    ItemsStay(After(s, pauses, 2), pauses(2));
    TicketWaits(base, req, o, i, today, k, pauses(3));
    InsertedBy(Run(Asked(base, req, o, i, today, k), pauses(3)), req, rfc);
  }

  /** The protocol steps of one attempt: the call, what others do meanwhile, then a close that
      commits or one that does not. */
  function AttemptSteps(w: nat, id: nat, a: Answer, between: seq<Action>, recorded: bool, now: int): seq<Action> {
    [CallSap(w, id, a)] + between + [if recorded then Close(w, now) else CloseLost(w)]
  }

  lemma AttemptRun(s: State, w: nat, id: nat, a: Answer, between: seq<Action>, recorded: bool, now: int)
    ensures Run(s, AttemptSteps(w, id, a, between, recorded, now))
         == Apply(Run(Apply(s, CallSap(w, id, a)), between), if recorded then Close(w, now) else CloseLost(w))
  {
    var last := if recorded then Close(w, now) else CloseLost(w);
    RunAppend(s, [CallSap(w, id, a)] + between, [last]);
    RunAppend(s, [CallSap(w, id, a)], between);
    RunOne(s, CallSap(w, id, a));
    RunOne(Run(s, [CallSap(w, id, a)] + between), last);
  }

  lemma AttemptEnds(seen: State, w: nat, id: nat, entry: Entry, a: Answer, now: int)
    requires Core(seen) && id in HandOf(seen, w).todo && HandOf(seen, w).todo[id] == entry
    requires HandOf(seen, w).current == Some(Attempt(id, a))
    ensures CloseTx(seen.db, id, entry, a, now) == Ok(Apply(seen, Close(w, now)).db)
    ensures Apply(seen, CloseLost(w)).db == seen.db
    ensures HandOf(Apply(seen, Close(w, now)), w) == Hand(HandOf(seen, w).todo - {id}, None)
    ensures HandOf(Apply(seen, CloseLost(w)), w) == Hand(HandOf(seen, w).todo - {id}, None)
  {
    assert HandOk(seen, w) && InHandOk(seen, w, id);
  }

  /** What an attempt does to the tables and to the worker's hand, whatever others do meanwhile. */
  lemma AttemptRuns(s: State, w: nat, id: nat, entry: Entry, a: Answer, between: seq<Action>, now: int)
    requires Core(s) && WithoutWorker(between, w)
    requires id in HandOf(s, w).todo && HandOf(s, w).todo[id] == entry && HandOf(s, w).current.None?
    ensures var seen := Run(Apply(s, CallSap(w, id, a)), between);
            var closed := Run(s, AttemptSteps(w, id, a, between, true, now));
            var lost := Run(s, AttemptSteps(w, id, a, between, false, now));
            && CloseTx(seen.db, id, entry, a, now) == Ok(closed.db)
            && lost.db == seen.db
            && HandOf(closed, w) == HandOf(lost, w) == Hand(HandOf(s, w).todo - {id}, None)
  {
    var called := Apply(s, CallSap(w, id, a));
    CoreStep(s, CallSap(w, id, a));
    CoreRun(called, between);
    HandStays(called, between, w);
    AttemptRun(s, w, id, a, between, true, now);
    AttemptRun(s, w, id, a, between, false, now);
    AttemptEnds(Run(called, between), w, id, entry, a, now);
  }

  class SyncService {
    const db: Database
    const orders: OrderRepository
    const items: ItemRepository
    const syncLogs: SyncRepository
    const outbox: OutboxRepository
    const sap: SapClient
    const rfc: string

    predicate Valid() {
      orders.db == db && items.db == db && syncLogs.db == db && outbox.db == db
    }

    constructor (db: Database, sap: SapClient, rfc: string)
      ensures this.db == db && this.sap == sap && this.rfc == rfc && Valid()
    {
      this.db := db;
      this.sap := sap;
      this.rfc := rfc;
      orders := new OrderRepository(db);
      items := new ItemRepository(db);
      syncLogs := new SyncRepository(db);
      outbox := new OutboxRepository(db);
    }

    /** The reads before the enqueue transaction, with others acting between them. */
    method CheckEnqueue(o: nat, i: nat, today: int, others: nat -> Tables) returns (r: Result<Ticket>)
      requires Valid() && db.staged.None?
      modifies db
      ensures db.staged.None? && db.committed in {old(db.committed), others(0), others(1), others(2)}
      ensures var spec := CheckInReads(old(db.committed), others(1), others(2), o, i, today);
              && (r == spec || r == Err(Error.Database))
              && (r.Ok? ==> db.committed == others(2))
              && (db.Healthy() ==> r == spec)
    {
      var order :- orders.GetById(o, others(0));
      if order.0.status.Closed? {
        return Err(OrderClosed);
      }
      db.OthersCommit(others(1));
      var item :- items.GetById(o, i);
      if !CanSync(item.status) {
        return Err(ItemNotSyncable);
      }
      if IsDeliveryDateInPast(item.deliveryDate, today) {
        return Err(DeliveryDateInPast);
      }
      db.OthersCommit(others(2));
      var active :- outbox.HasActiveByItemId(i);
      if active {
        return Err(SyncAlreadyActive);
      }
      return Ok(Ticket(i, order.0.number, item));
    }

    /** The callback of the enqueue transaction. */
    method InsertRows(k: Ticket) returns (r: Result<()>)
      requires Valid() && db.staged.Some?
      modifies db
      ensures db.staged.Some? && db.committed == old(db.committed)
      ensures r.Ok? ==> InsertTx(old(db.View()), k, rfc) == Ok(db.View())
      ensures r.Err? && r.error != Error.Database ==> InsertTx(old(db.View()), k, rfc) == r.PropagateFailure<Tables>()
      ensures db.Healthy() ==> r.Ok? == InsertTx(old(db.View()), k, rfc).Ok?
    {
      if k.item.status.Failed? {
        var _ :- items.UpdateStatus(k.itemId, ItemStatus.Updated);
      }
      r := outbox.Create(k.itemId, k.orderNumber, rfc, BuildPayload(k.orderNumber, k.item));
    }

    method InsertEntry(k: Ticket) returns (r: Result<()>)
      requires Valid() && db.staged.None?
      modifies db
      ensures db.staged.None?
      ensures db.committed == old(db.committed) || InsertTx(old(db.committed), k, rfc) == Ok(db.committed)
      ensures r.Ok? ==> InsertTx(old(db.committed), k, rfc) == Ok(db.committed)
      ensures r.Err? && r.error != Error.Database ==> InsertTx(old(db.committed), k, rfc).Err?
      ensures db.Healthy() ==> r.Ok? == InsertTx(old(db.committed), k, rfc).Ok?
    {
      var _ :- db.Begin();
      r := InsertRows(k);
      if r.IsFailure() {
        db.Rollback();
        return;
      }
      r := db.Commit();
    }

    /** The reads, then the transaction over what others have left by then. */
    method EnqueueRows(o: nat, i: nat, today: int, others: nat -> Tables) returns (r: Result<()>)
      requires Valid() && db.staged.None?
      modifies db
      ensures db.staged.None?
      ensures var t := old(db.committed);
              var seen := {t, others(0), others(1), others(2)};
              match CheckInReads(t, others(1), others(2), o, i, today)
              case Err(e) => Refused(e, seen, db.committed, r, db.Healthy())
              case Ok(k) =>
                && (db.committed in seen + {others(3)} || InsertTx(others(3), k, rfc) == Ok(db.committed))
                && (r.Ok? ==> InsertTx(others(3), k, rfc) == Ok(db.committed))
                && (r.Err? && r.error != Error.Database ==> InsertTx(others(3), k, rfc).Err?)
                && (db.Healthy() ==> r.Ok? == InsertTx(others(3), k, rfc).Ok?)
    {
      var k :- CheckEnqueue(o, i, today, others);
      db.OthersCommit(others(3));
      r := InsertEntry(k);
    }

    /** `s` is the whole system as the request comes in, and `pauses(n)` is what everyone else does
        in the n-th pause: three between the reads, one between the check and the insert. Whatever
        fails, the tables end as the others left them or with the insert of what was read; success
        means the latter. When the reads amount to one check, that is the protocol's insert. */
    method EnqueueSync(o: nat, i: nat, today: int, s: State, req: nat, pauses: nat -> seq<Action>)
      returns (r: Result<()>)
      requires Valid() && db.staged.None? && s.db == db.committed && Core(s)
      requires req !in s.tickets && forall n :: WithoutRequest(pauses(n), req)
      modifies db
      ensures db.staged.None?
      ensures var base := After(s, pauses, 3);
              var k := CheckInReads(s.db, After(s, pauses, 2).db, base.db, o, i, today);
              var seen := Run(Asked(base, req, o, i, today, k), pauses(3));
              && (db.committed in {s.db, After(s, pauses, 1).db, After(s, pauses, 2).db, base.db, seen.db}
                  || (k.Ok? && InsertTx(seen.db, k.value, rfc) == Ok(db.committed)))
              && (r.Ok? ==> k.Ok? && InsertTx(seen.db, k.value, rfc) == Ok(db.committed))
              && (r.Err? && r.error != Error.Database ==> k == Err(r.error))
              && (db.Healthy() ==> (r.Ok? <==> k.Ok?))
              && (k.Ok? && Requests.CheckEnqueue(base.db, o, i, today) == k ==>
                    InsertTx(seen.db, k.value, rfc) == Ok(Apply(seen, Insert(req, rfc)).db))
    {
      var base := After(s, pauses, 3);
      var k := CheckInReads(s.db, After(s, pauses, 2).db, base.db, o, i, today);
      var seen := Run(Asked(base, req, o, i, today, k), pauses(3));
      EnqueueRefines(s, pauses, o, i, today, req, rfc);
      r := EnqueueRows(o, i, today, (n: nat) => if n < 3 then After(s, pauses, n + 1).db else seen.db);
    }

    /** The callback of the cancel transaction. */
    method CancelRows(i: nat, id: nat, now: int, later: Tables) returns (r: Result<()>)
      requires Valid() && db.staged == Some(db.committed) && i < |db.committed.items|
      modifies db
      ensures db.staged.Some?
      ensures var t := old(db.committed);
              if Cancellable(t, i, id) then
                && db.committed == t
                && (r.Ok? ==>
                      WithItemStatus(WithCancelled(t, i, id, now).value, i, ItemStatus.Updated) == Ok(db.View()))
                && (r.Err? ==> r.error == Error.Database)
                && (db.Healthy() ==> r.Ok?)
              else
                && (db.committed == t || db.committed == later)
                && r.Err?
                && (r.error == Error.Database || (r.error == CancelReason(later, i, id) && db.committed == later))
                && (db.Healthy() ==> r.error != Error.Database)
    {
      var _ :- outbox.Cancel(i, id, now, later);
      r := items.UpdateStatus(i, ItemStatus.Updated);
    }

    /** Others act between the item read and the transaction (`first`), and between the update and
        the read that explains why it matched nothing (`second`). The tables end as the others left
        them or as the protocol's cancel leaves them; a row refused because it was not PENDING is
        called not found when it is PENDING again. */
    method CancelSync(o: nat, i: nat, id: nat, now: int, s: State, first: seq<Action>, second: seq<Action>)
      returns (r: Result<()>)
      requires Valid() && db.staged.None? && s.db == db.committed && Core(s)
      modifies db
      ensures db.staged.None?
      ensures var s1 := Run(s, first);
              var s2 := Run(s1, second);
              && db.committed in {s.db, s1.db, Apply(s1, Cancel(o, i, id, now)).db, s2.db}
              && (r.Ok? ==> CancelTx(s1.db, o, i, id, now) == Ok(db.committed))
              && (r.Err? && r.error != Error.Database ==>
                    if HasItem(s.db, o, i) then
                      !Cancellable(s1.db, i, id) && db.committed == s2.db && r.error == CancelReason(s2.db, i, id)
                    else r.error == NotFound && db.committed == s.db)
              && (db.Healthy() ==> (r.Ok? <==> HasItem(s.db, o, i) && Cancellable(s1.db, i, id))
                                   && (r.Err? ==> r.error != Error.Database))
    {
      var _ :- items.GetById(o, i);
      ItemsStay(s, first);
      db.OthersCommit(Run(s, first).db);
      var _ :- db.Begin();
      r := CancelRows(i, id, now, Run(Run(s, first), second).db);
      if r.IsFailure() {
        db.Rollback();
        return;
      }
      r := db.Commit();
    }

    /** The callback that records an answered call. */
    method RecordReply(id: nat, entry: Entry, a: Answer, now: int) returns (r: Result<()>)
      requires Valid() && db.staged.Some? && a.Reply?
      modifies db
      ensures db.staged.Some? && db.committed == old(db.committed)
      ensures r.Ok? ==> CloseTx(old(db.View()), id, entry, a, now) == Ok(db.View())
      ensures db.Healthy() ==> r.Ok? == CloseTx(old(db.View()), id, entry, a, now).Ok?
    {
      var status, itemStatus, message := SyncStatus.Success, ItemStatus.Synced, "";
      if !a.success {
        status, itemStatus, message := SyncStatus.Failed, ItemStatus.Failed, a.text;
      }
      var log := Log(entry.itemId, entry.rfc, entry.payload, Some(a.response), status, None);
      if message != "" {
        log := log.(error := Some(message));
      }
      var _ :- syncLogs.Create(log);
      var _ :- items.UpdateStatus(entry.itemId, itemStatus);
      if status.Success? {
        r := outbox.MarkCompleted(id, now);
        return;
      }
      var retry := entry.attempts < entry.maxAttempts;
      r := outbox.MarkFailed(id, message, retry, now);
    }

    /** The callback that records a call that never got an answer. */
    method RecordTransportError(id: nat, entry: Entry, message: string, retry: bool, now: int, ghost applied: bool)
      returns (r: Result<()>)
      requires Valid() && db.staged.Some? && retry == Retries(entry)
      modifies db
      ensures db.staged.Some? && db.committed == old(db.committed)
      ensures r.Ok? ==> CloseTx(old(db.View()), id, entry, TransportError(message, applied), now) == Ok(db.View())
      ensures db.Healthy() ==> r.Ok? == CloseTx(old(db.View()), id, entry, TransportError(message, applied), now).Ok?
    {
      var log := Log(entry.itemId, entry.rfc, entry.payload, None, SyncStatus.Failed, Some(message));
      var _ :- syncLogs.Create(log);
      var itemStatus := ItemStatus.Failed;
      if retry {
        itemStatus := ItemStatus.Updated;
      }
      var _ :- items.UpdateStatus(entry.itemId, itemStatus);
      r := outbox.MarkFailed(id, message, retry, now);
    }

    /** The closing transaction around either callback: nothing or all of it. */
    method CloseAttempt(id: nat, entry: Entry, a: Answer, now: int) returns (r: Result<()>)
      requires Valid() && db.staged.None?
      modifies db
      ensures db.staged.None?
      ensures db.committed == old(db.committed) || CloseTx(old(db.committed), id, entry, a, now) == Ok(db.committed)
      ensures r.Ok? ==> CloseTx(old(db.committed), id, entry, a, now) == Ok(db.committed)
      ensures db.Healthy() ==> r.Ok? == CloseTx(old(db.committed), id, entry, a, now).Ok?
    {
      var _ :- db.Begin();
      if a.TransportError? {
        r := RecordTransportError(id, entry, a.text, entry.attempts < entry.maxAttempts, now, a.applied);
      } else {
        r := RecordReply(id, entry, a, now);
      }
      if r.IsFailure() {
        db.Rollback();
        return;
      }
      r := db.Commit();
    }

    /** One call to SAP, which is handed the row's own function and payload, and its closing
        transaction, with everyone else's steps `between` the two. Whatever fails, the tables end
        as the protocol's call, those steps and a close or a lost close leave them, and `recorded`
        says which. A transport error that will be retried is reported even though it was
        recorded. */
    method ProcessOutboxEntry(id: nat, entry: Entry, now: int, s: State, w: nat, between: seq<Action>)
      returns (r: Result<()>, recorded: bool, a: Answer)
      requires Valid() && db.staged.None? && s.db == db.committed && Core(s) && WithoutWorker(between, w)
      requires id in HandOf(s, w).todo && HandOf(s, w).todo[id] == entry && HandOf(s, w).current.None?
      modifies db, sap
      ensures db.staged.None?
      ensures sap.exchanges == old(sap.exchanges) + [Exchange(Document(entry.rfc, entry.payload), a)]
      ensures var s' := Run(s, AttemptSteps(w, id, a, between, recorded, now));
              && db.committed == s'.db
              && HandOf(s', w) == Hand(HandOf(s, w).todo - {id}, None)
              && (r.Ok? ==> recorded)
              && (db.Healthy() ==> recorded
                                   && (r.Ok? <==> !(a.TransportError? && Retries(entry)))
                                   && (r.Err? ==> r.error == SapSyncFailed(a.text)))
    {
      a := sap.SyncDemandUpdate(entry.rfc, entry.payload);
      var seen := Run(Apply(s, CallSap(w, id, a)), between);
      AttemptRuns(s, w, id, entry, a, between, now);
      db.OthersCommit(seen.db);
      r := CloseAttempt(id, entry, a, now);
      recorded := CloseTx(seen.db, id, entry, a, now) == Ok(db.committed);
      if a.TransportError? && r.Ok? && entry.attempts < entry.maxAttempts {
        r := Err(SapSyncFailed(a.text));
      }
    }

    /** The response about one row that has been read; its log is looked up by item. */
    method BuildSyncStatusResponse(id: nat, row: Entry) returns (r: Result<SyncView>)
      requires Valid()
      modifies db`tick
      ensures var spec := ViewWith(id, row, db.View().logs);
              (r == Ok(spec) || r == Err(Error.Database)) && (db.Healthy() ==> r == Ok(spec))
    {
      var latest: Option<Log> := None;
      if row.status.Completed? || row.status.Failed? {
        var logs :- syncLogs.ListByItemId(row.itemId);
        if |logs| > 0 {
          latest := Some(logs[0]);
        }
      }
      return Ok(SyncView(id, row, latest));
    }

    /** The item, the row and the logs are read one after another, and others act in between. */
    method GetLatestSyncStatus(o: nat, i: nat, s: State, first: seq<Action>, second: seq<Action>)
      returns (r: Result<SyncView>)
      requires Valid() && db.staged.None? && s.db == db.committed && Core(s)
      modifies db
      ensures var rows, logs := Run(s, first).db.outbox, Run(Run(s, first), second).db.logs;
              var spec := if HasItem(s.db, o, i) then LatestOf(rows, logs, i) else Err(NotFound);
              (r == spec || r == Err(Error.Database)) && (db.Healthy() ==> r == spec)
    {
      var _ :- items.GetById(o, i);
      db.OthersCommit(Run(s, first).db);
      var id :- outbox.GetLatestByItemId(i);
      var row := db.View().outbox[id];
      db.OthersCommit(Run(Run(s, first), second).db);
      r := BuildSyncStatusResponse(id, row);
    }

    method GetSyncStatus(o: nat, i: nat, id: nat, s: State, first: seq<Action>, second: seq<Action>)
      returns (r: Result<SyncView>)
      requires Valid() && db.staged.None? && s.db == db.committed && Core(s)
      modifies db
      ensures var rows, logs := Run(s, first).db.outbox, Run(Run(s, first), second).db.logs;
              var spec := if HasItem(s.db, o, i) then RowOf(rows, logs, i, id) else Err(NotFound);
              (r == spec || r == Err(Error.Database)) && (db.Healthy() ==> r == spec)
    {
      var _ :- items.GetById(o, i);
      db.OthersCommit(Run(s, first).db);
      var row :- outbox.GetById(i, id);
      db.OthersCommit(Run(Run(s, first), second).db);
      r := BuildSyncStatusResponse(id, row);
    }
  }
}
