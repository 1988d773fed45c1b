/** What SAP accepted against what the item says: a payload is right until the item is edited. */
module Content {
  import opened Domain
  import opened Requests
  import opened Protocol
  import opened CoreInvariant
  import opened Audit
  import opened Statuses
  import opened Agreement
  import opened Progress

  /** The payload names the item's demand and its order, carries a status an item can be sent
      in, and says what the item says unless the item was edited after the payload was read. */
  predicate ContentOk(p: Payload, t: Tables, i: nat, version: nat, edits: nat) {
    && i < |t.items| && t.items[i].orderId < |t.orders|
    && p.orderNumber == t.orders[t.items[i].orderId].number
    && p.demandCode == t.items[i].demandCode
    && CanSync(p.status)
    && version <= edits
    && (version == edits ==> p.description == t.items[i].description && p.deliveryDate == t.items[i].deliveryDate)
  }

  predicate RowContent(s: State, e: nat)
    requires Typed(s) && e < |s.db.outbox|
  {
    var row := s.db.outbox[e];
    ContentOk(row.payload, s.db, row.itemId, s.hist.readAt[e], s.hist.edits[row.itemId])
  }

  predicate TicketContent(s: State, r: nat)
    requires Typed(s) && r in s.tickets
  {
    var k := s.tickets[r].ticket;
    ContentOk(BuildPayload(k.orderNumber, k.item), s.db, k.itemId, s.tickets[r].version, s.hist.edits[k.itemId])
  }

  predicate Contents(s: State)
    requires Typed(s)
  {
    && (forall e :: 0 <= e < |s.db.outbox| ==> RowContent(s, e))
    && (forall r :: r in s.tickets ==> TicketContent(s, r))
  }

  /** Between two states every payload that was right stays right: numbers and codes are kept,
      and content changes only with the edit count. */
  predicate ContentKept(s: State, s': State)
    requires Typed(s) && Typed(s')
  {
    && |s'.db.orders| >= |s.db.orders| && |s'.db.items| >= |s.db.items|
    && (forall o :: 0 <= o < |s.db.orders| ==> s'.db.orders[o].number == s.db.orders[o].number)
    && forall i :: 0 <= i < |s.db.items| ==>
                     var x, y := s.db.items[i], s'.db.items[i];
                     && y.orderId == x.orderId && y.demandCode == x.demandCode
                     && (s'.hist.edits[i] > s.hist.edits[i]
                         || (s'.hist.edits[i] == s.hist.edits[i]
                             && y.description == x.description && y.deliveryDate == x.deliveryDate))
  }

  lemma AddKeepsContent(s: State, a: Action)
    requires a.AddItem? && Typed(s) && Typed(Apply(s, a))
    ensures ContentKept(s, Apply(s, a))
  {}

  lemma EditKeepsContent(s: State, a: Action)
    requires a.EditItem? && Typed(s) && Typed(Apply(s, a))
    ensures ContentKept(s, Apply(s, a))
  {}

  lemma OtherKeepsContent(s: State, a: Action)
    requires IsQuiet(a) && !a.AddItem? && !a.EditItem? && Typed(s) && Typed(Apply(s, a))
    ensures ContentKept(s, Apply(s, a))
  {}

  lemma QuietKeepsContent(s: State, a: Action)
    requires IsQuiet(a) && Typed(s) && Typed(Apply(s, a))
    ensures ContentKept(s, Apply(s, a))
  {
    match a
    case AddItem(_, _, _, _, _, _) => AddKeepsContent(s, a);
    case EditItem(_, _, _, _, _) => EditKeepsContent(s, a);
    case _ => OtherKeepsContent(s, a);
  }

  lemma QueueKeepsContent(s: State, a: Action)
    requires !IsQuiet(a) && Core(s) && Typed(Apply(s, a))
    ensures ContentKept(s, Apply(s, a))
  {
    QueueStep(s, a);
  }

  lemma TicketOrigin(s: State, a: Action, r: nat)
    requires Core(s) && r in Apply(s, a).tickets
    ensures || (r in s.tickets && Apply(s, a).tickets[r] == s.tickets[r])
            || (a.Check? && a.req == r && Apply(s, a).db == s.db && Apply(s, a).hist == s.hist
                && CheckEnqueue(s.db, a.o, a.i, a.today).Ok?
                && Apply(s, a).tickets[r] == InFlight(CheckEnqueue(s.db, a.o, a.i, a.today).value, EditsOf(s, a.i)))
  {
    if !IsQuiet(a) {
      QueueStep(s, a);
    }
  }

  lemma NewTicketContent(s: State, s': State, r: nat)
    requires Typed(s) && Contents(s) && Typed(s') && ContentKept(s, s')
    requires r in s'.tickets
    requires || (r in s.tickets && s'.tickets[r] == s.tickets[r])
             || (s'.db == s.db && s'.hist == s.hist
                 && var k := s'.tickets[r].ticket;
                 && k.itemId < |s.db.items| && k.item == s.db.items[k.itemId] && CanSync(k.item.status)
                 && k.orderNumber == s.db.orders[k.item.orderId].number
                 && s'.tickets[r].version == s.hist.edits[k.itemId])
    ensures TicketContent(s', r)
  {
    if r in s.tickets {
      assert TicketContent(s, r);
    }
  }

  lemma ReadAtKept(s: State, a: Action, e: nat)
    requires Core(s) && e < |s.db.outbox|
    ensures e < |Apply(s, a).hist.readAt| && Apply(s, a).hist.readAt[e] == s.hist.readAt[e]
  {}

  lemma OldRowContent(s: State, a: Action, e: nat)
    requires Core(s) && Contents(s) && Typed(Apply(s, a)) && ContentKept(s, Apply(s, a))
    requires e < |s.db.outbox|
    ensures e < |Apply(s, a).db.outbox| && RowContent(Apply(s, a), e)
  {
    RowStep(s, a, e);
    ReadAtKept(s, a, e);
    assert RowContent(s, e);
  }

  lemma NewRowContent(s: State, a: Action, e: nat)
    requires Core(s) && Contents(s) && Typed(Apply(s, a)) && ContentKept(s, Apply(s, a))
    requires e < |Apply(s, a).db.outbox|
    ensures RowContent(Apply(s, a), e)
  {
    if e < |s.db.outbox| {
      OldRowContent(s, a, e);
    } else if a.Insert? {
      InsertShape(s, a.req, a.rfc);
      assert TicketContent(s, a.req);
    } else {
      NoInsertSameLength(s, a);
    }
  }

  lemma ContentsStep(s: State, a: Action)
    requires Core(s) && Contents(s)
    ensures Core(Apply(s, a)) && Contents(Apply(s, a))
  {
    CoreStep(s, a);
    if IsQuiet(a) {
      QuietKeepsContent(s, a);
    } else {
      QueueKeepsContent(s, a);
    }
    forall e | 0 <= e < |Apply(s, a).db.outbox| ensures RowContent(Apply(s, a), e) {
      NewRowContent(s, a, e);
    }
    forall r | r in Apply(s, a).tickets ensures TicketContent(Apply(s, a), r) {
      TicketOrigin(s, a, r);
      NewTicketContent(s, Apply(s, a), r);
    }
  }

  lemma {:induction false} ContentsRun(s: State, acts: seq<Action>)
    requires Core(s) && Contents(s)
    ensures Core(Run(s, acts)) && Contents(Run(s, acts))
    decreases |acts|
  {
    if acts == [] {
    } else {
      ContentsStep(s, acts[0]);
      ContentsRun(Apply(s, acts[0]), acts[1..]);
    }
  }

  /** The newest log of a SYNCED item is the acceptance of a COMPLETED row. The payload SAP
      accepted carries the item's demand code and order number, and, if no edit was accepted
      since the enqueue read the item, its description and delivery date. */
  lemma SyncedContentIsCurrent(acts: seq<Action>, i: nat)
    requires i < |Run(INIT, acts).db.items| && Run(INIT, acts).db.items[i].status.Synced?
    ensures var s := Run(INIT, acts);
            var newest := NewestLog(s.db.logs, i);
            && Core(s) && newest.Some?
            && var e := s.hist.origin[newest.value];
            && e < |s.db.outbox| && s.db.outbox[e].status.Completed? && s.db.outbox[e].itemId == i
            && s.db.logs[newest.value].request == s.db.outbox[e].payload
            && ContentOk(s.db.outbox[e].payload, s.db, i, s.hist.readAt[e], s.hist.edits[i])
            && exists c :: 0 <= c < |s.hist.calls| && s.hist.calls[c].id == e && Accepted(s.hist.calls[c].answer)
                           && s.hist.calls[c].sent.payload == s.db.outbox[e].payload
  {
    InitIsCore();
    ContentsRun(INIT, acts);
    StatusStandsOnLogs(acts, i);
    var s := Run(INIT, acts);
    var l := NewestLog(s.db.logs, i).value;
    NewestRecord(s, i, l);
    var e := s.hist.origin[l];
    assert EntryAt(s, e);
    assert RowContent(s, e);
    CallsOfAnswers(s.hist.calls, e);
    var call := CallsOf(s.hist.calls, e)[s.db.outbox[e].attempts - 1];
    var c :| 0 <= c < |s.hist.calls| && s.hist.calls[c] == call;
  }
}
