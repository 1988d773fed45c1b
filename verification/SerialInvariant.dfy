/** What holds while enqueue requests for one item do not overlap: one active row per item,
    and item status, outbox and logs that agree. The check and the insert of an enqueue stay
    separate steps, with workers, cancels and edits running in between. */
module SerialInvariant {
  import opened Domain
  import opened Queue
  import opened Requests
  import opened Protocol
  import opened CoreInvariant
  import opened Statuses

  /** An active row is its item's newest row, so an item has at most one active row. */
  predicate ActiveIsLatest(rows: seq<Entry>) {
    forall e, f :: 0 <= e < f < |rows| && Active(rows[e]) ==> rows[f].itemId != rows[e].itemId
  }

  /** An enqueue that has passed its check: nothing of the item is active, and the item can
      have left the status it was read with only by an edit. */
  predicate TicketOk(k: Ticket, t: Tables) {
    && k.itemId < |t.items|
    && !HasActive(t.outbox, k.itemId)
    && CanSync(k.item.status)
    && CanSync(t.items[k.itemId].status)
    && (k.item.status.Updated? ==> t.items[k.itemId].status.Updated?)
  }

  predicate TicketsOk(s: State) {
    forall r :: r in s.tickets ==> TicketOk(s.tickets[r].ticket, s.db)
  }

  /** Logs of an item follow the order of its rows. */
  predicate OriginsOrdered(logs: seq<Log>, origin: seq<nat>)
    requires |logs| == |origin|
  {
    forall j, k :: 0 <= j < k < |logs| && logs[j].itemId == logs[k].itemId ==> origin[j] <= origin[k]
  }

  /** An item with an active row is UPDATED, or FAILED by that very row. */
  predicate ItemOk(status: ItemStatus, rows: seq<Entry>, logs: seq<Log>, origin: seq<nat>, i: nat)
    requires |logs| == |origin|
  {
    var n := NewestLog(logs, i);
    HasActive(rows, i) ==>
      || status.Updated?
      || (status.Failed? && n.Some?
          && forall e :: 0 <= e < |rows| && rows[e].itemId == i && Active(rows[e]) ==> origin[n.value] == e)
  }

  predicate ItemsOk(s: State)
    requires |s.db.logs| == |s.hist.origin|
  {
    forall i :: 0 <= i < |s.db.items| ==>
                  ItemOk(s.db.items[i].status, s.db.outbox, s.db.logs, s.hist.origin, i)
  }

  predicate Serial(s: State) {
    && |s.db.logs| == |s.hist.origin|
    && ActiveIsLatest(s.db.outbox)
    && OriginsOrdered(s.db.logs, s.hist.origin)
    && TicketsOk(s)
    && ItemsOk(s)
  }

  // ---- steps

  /** Rows that keep their item, their activity and their recorded attempts look the same to
      every item. */
  predicate SameActivity(rows: seq<Entry>, rows': seq<Entry>) {
    && |rows'| == |rows|
    && forall e :: 0 <= e < |rows| ==> rows'[e].itemId == rows[e].itemId && (Active(rows'[e]) <==> Active(rows[e]))
                                       && ClosedAttempts(rows'[e]) == ClosedAttempts(rows[e])
  }

  lemma SameHasActive(rows: seq<Entry>, rows': seq<Entry>, i: nat)
    requires SameActivity(rows, rows')
    ensures HasActive(rows', i) <==> HasActive(rows, i)
  {
    if e :| 0 <= e < |rows| && rows[e].itemId == i && Active(rows[e]) {
      assert rows'[e].itemId == i && Active(rows'[e]);
    }
    if e :| 0 <= e < |rows'| && rows'[e].itemId == i && Active(rows'[e]) {
      assert rows[e].itemId == i && Active(rows[e]);
    }
  }

  lemma SerialSameActivity(s: State, s': State)
    requires Serial(s) && SameActivity(s.db.outbox, s'.db.outbox)
    requires s'.db.items == s.db.items && s'.db.logs == s.db.logs && s'.tickets == s.tickets
    requires s'.hist.origin == s.hist.origin
    ensures Serial(s')
  {
    forall i: nat ensures HasActive(s'.db.outbox, i) <==> HasActive(s.db.outbox, i) {
      SameHasActive(s.db.outbox, s'.db.outbox, i);
    }
    forall i | 0 <= i < |s'.db.items|
      ensures ItemOk(s'.db.items[i].status, s'.db.outbox, s'.db.logs, s'.hist.origin, i)
    {
      assert ItemOk(s.db.items[i].status, s.db.outbox, s.db.logs, s.hist.origin, i);
    }
  }

  lemma SerialAfterClaim(s: State, w: nat, ids: set<nat>)
    requires Core(s) && Serial(s)
    requires forall x :: x in ids ==> x < |s.db.outbox| && Eligible(s.db.outbox[x])
    ensures Serial(AfterClaim(s, w, ids))
  {
    SerialSameActivity(s, AfterClaim(s, w, ids));
  }

  lemma SerialClaim(s: State, w: nat, limit: nat, skip: set<nat>)
    requires Core(s) && Serial(s)
    ensures Serial(Apply(s, Claim(w, limit, skip)))
  {
    if HandOf(s, w) == EMPTY_HAND {
      ClaimContract(s.db.outbox, skip, limit);
      ClaimShape(s, w, limit, skip);
      SerialAfterClaim(s, w, ClaimIds(s.db.outbox, skip, limit));
    }
  }

  lemma QuietNewTicket(s: State, a: Action)
    requires IsQuiet(a)
    ensures var s' := Apply(s, a);
            && (forall r :: r in s'.tickets ==>
                              (r in s.tickets && s'.tickets[r] == s.tickets[r]) || TicketOk(s'.tickets[r].ticket, s.db))
            && (a.Check? ==> s'.db == s.db)
            && (!a.Check? ==> forall r :: r in s'.tickets ==> r in s.tickets && s'.tickets[r] == s.tickets[r])
  {}

  lemma SerialQuietKeeps(s: State, s': State)
    requires Core(s) && Serial(s) && Quiet(s, s')
    requires |s'.db.items| >= |s.db.items|
    requires forall i :: 0 <= i < |s.db.items| ==>
                           s'.db.items[i].status == s.db.items[i].status || s'.db.items[i].status.Updated?
    requires forall i :: |s.db.items| <= i < |s'.db.items| ==> s'.db.items[i].status.Pending?
    requires forall r :: r in s'.tickets ==>
                           (r in s.tickets && s'.tickets[r] == s.tickets[r]) || TicketOk(s'.tickets[r].ticket, s.db)
    ensures Serial(s')
  {
    forall r | r in s'.tickets ensures TicketOk(s'.tickets[r].ticket, s'.db) {
      assert TicketOk(s'.tickets[r].ticket, s.db);
    }
    forall i | 0 <= i < |s'.db.items|
      ensures ItemOk(s'.db.items[i].status, s'.db.outbox, s'.db.logs, s'.hist.origin, i)
    {
      if i < |s.db.items| {
        assert ItemOk(s.db.items[i].status, s.db.outbox, s.db.logs, s.hist.origin, i);
      }
    }
  }

  lemma SerialQuiet(s: State, a: Action)
    requires IsQuiet(a) && Core(s) && Serial(s)
    ensures Serial(Apply(s, a))
  {
    QuietAction(s, a);
    QuietStatuses(s, a);
    QuietNewTicket(s, a);
    SerialQuietKeeps(s, Apply(s, a));
  }

  /** A new row of item `i` makes only that item active. */
  lemma NewRowActivity(rows: seq<Entry>, rows': seq<Entry>, i: nat, j: nat)
    requires |rows'| == |rows| + 1 && rows'[..|rows|] == rows && rows'[|rows|].itemId == i && j != i
    ensures HasActive(rows', j) <==> HasActive(rows, j)
  {
    assert forall e :: 0 <= e < |rows| ==> rows'[e] == rows[e];
    if e :| 0 <= e < |rows'| && rows'[e].itemId == j && Active(rows'[e]) {
      assert rows[e].itemId == j && Active(rows[e]);
    }
    if e :| 0 <= e < |rows| && rows[e].itemId == j && Active(rows[e]) {
      assert rows'[e].itemId == j && Active(rows'[e]);
    }
  }

  lemma NewRowItemOk(status: ItemStatus, rows: seq<Entry>, rows': seq<Entry>, logs: seq<Log>, origin: seq<nat>, i: nat,
                     j: nat)
    requires |rows'| == |rows| + 1 && rows'[..|rows|] == rows && rows'[|rows|].itemId == i && j != i
    requires |logs| == |origin| && ItemOk(status, rows, logs, origin, j)
    ensures ItemOk(status, rows', logs, origin, j)
  {
    NewRowActivity(rows, rows', i, j);
    assert forall e :: 0 <= e < |rows| ==> rows'[e] == rows[e];
  }

  lemma SerialInsertKeeps(s: State, s': State, req: nat)
    requires Core(s) && Serial(s) && NoOverlap(s) && req in s.tickets
    requires s'.tickets == s.tickets - {req}
    requires |s'.db.outbox| == |s.db.outbox| + 1 && s'.db.outbox[..|s.db.outbox|] == s.db.outbox
    requires var k := s.tickets[req].ticket;
             && s'.db.outbox[|s.db.outbox|].itemId == k.itemId
             && |s'.db.items| == |s.db.items|
             && s'.db.items == (if k.item.status.Failed?
                                then s.db.items[k.itemId := s.db.items[k.itemId].(status := ItemStatus.Updated)]
                                else s.db.items)
    requires s'.db.logs == s.db.logs && s'.hist.origin == s.hist.origin
    ensures Serial(s')
  {
    var k := s.tickets[req].ticket;
    assert TicketOk(k, s.db);
    assert forall e :: 0 <= e < |s.db.outbox| ==> s'.db.outbox[e] == s.db.outbox[e];
    forall r | r in s'.tickets ensures TicketOk(s'.tickets[r].ticket, s'.db) {
      assert TicketOk(s.tickets[r].ticket, s.db);
      NewRowActivity(s.db.outbox, s'.db.outbox, k.itemId, s.tickets[r].ticket.itemId);
    }
    forall i | 0 <= i < |s'.db.items|
      ensures ItemOk(s'.db.items[i].status, s'.db.outbox, s'.db.logs, s'.hist.origin, i)
    {
      assert ItemOk(s.db.items[i].status, s.db.outbox, s.db.logs, s.hist.origin, i);
      if i != k.itemId {
        NewRowActivity(s.db.outbox, s'.db.outbox, k.itemId, i);
        NewRowItemOk(s.db.items[i].status, s.db.outbox, s'.db.outbox, s.db.logs, s.hist.origin, k.itemId, i);
      }
    }
  }

  lemma SerialInsert(s: State, req: nat, rfc: string)
    requires Core(s) && Serial(s) && NoOverlap(s)
    ensures Serial(Apply(s, Insert(req, rfc)))
  {
    InsertShape(s, req, rfc);
    if req in s.tickets {
      SerialInsertKeeps(s, Apply(s, Insert(req, rfc)), req);
    }
  }

  lemma OriginsStep(s: State, s': State, id: nat)
    requires Core(s) && Serial(s) && id < |s.db.outbox| && Active(s.db.outbox[id])
    requires |s'.db.logs| == |s'.hist.origin|
    requires s.db.logs <= s'.db.logs && s.hist.origin <= s'.hist.origin && |s'.db.logs| <= |s.db.logs| + 1
    requires |s'.db.logs| == |s.db.logs| + 1 ==>
               s'.hist.origin[|s.db.logs|] == id && s'.db.logs[|s.db.logs|].itemId == s.db.outbox[id].itemId
    ensures OriginsOrdered(s'.db.logs, s'.hist.origin)
  {
    forall j, k | 0 <= j < k < |s'.db.logs| && s'.db.logs[j].itemId == s'.db.logs[k].itemId
      ensures s'.hist.origin[j] <= s'.hist.origin[k]
    {
      assert s'.db.logs[j] == s.db.logs[j] && s'.hist.origin[j] == s.hist.origin[j];
      if k < |s.db.logs| {
        assert s'.db.logs[k] == s.db.logs[k] && s'.hist.origin[k] == s.hist.origin[k];
      }
    }
  }

  /** A closed or cancelled row: its item is the only one that sees a difference, and that
      item has no enqueue in flight. */
  lemma OneRowKeeps(s: State, s': State, id: nat)
    requires Core(s) && Serial(s) && id < |s.db.outbox| && Active(s.db.outbox[id])
    requires |s'.db.outbox| == |s.db.outbox| && s'.db.outbox == s.db.outbox[id := s'.db.outbox[id]]
    requires var i := s.db.outbox[id].itemId;
             && s'.db.outbox[id].itemId == i
             && |s'.db.items| == |s.db.items|
             && s'.db.items == s.db.items[i := s'.db.items[i]]
    requires s'.tickets == s.tickets
    requires |s'.db.logs| == |s'.hist.origin|
    requires s.db.logs <= s'.db.logs && s.hist.origin <= s'.hist.origin && |s'.db.logs| <= |s.db.logs| + 1
    requires |s'.db.logs| == |s.db.logs| + 1 ==>
               s'.hist.origin[|s.db.logs|] == id && s'.db.logs[|s.db.logs|].itemId == s.db.outbox[id].itemId
    requires ItemOk(s'.db.items[s.db.outbox[id].itemId].status, s'.db.outbox, s'.db.logs, s'.hist.origin,
                    s.db.outbox[id].itemId)
    ensures Serial(s')
  {
    var item := s.db.outbox[id].itemId;
    var rows, rows' := s.db.outbox, s'.db.outbox;
    OriginsStep(s, s', id);
    forall i: nat | i != item ensures HasActive(rows', i) ==> HasActive(rows, i) {
      if HasActive(rows', i) {
        var e :| 0 <= e < |rows'| && rows'[e].itemId == i && Active(rows'[e]);
        assert rows[e].itemId == i && Active(rows[e]);
      }
    }
    forall r | r in s'.tickets ensures TicketOk(s'.tickets[r].ticket, s'.db) {
      assert TicketOk(s.tickets[r].ticket, s.db);
      assert s.tickets[r].ticket.itemId != item;
    }
    forall i | 0 <= i < |s'.db.items|
      ensures ItemOk(s'.db.items[i].status, rows', s'.db.logs, s'.hist.origin, i)
    {
      if i != item {
        assert ItemOk(s.db.items[i].status, rows, s.db.logs, s.hist.origin, i);
        SameNewest(s.db.logs, s'.db.logs, i);
      }
    }
  }

  lemma SerialCloseKeeps(s: State, s': State, w: nat, id: nat, a: Answer, now: int)
    requires Core(s) && Serial(s) && w in s.hands && id < |s.db.outbox| && s.db.outbox[id].status.Processing?
    requires s' == AfterClose(s, w, id, a, now)
    ensures Serial(s')
  {
    var row := s.db.outbox[id];
    var rows' := s'.db.outbox;
    assert EntryAt(s, id);
    assert NewestLog(s'.db.logs, row.itemId) == Some(|s.db.logs|);
    forall e | 0 <= e < |rows'| && rows'[e].itemId == row.itemId && Active(rows'[e]) ensures e == id {
      assert s.db.outbox[e].itemId == row.itemId;
    }
    OneRowKeeps(s, s', id);
  }

  lemma SerialClose(s: State, w: nat, now: int)
    requires Core(s) && Serial(s)
    ensures Serial(Apply(s, Close(w, now)))
  {
    if HandOf(s, w).current.Some? {
      CloseShape(s, w, now);
      var cur := HandOf(s, w).current.value;
      SerialCloseKeeps(s, AfterClose(s, w, cur.id, cur.answer, now), w, cur.id, cur.answer, now);
    }
  }

  lemma SerialCancel(s: State, o: nat, i: nat, id: nat, now: int)
    requires Core(s) && Serial(s)
    ensures Serial(Apply(s, Cancel(o, i, id, now)))
  {
    CancelShape(s, o, i, id, now);
    var s' := Apply(s, Cancel(o, i, id, now));
    if s' != s {
      OneRowKeeps(s, s', id);
    }
  }

  lemma SerialStep(s: State, a: Action)
    requires Core(s) && Serial(s) && NoOverlap(s)
    ensures Serial(Apply(s, a))
  {
    match a
    case Insert(req, rfc) => SerialInsert(s, req, rfc);
    case Claim(w, limit, skip) => SerialClaim(s, w, limit, skip);
    case CallSap(w, id, answer) =>
      assert Apply(s, a).db == s.db && Apply(s, a).tickets == s.tickets && Apply(s, a).hist.origin == s.hist.origin;
      SerialSameActivity(s, Apply(s, a));
    case Close(w, now) => SerialClose(s, w, now);
    case Cancel(o, i, id, now) => SerialCancel(s, o, i, id, now);
    case _ => SerialQuiet(s, a);
  }

  lemma {:induction false} SerialRunKeeps(s: State, acts: seq<Action>)
    requires Core(s) && Serial(s) && SerialRun(s, acts)
    ensures Core(Run(s, acts)) && Serial(Run(s, acts))
    decreases |acts|
  {
    if acts == [] {
    } else {
      CoreStep(s, acts[0]);
      SerialStep(s, acts[0]);
      SerialRunKeeps(Apply(s, acts[0]), acts[1..]);
    }
  }

  lemma ReachableIsSerial(acts: seq<Action>)
    requires SerialRun(INIT, acts)
    ensures Core(Run(INIT, acts)) && Serial(Run(INIT, acts))
  {
    SerialRunKeeps(INIT, acts);
  }
}
