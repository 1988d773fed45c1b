/** Runs, worked out step by step, in which something a reader might expect fails. */
module Examples {
  import opened Domain
  import opened Queue
  import opened Requests
  import opened Protocol

  const ITEM := Item(0, "D", "new", 9, ItemStatus.Updated)

  /** An order with one edited item. */
  const READY := State(Tables([Order("PO", InProgress, "me")], [ITEM], [], []), map[], map[], History([], [], [1], []))
  const TICKET := InFlight(Ticket(0, "PO", ITEM), 1)

  const ROW := Entry(0, "PO", "F", Payload("PO", "D", "new", 9, ItemStatus.Updated), OutboxStatus.Pending, 0, 3, None,
                     None)

  const SETUP: seq<Action> :=
    [CreateOrder("PO", "me"), AddItem(0, "D", "old", Day(9), 1, true)] + [EditItem(0, 0, Some("new"), None, 1)]

  lemma SetupReady()
    ensures Run(INIT, SETUP) == READY
  {
    RunAppend(INIT, [CreateOrder("PO", "me"), AddItem(0, "D", "old", Day(9), 1, true)],
              [EditItem(0, 0, Some("new"), None, 1)]);
    RunTwo(INIT, CreateOrder("PO", "me"), AddItem(0, "D", "old", Day(9), 1, true));
    var s1 := Apply(INIT, CreateOrder("PO", "me"));
    assert s1.db == Tables([Order("PO", Open, "me")], [], [], []);
    var s2 := Apply(s1, AddItem(0, "D", "old", Day(9), 1, true));
    assert s2.db.items == [Item(0, "D", "old", 9, ItemStatus.Pending)] && s2.hist.edits == [0];
    assert s2.db.orders == [Order("PO", InProgress, "me")];
    var s3 := Apply(s2, EditItem(0, 0, Some("new"), None, 1));
    assert s3.db.items == [ITEM] && s3.hist.edits == [1];
    assert s3 == READY;
    assert [EditItem(0, 0, Some("new"), None, 1)][1..] == [];
    assert Run(s3, []) == s3;
  }

  // ---- overlapping enqueues

  lemma ChecksReady()
    ensures Run(READY, [Check(1, 0, 0, 1), Check(2, 0, 0, 1)]) == READY.(tickets := map[1 := TICKET, 2 := TICKET])
  {
    RunTwo(READY, Check(1, 0, 0, 1), Check(2, 0, 0, 1));
    var s1 := Apply(READY, Check(1, 0, 0, 1));
    assert s1.tickets == map[1 := TICKET];
    var s2 := Apply(s1, Check(2, 0, 0, 1));
    assert s2.tickets == map[1 := TICKET, 2 := TICKET];
  }

  lemma InsertsReady(s: State)
    requires s == READY.(tickets := map[1 := TICKET, 2 := TICKET])
    ensures Run(s, [Insert(1, "F"), Insert(2, "F")]).db.outbox == [ROW, ROW]
  {
    RunTwo(s, Insert(1, "F"), Insert(2, "F"));
    var s3 := Apply(s, Insert(1, "F"));
    assert s3.db.outbox == [ROW] && s3.tickets == map[2 := TICKET];
    var s4 := Apply(s3, Insert(2, "F"));
    assert s4.db.outbox == [ROW, ROW];
  }

  /** Two enqueues whose checks both come before either insert. */
  const OVERLAP: seq<Action> := [Check(1, 0, 0, 1), Check(2, 0, 0, 1)] + [Insert(1, "F"), Insert(2, "F")]

  /** Nothing in the schema stops such overlap: it ends with two active rows for one item. */
  lemma OverlapDoublesTheQueue()
    ensures var rows := Run(INIT, SETUP + OVERLAP).db.outbox;
            |rows| == 2 && Active(rows[0]) && Active(rows[1]) && rows[0].itemId == rows[1].itemId
  {
    RunAppend(INIT, SETUP, OVERLAP);
    SetupReady();
    RunAppend(READY, [Check(1, 0, 0, 1), Check(2, 0, 0, 1)], [Insert(1, "F"), Insert(2, "F")]);
    ChecksReady();
    InsertsReady(READY.(tickets := map[1 := TICKET, 2 := TICKET]));
  }

  // ---- an edit while the row is being sent

  const SENT := READY.(db := READY.db.(outbox := [Claimed(ROW)]), hands := map[7 := Hand(map[0 := Claimed(ROW)], None)],
                    hist := History([], [], [1], [1]))

  lemma Enqueued()
    ensures Run(READY, [Check(1, 0, 0, 1), Insert(1, "F")])
         == READY.(db := READY.db.(outbox := [ROW]), hist := History([], [], [1], [1]))
  {
    RunTwo(READY, Check(1, 0, 0, 1), Insert(1, "F"));
    var s1 := Apply(READY, Check(1, 0, 0, 1));
    assert s1.tickets == map[1 := TICKET];
    var s2 := Apply(s1, Insert(1, "F"));
    assert s2.db.outbox == [ROW] && s2.tickets == map[] && s2.hist.readAt == [1];
  }

  lemma ClaimedAlone(s: State)
    requires s == READY.(db := READY.db.(outbox := [ROW]), hist := History([], [], [1], [1]))
    ensures Apply(s, Claim(7, 10, {})) == SENT
  {
    ClaimIsUnique(s.db.outbox, {}, 10, {0});
    var s' := Apply(s, Claim(7, 10, {}));
    assert s'.db.outbox == [Claimed(ROW)];
    assert Snapshots(s'.db.outbox, {0}) == map[0 := Claimed(ROW)];
    assert s'.hands == SENT.hands;
  }

  const LATE := EditItem(0, 0, Some("newer"), None, 1)
  const YES := Reply(true, "ok", "")

  lemma EditedAndCalled(s: State)
    requires s == Run(SENT, [LATE, CallSap(7, 0, YES)])
    ensures s.db == SENT.db.(items := [ITEM.(description := "newer")])
    ensures HandOf(s, 7) == Hand(map[0 := Claimed(ROW)], Some(Attempt(0, YES)))
  {
    RunTwo(SENT, LATE, CallSap(7, 0, YES));
    var s4 := Apply(SENT, LATE);
    assert s4.db.items == [ITEM.(description := "newer")];
    var s5 := Apply(s4, CallSap(7, 0, YES));
    assert s5.db == s4.db;
  }

  lemma ClosedLate(s: State)
    requires s.db == SENT.db.(items := [ITEM.(description := "newer")])
    requires HandOf(s, 7) == Hand(map[0 := Claimed(ROW)], Some(Attempt(0, YES)))
    ensures Apply(s, Close(7, 5)).db.items == [ITEM.(description := "newer", status := ItemStatus.Synced)]
    ensures Apply(s, Close(7, 5)).db.outbox == [CompletedRow(Claimed(ROW), 5)]
  {}

  const SEND: seq<Action> := [Check(1, 0, 0, 1), Insert(1, "F")] + [Claim(7, 10, {})]
  const FINISH: seq<Action> := [LATE, CallSap(7, 0, YES)] + [Close(7, 5)]

  lemma SendEnds()
    ensures Run(READY, SEND) == SENT
  {
    RunAppend(READY, [Check(1, 0, 0, 1), Insert(1, "F")], [Claim(7, 10, {})]);
    Enqueued();
    var s2 := Run(READY, [Check(1, 0, 0, 1), Insert(1, "F")]);
    RunOne(s2, Claim(7, 10, {}));
    ClaimedAlone(s2);
  }

  /** The item ends SYNCED though SAP accepted older content than it shows. */
  lemma LateEditIsLost()
    ensures var t := Run(INIT, SETUP + (SEND + FINISH)).db;
            && |t.items| == 1 && |t.outbox| == 1
            && t.items[0].status.Synced? && t.outbox[0].status.Completed?
            && t.outbox[0].payload.description != t.items[0].description
  {
    RunAppend(INIT, SETUP, SEND + FINISH);
    SetupReady();
    RunAppend(READY, SEND, FINISH);
    SendEnds();
    RunAppend(SENT, [LATE, CallSap(7, 0, YES)], [Close(7, 5)]);
    var s5 := Run(SENT, [LATE, CallSap(7, 0, YES)]);
    EditedAndCalled(s5);
    RunOne(s5, Close(7, 5));
    ClosedLate(s5);
  }

  // ---- the status of an earlier row

  const NO := Reply(false, "no", "refused")

  /** After the first row completed. */
  const SYNCED := READY.(db := Tables(READY.db.orders, [ITEM.(status := ItemStatus.Synced)],
                                   [CompletedRow(Claimed(ROW), 5)], [LogFor(ROW, YES)]),
                      hands := map[7 := EMPTY_HAND],
                      hist := History([CallFor(0, ROW, YES)], [0], [1], [1]))

  lemma FirstCompletes()
    ensures Run(SENT, [CallSap(7, 0, YES), Close(7, 5)]) == SYNCED
  {
    RunTwo(SENT, CallSap(7, 0, YES), Close(7, 5));
    var s1 := Apply(SENT, CallSap(7, 0, YES));
    assert s1.hands == map[7 := Hand(map[0 := Claimed(ROW)], Some(Attempt(0, YES)))];
    var s2 := Apply(s1, Close(7, 5));
    assert s2.db.outbox == SYNCED.db.outbox && s2.db.items == SYNCED.db.items;
    assert s2.db.logs == SYNCED.db.logs && s2.hist == SYNCED.hist;
    assert map[0 := Claimed(ROW)] - {0} == map[];
    assert s2.hands == SYNCED.hands;
  }

  const ITEM2 := ITEM.(description := "newer")
  const ROW2 := ROW.(payload := ROW.payload.(description := "newer"))

  lemma EditedAgain()
    ensures var s := Run(SYNCED, [LATE, Check(2, 0, 0, 1)]);
            s == SYNCED.(db := SYNCED.db.(items := [ITEM2]), tickets := map[2 := InFlight(Ticket(0, "PO", ITEM2), 2)],
                      hist := SYNCED.hist.(edits := [2]))
  {
    RunTwo(SYNCED, LATE, Check(2, 0, 0, 1));
    var s1 := Apply(SYNCED, LATE);
    assert s1.db.items == [ITEM2] && s1.hist.edits == [2];
    assert !HasActive(s1.db.outbox, 0);
    var s2 := Apply(s1, Check(2, 0, 0, 1));
    assert s2.tickets == map[2 := InFlight(Ticket(0, "PO", ITEM2), 2)];
  }

  lemma SecondSent(s: State)
    requires s == SYNCED.(db := SYNCED.db.(items := [ITEM2]), tickets := map[2 := InFlight(Ticket(0, "PO", ITEM2), 2)],
                       hist := SYNCED.hist.(edits := [2]))
    ensures var s' := Run(s, [Insert(2, "F"), Claim(7, 10, {})]);
            && s'.db == s.db.(outbox := [CompletedRow(Claimed(ROW), 5), Claimed(ROW2)])
            && HandOf(s', 7) == Hand(map[1 := Claimed(ROW2)], None)
  {
    RunTwo(s, Insert(2, "F"), Claim(7, 10, {}));
    var s1 := Apply(s, Insert(2, "F"));
    assert s1.db.outbox == [CompletedRow(Claimed(ROW), 5), ROW2];
    ClaimIsUnique(s1.db.outbox, {}, 10, {1});
    var s2 := Apply(s1, Claim(7, 10, {}));
    assert s2.db.outbox == [CompletedRow(Claimed(ROW), 5), Claimed(ROW2)];
    assert Snapshots(s2.db.outbox, {1}) == map[1 := Claimed(ROW2)];
  }

  lemma SecondRejected(s: State)
    requires s.db == SYNCED.db.(items := [ITEM2], outbox := [CompletedRow(Claimed(ROW), 5), Claimed(ROW2)])
    requires HandOf(s, 7) == Hand(map[1 := Claimed(ROW2)], None)
    ensures var t := Run(s, [CallSap(7, 1, NO), Close(7, 6)]).db;
            && |t.items| == 1 && t.items[0].orderId == 0
            && |t.outbox| == 2 && t.outbox[0] == CompletedRow(Claimed(ROW), 5)
            && t.logs == [LogFor(ROW, YES), LogFor(ROW2, NO)]
  {
    RunTwo(s, CallSap(7, 1, NO), Close(7, 6));
    var s1 := Apply(s, CallSap(7, 1, NO));
    assert HandOf(s1, 7) == Hand(map[1 := Claimed(ROW2)], Some(Attempt(1, NO)));
    var s2 := Apply(s1, Close(7, 6));
    assert s2.db.logs == [LogFor(ROW, YES), LogFor(ROW2, NO)];
  }

  const RESEND: seq<Action> :=
    SEND + ([CallSap(7, 0, YES), Close(7, 5)]
            + ([LATE, Check(2, 0, 0, 1)] + ([Insert(2, "F"), Claim(7, 10, {})] + [CallSap(7, 1, NO), Close(7, 6)])))

  lemma ResendEnds()
    ensures Run(READY, RESEND) == Run(Run(Run(SYNCED, [LATE, Check(2, 0, 0, 1)]), [Insert(2, "F"), Claim(7, 10, {})]),
                                      [CallSap(7, 1, NO), Close(7, 6)])
  {
    RunAppend(READY, SEND, [CallSap(7, 0, YES), Close(7, 5)]
                           + ([LATE, Check(2, 0, 0, 1)]
                              + ([Insert(2, "F"), Claim(7, 10, {})] + [CallSap(7, 1, NO), Close(7, 6)])));
    SendEnds();
    RunAppend(SENT, [CallSap(7, 0, YES), Close(7, 5)],
              [LATE, Check(2, 0, 0, 1)] + ([Insert(2, "F"), Claim(7, 10, {})] + [CallSap(7, 1, NO), Close(7, 6)]));
    FirstCompletes();
    RunAppend(SYNCED, [LATE, Check(2, 0, 0, 1)], [Insert(2, "F"), Claim(7, 10, {})] + [CallSap(7, 1, NO), Close(7, 6)]);
    RunAppend(Run(SYNCED, [LATE, Check(2, 0, 0, 1)]), [Insert(2, "F"), Claim(7, 10, {})],
              [CallSap(7, 1, NO), Close(7, 6)]);
  }

  lemma NewestOfTwo(a: Log, b: Log)
    requires a.itemId == b.itemId == 0
    ensures LogsNewestFirst([a, b], 0) == [b, a]
  {
    assert [a, b][..1] == [a] && [a][..0] == [];
    assert LogsNewestFirst([a], 0) == [a];
  }

  /** The response about a COMPLETED row shows the FAILED log of a later row. */
  lemma EarlierRowShowsALaterLog()
    ensures var t := Run(INIT, SETUP + RESEND).db;
            var v := ViewOf(t, 0, 0, 0);
            && v.Ok? && v.value.row.status.Completed?
            && v.value.latestLog.Some? && v.value.latestLog.value.status.Failed?
            && v.value.latestLog.value.request != v.value.row.payload
  {
    RunAppend(INIT, SETUP, RESEND);
    SetupReady();
    ResendEnds();
    EditedAgain();
    SecondSent(Run(SYNCED, [LATE, Check(2, 0, 0, 1)]));
    var s := Run(Run(SYNCED, [LATE, Check(2, 0, 0, 1)]), [Insert(2, "F"), Claim(7, 10, {})]);
    SecondRejected(s);
    NewestOfTwo(LogFor(ROW, YES), LogFor(ROW2, NO));
  }

  // ---- requests that read first and write later

  const DONE: seq<Action> := [CallSap(7, 0, YES), Close(7, 5)]

  lemma DoneEnds()
    ensures Run(INIT, SETUP + SEND) == SENT && Run(SENT, DONE) == SYNCED
  {
    RunAppend(INIT, SETUP, SEND);
    SetupReady();
    SendEnds();
    FirstCompletes();
  }

  /** An edit that reads the item before a close and the row after it leaves the item SYNCED with
      content SAP never saw. */
  lemma EditStaysSynced()
    ensures var s := Run(INIT, SETUP + SEND);
            var t1, t2 := s.db, Run(s, DONE).db;
            && |t1.items| == |t2.items| == |t2.outbox| == 1
            && CheckEdit(t1, t1, 0, 0, Some("newer"), None, None, 1).None?
            && var r := EditWritten(t2, 0, 0, EditedRow(t2.items[0], t1.items[0], Some("newer"), None));
            && r.Ok? && r.value.items[0].status.Synced?
            && t2.outbox[0].status.Completed? && t2.outbox[0].payload.description != r.value.items[0].description
  {
    DoneEnds();
  }

  /** A check that reads the item before a close and looks for active rows after it enqueues a
      SYNCED item, which stays SYNCED while its new row waits. */
  lemma SyncedItemIsSentAgain()
    ensures var s := Run(INIT, SETUP + SEND);
            var t1, t2 := s.db, Run(s, DONE).db;
            var k := CheckInReads(t1, t1, t2, 0, 0, 1);
            && k.Ok?
            && var r := InsertTx(t2, k.value, "F");
            && r.Ok? && |r.value.items| == 1 && |r.value.outbox| == 2
            && r.value.items[0].status.Synced? && r.value.outbox[1].status.Pending? && r.value.outbox[1].itemId == 0
  {
    DoneEnds();
    assert !HasActive(SYNCED.db.outbox, 0);
  }

  /** A status change that reads an order IN_PROGRESS and writes after another one has closed it
      opens it again. */
  lemma StaleStatusReopens()
    ensures var s := Run(INIT, SETUP + (SEND + DONE));
            var t' := Run(s, [SetStatus(0, Closed)]).db;
            && CheckStatus(s.db, s.db, 0, Some(InProgress)).None?
            && |t'.orders| == 1 && t'.orders[0].status.Closed?
            && var r := WithOrderStatus(t', 0, InProgress);
            r.Ok? && r.value.orders[0].status.InProgress?
  {
    RunAppend(INIT, SETUP, SEND + DONE);
    SetupReady();
    RunAppend(READY, SEND, DONE);
    SendEnds();
    FirstCompletes();
    RunOne(SYNCED, SetStatus(0, Closed));
    assert SYNCED.db.items[0].orderId == 0 && SYNCED.db.items[0].status.Synced?;
    assert ItemsOf(SYNCED.db.items[..0], 0) == [];
    assert ItemsOf(SYNCED.db.items, 0) == SYNCED.db.items;
  }
}
