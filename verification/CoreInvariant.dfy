/** What every reachable state satisfies, however enqueues overlap, workers crash or
    transactions roll back: rows keep their shape, a claimed row is owned by one hand whose
    snapshot is the stored row, and each row's calls and logs tell the same story. */
module CoreInvariant {
  import opened Domain
  import opened Queue
  import opened Requests
  import opened Protocol

  // ---- a row's calls and logs

  /** SAP's answers to the calls made for row `e`, in order. */
  function Answers(calls: seq<Call>, e: nat): seq<Answer> {
    if calls == [] then []
    else
      var last := |calls| - 1;
      var rest := Answers(calls[..last], e);
      if calls[last].id == e then rest + [calls[last].answer] else rest
  }

  /** The logs written for row `e`, in order. */
  function Trail(logs: seq<Log>, origin: seq<nat>, e: nat): (mine: seq<Log>)
    requires |logs| == |origin|
    ensures |mine| > 0 <==> e in origin
  {
    if logs == [] then []
    else
      var last := |logs| - 1;
      var rest := Trail(logs[..last], origin[..last], e);
      assert origin == origin[..last] + [origin[last]];
      if origin[last] == e then rest + [logs[last]] else rest
  }

  lemma AnswersAppend(calls: seq<Call>, c: Call, e: nat)
    ensures Answers(calls + [c], e) == if c.id == e then Answers(calls, e) + [c.answer] else Answers(calls, e)
  {
    assert (calls + [c])[..|calls|] == calls;
  }

  lemma TrailAppend(logs: seq<Log>, origin: seq<nat>, log: Log, o: nat, e: nat)
    requires |logs| == |origin|
    ensures Trail(logs + [log], origin + [o], e)
         == if o == e then Trail(logs, origin, e) + [log] else Trail(logs, origin, e)
  {
    assert (logs + [log])[..|logs|] == logs;
    assert (origin + [o])[..|logs|] == origin;
  }

  lemma {:induction false} NoCallsYet(calls: seq<Call>, e: nat)
    requires forall k :: 0 <= k < |calls| ==> calls[k].id != e
    ensures Answers(calls, e) == []
  {
    if calls == [] {
    } else {
      NoCallsYet(calls[..|calls| - 1], e);
    }
  }

  // ---- the invariant

  predicate ItemsTyped(t: Tables) {
    forall i :: 0 <= i < |t.items| ==> t.items[i].orderId < |t.orders|
  }

  predicate OutboxTyped(t: Tables) {
    forall e :: 0 <= e < |t.outbox| ==> t.outbox[e].itemId < |t.items|
  }

  predicate LogsTyped(t: Tables, origin: seq<nat>) {
    && |origin| == |t.logs|
    && forall l :: 0 <= l < |t.logs| ==> origin[l] < |t.outbox| && t.logs[l].itemId == t.outbox[origin[l]].itemId
  }

  /** Every call was for a row and handed over that row's function and payload. */
  predicate CallsTyped(calls: seq<Call>, rows: seq<Entry>) {
    forall c :: 0 <= c < |calls| ==>
                  calls[c].id < |rows| && calls[c].sent == Document(rows[calls[c].id].rfc, rows[calls[c].id].payload)
  }

  predicate TicketsTyped(s: State) {
    forall r :: r in s.tickets ==> s.tickets[r].ticket.itemId < |s.db.items|
  }

  /** References resolve and the history runs alongside the tables. */
  predicate Typed(s: State) {
    && |s.hist.edits| == |s.db.items|
    && |s.hist.readAt| == |s.db.outbox|
    && ItemsTyped(s.db)
    && OutboxTyped(s.db)
    && LogsTyped(s.db, s.hist.origin)
    && CallsTyped(s.hist.calls, s.db.outbox)
    && TicketsTyped(s)
  }

  /** The shape of an outbox row in each status. */
  predicate RowShape(row: Entry) {
    && row.maxAttempts == MAX_ATTEMPTS
    && (row.processedAt.Some? <==> Finished(row))
    && match row.status
       case Pending => row.attempts < row.maxAttempts
       case Processing => 1 <= row.attempts <= row.maxAttempts
       case Completed => 1 <= row.attempts <= row.maxAttempts
       case Failed => row.attempts == row.maxAttempts
       case Cancelled => row.attempts < row.maxAttempts
  }

  /** The error column shows the last recorded answer, unless the row completed or was cancelled. */
  predicate ErrorColumn(row: Entry, answers: seq<Answer>) {
    match row.status
    case Completed => row.error == None
    case Cancelled => row.error == Some(CANCEL_MESSAGE)
    case _ =>
      var n := ClosedAttempts(row);
      if 0 < n <= |answers| then row.error == Some(answers[n - 1].text) else n == 0 && row.error == None
  }

  /** A row against its calls and its logs: at most one call is still unrecorded, the logs are
      the recorded calls in order, and SAP accepted at most the last call, which either
      completed the row or left it in PROCESSING. */
  predicate EntryOk(row: Entry, answers: seq<Answer>, trail: seq<Log>) {
    && RowShape(row)
    && ClosedAttempts(row) <= |answers| <= row.attempts
    && |trail| == ClosedAttempts(row)
    && (forall k :: 0 <= k < |trail| ==> trail[k] == LogFor(row, answers[k]))
    && (forall k :: 0 <= k < |answers| && Accepted(answers[k]) ==>
                      k == row.attempts - 1 && (row.status.Processing? || row.status.Completed?))
    && (row.status.Completed? ==> Accepted(answers[row.attempts - 1]))
    && ErrorColumn(row, answers)
  }

  predicate EntryAt(s: State, e: nat)
    requires e < |s.db.outbox| && |s.db.logs| == |s.hist.origin|
  {
    EntryOk(s.db.outbox[e], Answers(s.hist.calls, e), Trail(s.db.logs, s.hist.origin, e))
  }

  predicate EntriesOk(s: State)
    requires |s.db.logs| == |s.hist.origin|
  {
    forall e :: 0 <= e < |s.db.outbox| ==> EntryAt(s, e)
  }

  /** A row in hand is PROCESSING, equals its snapshot, and has been called for this attempt
      exactly when it is the current one. */
  predicate Holds(row: Entry, stored: Entry, current: Option<Attempt>, id: nat, answers: seq<Answer>) {
    && row == stored
    && row.status.Processing?
    && (if current.Some? && current.value.id == id
        then |answers| == row.attempts > 0 && answers[|answers| - 1] == current.value.answer
        else |answers| == row.attempts - 1)
  }

  predicate InHandOk(s: State, w: nat, id: nat)
    requires w in s.hands && id in s.hands[w].todo
  {
    && id < |s.db.outbox|
    && Holds(s.hands[w].todo[id], s.db.outbox[id], s.hands[w].current, id, Answers(s.hist.calls, id))
  }

  predicate HandOk(s: State, w: nat)
    requires w in s.hands
  {
    && (forall id :: id in s.hands[w].todo ==> InHandOk(s, w, id))
    && (s.hands[w].current.Some? ==> s.hands[w].current.value.id in s.hands[w].todo)
  }

  predicate Disjoint(hands: map<nat, Hand>) {
    forall v, w, id :: v in hands && w in hands && id in hands[v].todo && id in hands[w].todo ==> v == w
  }

  predicate HandsOk(s: State) {
    (forall w :: w in s.hands ==> HandOk(s, w)) && Disjoint(s.hands)
  }

  predicate Core(s: State) {
    Typed(s) && EntriesOk(s) && HandsOk(s)
  }

  // ---- what each kind of step does to one row

  lemma EntryClaimed(row: Entry, answers: seq<Answer>, trail: seq<Log>)
    requires EntryOk(row, answers, trail) && Eligible(row)
    ensures EntryOk(Claimed(row), answers, trail) && |answers| == row.attempts
  {}

  lemma EntryCalled(row: Entry, answers: seq<Answer>, trail: seq<Log>, a: Answer)
    requires EntryOk(row, answers, trail) && row.status.Processing? && |answers| == row.attempts - 1
    ensures EntryOk(row, answers + [a], trail)
  {}

  lemma EntryClosed(row: Entry, answers: seq<Answer>, trail: seq<Log>, a: Answer, now: int)
    requires EntryOk(row, answers, trail) && Holds(row, row, Some(Attempt(0, a)), 0, answers)
    ensures EntryOk(MarkedRow(row, row, a, now), answers, trail + [LogFor(row, a)])
  {
    assert answers[row.attempts - 1] == a;
  }

  lemma EntryCancelled(row: Entry, answers: seq<Answer>, trail: seq<Log>, now: int)
    requires EntryOk(row, answers, trail) && row.status.Pending?
    ensures EntryOk(CancelledRow(row, now), answers, trail)
  {}

  // ---- what each kind of step does to the state

  predicate LetsGo(h: Hand, h': Hand) {
    h' == h || (h.current.Some? && h' == Hand(h.todo - {h.current.value.id}, None))
  }

  /** Nothing moved in the queue and hands at most let go of rows. */
  predicate Quiet(s: State, s': State) {
    && s'.db.outbox == s.db.outbox
    && s'.db.logs == s.db.logs
    && s'.hist.calls == s.hist.calls
    && s'.hist.origin == s.hist.origin
    && s'.hist.readAt == s.hist.readAt
    && forall w :: w in s'.hands ==> w in s.hands && LetsGo(s.hands[w], s'.hands[w])
  }

  lemma QuietKeeps(s: State, s': State)
    requires Core(s) && Quiet(s, s') && Typed(s')
    ensures Core(s')
  {
    forall e | 0 <= e < |s'.db.outbox| ensures EntryAt(s', e) {
      assert EntryAt(s, e);
    }
    forall w | w in s'.hands ensures HandOk(s', w) {
      assert HandOk(s, w);
      forall id | id in s'.hands[w].todo ensures InHandOk(s', w, id) {
        assert InHandOk(s, w, id);
      }
    }
    forall v, w, id | v in s'.hands && w in s'.hands && id in s'.hands[v].todo && id in s'.hands[w].todo
      ensures v == w
    {
      assert id in s.hands[v].todo && id in s.hands[w].todo;
    }
  }

  /** Steps that touch neither the queue nor a hand beyond letting go. */
  predicate IsQuiet(a: Action) {
    a.CreateOrder? || a.AddItem? || a.EditItem? || a.SetStatus? || a.Check? || a.Drop? || a.CloseLost? || a.Crash?
  }

  lemma QuietRequest(s: State, a: Action)
    requires IsQuiet(a) && !a.CloseLost? && !a.Crash?
    ensures Quiet(s, Apply(s, a)) && Apply(s, a).hands == s.hands
  {}

  lemma QuietRelease(s: State, a: Action)
    requires a.CloseLost? || a.Crash?
    ensures Quiet(s, Apply(s, a)) && Apply(s, a).db == s.db && Apply(s, a).tickets == s.tickets
    ensures Apply(s, a).hist == s.hist
  {}

  lemma QuietAction(s: State, a: Action)
    requires IsQuiet(a)
    ensures Quiet(s, Apply(s, a))
  {
    match a
    case CloseLost(_) => QuietRelease(s, a);
    case Crash(_) => QuietRelease(s, a);
    case _ => QuietRequest(s, a);
  }

  /** What a quiet action does to orders and items: they are added or updated in place, and
      an item never changes its order. */
  predicate Grown(t: Tables, t': Tables) {
    && t'.outbox == t.outbox && t'.logs == t.logs
    && |t'.orders| >= |t.orders| && |t'.items| >= |t.items|
    && (forall i :: 0 <= i < |t.items| ==> t'.items[i].orderId == t.items[i].orderId)
    && (forall i :: |t.items| <= i < |t'.items| ==> t'.items[i].orderId < |t.orders|)
  }

  lemma AddGrows(s: State, a: Action)
    requires a.AddItem?
    ensures Grown(s.db, Apply(s, a).db)
    ensures |Apply(s, a).db.items| - |s.db.items| == |Apply(s, a).hist.edits| - |s.hist.edits|
  {}

  lemma EditGrows(s: State, a: Action)
    requires a.EditItem?
    ensures Grown(s.db, Apply(s, a).db)
    ensures |Apply(s, a).db.items| - |s.db.items| == |Apply(s, a).hist.edits| - |s.hist.edits|
  {}

  lemma QuietGrows(s: State, a: Action)
    requires IsQuiet(a)
    ensures Grown(s.db, Apply(s, a).db)
    ensures |Apply(s, a).db.items| - |s.db.items| == |Apply(s, a).hist.edits| - |s.hist.edits|
  {
    match a
    case AddItem(_, _, _, _, _, _) => AddGrows(s, a);
    case EditItem(_, _, _, _, _) => EditGrows(s, a);
    case _ =>
  }

  lemma QuietTickets(s: State, a: Action)
    requires IsQuiet(a)
    ensures var s' := Apply(s, a);
            forall r :: r in s'.tickets ==>
                          || (r in s.tickets && s'.tickets[r] == s.tickets[r])
                          || s'.tickets[r].ticket.itemId < |s.db.items|
  {}

  lemma GrownTyped(s: State, s': State)
    requires Typed(s) && Quiet(s, s') && Grown(s.db, s'.db)
    requires |s'.db.items| - |s.db.items| == |s'.hist.edits| - |s.hist.edits|
    requires forall r :: r in s'.tickets ==>
                           || (r in s.tickets && s'.tickets[r] == s.tickets[r])
                           || s'.tickets[r].ticket.itemId < |s.db.items|
    ensures Typed(s')
  {}

  lemma QuietTyped(s: State, a: Action)
    requires IsQuiet(a) && Typed(s)
    ensures Typed(Apply(s, a))
  {
    QuietAction(s, a);
    QuietGrows(s, a);
    QuietTickets(s, a);
    GrownTyped(s, Apply(s, a));
  }

  lemma CoreQuiet(s: State, a: Action)
    requires IsQuiet(a) && Core(s)
    ensures Core(Apply(s, a))
  {
    QuietAction(s, a);
    QuietTyped(s, a);
    QuietKeeps(s, Apply(s, a));
  }

  lemma InsertShape(s: State, req: nat, rfc: string)
    requires Typed(s)
    ensures var s' := Apply(s, Insert(req, rfc));
            if req !in s.tickets then s' == s
            else
              var k := s.tickets[req].ticket;
              var row := Entry(k.itemId, k.orderNumber, rfc, BuildPayload(k.orderNumber, k.item), OutboxStatus.Pending,
                               0, MAX_ATTEMPTS, None, None);
              var items := if k.item.status.Failed?
                           then s.db.items[k.itemId := s.db.items[k.itemId].(status := ItemStatus.Updated)]
                           else s.db.items;
              s' == State(Tables(s.db.orders, items, s.db.outbox + [row], s.db.logs), s.hands, s.tickets - {req},
                          s.hist.(readAt := s.hist.readAt + [s.tickets[req].version]))
  {}

  lemma InsertKeeps(s: State, s': State, k: Ticket, rfc: string)
    requires Core(s)
    requires k.itemId < |s.db.items|
    requires s'.db.outbox == s.db.outbox + [Entry(k.itemId, k.orderNumber, rfc, BuildPayload(k.orderNumber, k.item),
                                                  OutboxStatus.Pending, 0, MAX_ATTEMPTS, None, None)]
    requires s'.db.orders == s.db.orders && s'.db.logs == s.db.logs && s'.hands == s.hands
    requires |s'.db.items| == |s.db.items|
    requires forall i :: 0 <= i < |s.db.items| ==> s'.db.items[i].orderId == s.db.items[i].orderId
    requires s'.hist == s.hist.(readAt := s'.hist.readAt) && |s'.hist.readAt| == |s.hist.readAt| + 1
    requires forall r :: r in s'.tickets ==> r in s.tickets && s'.tickets[r] == s.tickets[r]
    ensures Core(s')
  {
    var n := |s.db.outbox|;
    forall e | 0 <= e < |s'.db.outbox| ensures EntryAt(s', e) {
      if e == n {
        NoCallsYet(s.hist.calls, n);
        assert n !in s.hist.origin;
      } else {
        assert EntryAt(s, e);
      }
    }
    forall w | w in s'.hands ensures HandOk(s', w) {
      assert HandOk(s, w);
      forall id | id in s'.hands[w].todo ensures InHandOk(s', w, id) {
        assert InHandOk(s, w, id);
      }
    }
  }

  lemma CoreInsert(s: State, req: nat, rfc: string)
    requires Core(s)
    ensures Core(Apply(s, Insert(req, rfc)))
  {
    InsertShape(s, req, rfc);
    if req in s.tickets {
      InsertKeeps(s, Apply(s, Insert(req, rfc)), s.tickets[req].ticket, rfc);
    }
  }

  /** What a claim of `ids` by `w` makes of the state. */
  function AfterClaim(s: State, w: nat, ids: set<nat>): State {
    var rows := ClaimRows(s.db.outbox, ids);
    s.(db := s.db.(outbox := rows), hands := s.hands[w := Hand(Snapshots(rows, ids), None)])
  }

  lemma ClaimKeepsEntries(s: State, s': State, w: nat, ids: set<nat>)
    requires Core(s)
    requires forall x :: x in ids ==> x < |s.db.outbox| && Eligible(s.db.outbox[x])
    requires s' == AfterClaim(s, w, ids)
    ensures Typed(s') && EntriesOk(s')
    ensures forall x :: x in ids ==> |Answers(s.hist.calls, x)| == s.db.outbox[x].attempts
  {
    forall e | 0 <= e < |s'.db.outbox|
      ensures EntryAt(s', e) && (e in ids ==> |Answers(s.hist.calls, e)| == s.db.outbox[e].attempts)
    {
      assert EntryAt(s, e);
      if e in ids {
        EntryClaimed(s.db.outbox[e], Answers(s.hist.calls, e), Trail(s.db.logs, s.hist.origin, e));
      }
    }
  }

  /** Rows in other hands are PROCESSING, so a claim does not touch them. */
  lemma ClaimKeepsOther(s: State, s': State, w: nat, ids: set<nat>, v: nat)
    requires HandsOk(s) && v in s.hands && v != w
    requires forall x :: x in ids ==> x < |s.db.outbox| && Eligible(s.db.outbox[x])
    requires s' == AfterClaim(s, w, ids)
    ensures v in s'.hands && s'.hands[v] == s.hands[v] && HandOk(s', v)
    ensures forall id :: id in s'.hands[v].todo ==> id !in ids
  {
    assert HandOk(s, v);
    forall id | id in s.hands[v].todo ensures InHandOk(s', v, id) && id !in ids {
      assert InHandOk(s, v, id);
    }
  }

  lemma ClaimKeepsHands(s: State, s': State, w: nat, ids: set<nat>)
    requires HandsOk(s) && HandOf(s, w) == EMPTY_HAND
    requires forall x :: x in ids ==> x < |s.db.outbox| && Eligible(s.db.outbox[x])
    requires forall x :: x in ids ==> |Answers(s.hist.calls, x)| == s.db.outbox[x].attempts
    requires s' == AfterClaim(s, w, ids)
    ensures HandsOk(s')
  {
    forall v | v in s'.hands ensures HandOk(s', v) {
      if v != w {
        ClaimKeepsOther(s, s', w, ids, v);
      }
    }
    forall v, u, id | v in s'.hands && u in s'.hands && id in s'.hands[v].todo && id in s'.hands[u].todo
      ensures v == u
    {
      if v != w {
        ClaimKeepsOther(s, s', w, ids, v);
      }
      if u != w {
        ClaimKeepsOther(s, s', w, ids, u);
      }
    }
  }

  lemma ClaimKeeps(s: State, s': State, w: nat, ids: set<nat>)
    requires Core(s) && HandOf(s, w) == EMPTY_HAND
    requires forall x :: x in ids ==> x < |s.db.outbox| && Eligible(s.db.outbox[x])
    requires s' == AfterClaim(s, w, ids)
    ensures Core(s')
  {
    ClaimKeepsEntries(s, s', w, ids);
    ClaimKeepsHands(s, s', w, ids);
  }

  /** A claim moves exactly the picked rows, into a hand that was empty. */
  lemma CoreClaim(s: State, w: nat, limit: nat, skip: set<nat>)
    requires Core(s)
    ensures Core(Apply(s, Claim(w, limit, skip)))
  {
    if HandOf(s, w) == EMPTY_HAND {
      ClaimContract(s.db.outbox, skip, limit);
      ClaimKeeps(s, AfterClaim(s, w, ClaimIds(s.db.outbox, skip, limit)), w, ClaimIds(s.db.outbox, skip, limit));
    }
  }

  lemma ClaimShape(s: State, w: nat, limit: nat, skip: set<nat>)
    requires HandOf(s, w) == EMPTY_HAND
    ensures Apply(s, Claim(w, limit, skip)) == AfterClaim(s, w, ClaimIds(s.db.outbox, skip, limit))
  {}

  lemma CallKeeps(s: State, s': State, w: nat, id: nat, answer: Answer)
    requires Core(s) && w in s.hands && id in s.hands[w].todo && s.hands[w].current.None?
    requires s' == s.(hands := s.hands[w := s.hands[w].(current := Some(Attempt(id, answer)))],
                   hist := s.hist.(calls := s.hist.calls + [CallFor(id, s.hands[w].todo[id], answer)]))
    ensures Core(s')
  {
    assert HandOk(s, w) && InHandOk(s, w, id);
    forall e | 0 <= e < |s'.db.outbox| ensures EntryAt(s', e) {
      assert EntryAt(s, e);
      AnswersAppend(s.hist.calls, CallFor(id, s.hands[w].todo[id], answer), e);
      if e == id {
        EntryCalled(s.db.outbox[e], Answers(s.hist.calls, e), Trail(s.db.logs, s.hist.origin, e), answer);
      }
    }
    forall v | v in s'.hands ensures HandOk(s', v) {
      assert HandOk(s, v);
      forall x | x in s'.hands[v].todo ensures InHandOk(s', v, x) {
        assert InHandOk(s, v, x);
        AnswersAppend(s.hist.calls, CallFor(id, s.hands[w].todo[id], answer), x);
      }
    }
    assert Disjoint(s'.hands);
  }

  lemma CoreCall(s: State, w: nat, id: nat, answer: Answer)
    requires Core(s)
    ensures Core(Apply(s, CallSap(w, id, answer)))
  {
    var h := HandOf(s, w);
    if id in h.todo && h.current.None? {
      CallKeeps(s, Apply(s, CallSap(w, id, answer)), w, id, answer);
    }
  }

  function AfterClose(s: State, w: nat, id: nat, a: Answer, now: int): State
    requires w in s.hands && id < |s.db.outbox| && s.db.outbox[id].itemId < |s.db.items|
  {
    var row := s.db.outbox[id];
    State(Tables(s.db.orders,
                 s.db.items[row.itemId := s.db.items[row.itemId].(status := ItemStatusAfter(row, a))],
                 s.db.outbox[id := MarkedRow(row, row, a, now)],
                 s.db.logs + [LogFor(row, a)]),
          s.hands[w := Hand(s.hands[w].todo - {id}, None)],
          s.tickets,
          s.hist.(origin := s.hist.origin + [id]))
  }

  /** In a good state the closing transaction finds its rows: one log is appended, the item
      gets the answer's status and the owned row is marked. */
  lemma CloseShape(s: State, w: nat, now: int)
    requires Core(s) && HandOf(s, w).current.Some?
    ensures var cur := HandOf(s, w).current.value;
            && w in s.hands && cur.id < |s.db.outbox|
            && Apply(s, Close(w, now)) == AfterClose(s, w, cur.id, cur.answer, now)
            && InHandOk(s, w, cur.id)
  {
    var cur := HandOf(s, w).current.value;
    assert HandOk(s, w) && InHandOk(s, w, cur.id);
  }

  lemma CloseKeepsEntry(s: State, s': State, w: nat, id: nat, a: Answer, now: int, e: nat)
    requires Core(s) && w in s.hands && s.hands[w].current == Some(Attempt(id, a)) && id < |s.db.outbox|
    requires s' == AfterClose(s, w, id, a, now) && e < |s.db.outbox|
    ensures EntryAt(s', e)
  {
    var row := s.db.outbox[id];
    assert EntryAt(s, e);
    TrailAppend(s.db.logs, s.hist.origin, LogFor(row, a), id, e);
    if e == id {
      assert HandOk(s, w) && InHandOk(s, w, id);
      EntryClosed(row, Answers(s.hist.calls, e), Trail(s.db.logs, s.hist.origin, e), a, now);
    }
  }

  lemma CloseKeepsHands(s: State, s': State, w: nat, id: nat, a: Answer, now: int)
    requires Core(s) && w in s.hands && s.hands[w].current == Some(Attempt(id, a)) && id < |s.db.outbox|
    requires s' == AfterClose(s, w, id, a, now)
    ensures HandsOk(s')
  {
    assert HandOk(s, w);
    forall v | v in s'.hands ensures HandOk(s', v) {
      assert HandOk(s, v);
      forall x | x in s'.hands[v].todo ensures InHandOk(s', v, x) {
        assert InHandOk(s, v, x);
        assert x != id;
      }
    }
  }

  lemma CloseKeeps(s: State, s': State, w: nat, id: nat, a: Answer, now: int)
    requires Core(s) && w in s.hands && s.hands[w].current == Some(Attempt(id, a)) && id < |s.db.outbox|
    requires s' == AfterClose(s, w, id, a, now)
    ensures Core(s')
  {
    assert HandOk(s, w) && InHandOk(s, w, id);
    forall e | 0 <= e < |s'.db.outbox| ensures EntryAt(s', e) {
      CloseKeepsEntry(s, s', w, id, a, now, e);
    }
    CloseKeepsHands(s, s', w, id, a, now);
    assert Typed(s');
  }

  lemma CoreClose(s: State, w: nat, now: int)
    requires Core(s)
    ensures Core(Apply(s, Close(w, now)))
  {
    if HandOf(s, w).current.Some? {
      CloseShape(s, w, now);
      var cur := HandOf(s, w).current.value;
      CloseKeeps(s, AfterClose(s, w, cur.id, cur.answer, now), w, cur.id, cur.answer, now);
    }
  }

  lemma CancelShape(s: State, o: nat, i: nat, id: nat, now: int)
    ensures var s' := Apply(s, Cancel(o, i, id, now));
            if HasItem(s.db, o, i) && Cancellable(s.db, i, id)
            then s' == s.(db := s.db.(items := s.db.items[i := s.db.items[i].(status := ItemStatus.Updated)],
                                   outbox := s.db.outbox[id := CancelledRow(s.db.outbox[id], now)]))
            else s' == s
  {}

  lemma CancelKeeps(s: State, s': State, i: nat, id: nat, now: int)
    requires Core(s) && i < |s.db.items| && id < |s.db.outbox| && s.db.outbox[id].status.Pending?
    requires s' == s.(db := s.db.(items := s.db.items[i := s.db.items[i].(status := ItemStatus.Updated)],
                   outbox := s.db.outbox[id := CancelledRow(s.db.outbox[id], now)]))
    ensures Core(s')
  {
    forall e | 0 <= e < |s'.db.outbox| ensures EntryAt(s', e) {
      assert EntryAt(s, e);
      if e == id {
        EntryCancelled(s.db.outbox[e], Answers(s.hist.calls, e), Trail(s.db.logs, s.hist.origin, e), now);
      }
    }
    forall v | v in s'.hands ensures HandOk(s', v) {
      assert HandOk(s, v);
      forall x | x in s'.hands[v].todo ensures InHandOk(s', v, x) {
        assert InHandOk(s, v, x);
      }
    }
    assert Typed(s');
  }

  lemma CoreCancel(s: State, o: nat, i: nat, id: nat, now: int)
    requires Core(s)
    ensures Core(Apply(s, Cancel(o, i, id, now)))
  {
    CancelShape(s, o, i, id, now);
    var s' := Apply(s, Cancel(o, i, id, now));
    if s' != s {
      CancelKeeps(s, s', i, id, now);
    }
  }

  // ---- how one row can change

  ghost predicate Closes(row: Entry, row': Entry, a: Answer) {
    exists now :: row' == MarkedRow(row, row, a, now)
  }

  /** In one step a row stays, is claimed, is closed by the call its owner just made, or is
      cancelled while pending. Its identity and payload never change. */
  ghost predicate RowMoves(row: Entry, row': Entry, answers: seq<Answer>) {
    || row' == row
    || (Eligible(row) && row' == Claimed(row))
    || (row.status.Processing? && |answers| == row.attempts > 0 && Closes(row, row', answers[|answers| - 1]))
    || (row.status.Pending? && exists now :: row' == CancelledRow(row, now))
  }

  lemma RowCloseStep(s: State, w: nat, now: int, e: nat)
    requires Core(s) && e < |s.db.outbox|
    ensures e < |Apply(s, Close(w, now)).db.outbox|
    ensures RowMoves(s.db.outbox[e], Apply(s, Close(w, now)).db.outbox[e], Answers(s.hist.calls, e))
  {
    if HandOf(s, w).current.Some? {
      CloseShape(s, w, now);
      var cur := HandOf(s, w).current.value;
      var row := s.db.outbox[cur.id];
      assert Closes(row, MarkedRow(row, row, cur.answer, now), cur.answer);
    }
  }

  lemma RowStep(s: State, a: Action, e: nat)
    requires Core(s) && e < |s.db.outbox|
    ensures e < |Apply(s, a).db.outbox|
    ensures RowMoves(s.db.outbox[e], Apply(s, a).db.outbox[e], Answers(s.hist.calls, e))
  {
    match a
    case Insert(req, rfc) => InsertShape(s, req, rfc);
    case Claim(w, limit, skip) => ClaimContract(s.db.outbox, skip, limit);
    case CallSap(w, id, answer) =>
    case Close(w, now) => RowCloseStep(s, w, now, e);
    case Cancel(o, i, id, now) => CancelShape(s, o, i, id, now);
    case _ => QuietAction(s, a);
  }

  // ---- what the queue actions can touch

  /** An item the queue has business with: a row of it is active or its enqueue is in flight. */
  ghost predicate Touched(s: State, i: nat) {
    HasActive(s.db.outbox, i) || exists r :: r in s.tickets && s.tickets[r].ticket.itemId == i
  }

  /** Inserts, claims, calls, closings and cancels leave orders alone, change of an item at most
      its status, and write only for items the queue has business with. */
  ghost predicate QueueEffects(s: State, s': State) {
    && s'.db.orders == s.db.orders
    && |s'.db.items| == |s.db.items|
    && (forall i :: 0 <= i < |s.db.items| ==> s'.db.items[i] == s.db.items[i].(status := s'.db.items[i].status))
    && (forall i :: 0 <= i < |s.db.items| && s'.db.items[i] != s.db.items[i] ==> Touched(s, i))
    && |s.db.outbox| <= |s'.db.outbox|
    && (forall e :: 0 <= e < |s.db.outbox| ==> s'.db.outbox[e] == s.db.outbox[e] || Active(s.db.outbox[e]))
    && (forall e :: 0 <= e < |s.db.outbox| ==> s'.db.outbox[e].itemId == s.db.outbox[e].itemId
                                               && s'.db.outbox[e].payload == s.db.outbox[e].payload)
    && (forall e :: |s.db.outbox| <= e < |s'.db.outbox| ==> Touched(s, s'.db.outbox[e].itemId))
    && s.db.logs <= s'.db.logs
    && (forall l :: |s.db.logs| <= l < |s'.db.logs| ==> Touched(s, s'.db.logs[l].itemId))
    && (forall r :: r in s'.tickets ==> r in s.tickets && s'.tickets[r] == s.tickets[r])
    && s'.hist.edits == s.hist.edits
  }

  lemma InsertEffects(s: State, req: nat, rfc: string)
    requires Core(s)
    ensures QueueEffects(s, Apply(s, Insert(req, rfc)))
  {
    InsertShape(s, req, rfc);
    if req in s.tickets {
      assert Touched(s, s.tickets[req].ticket.itemId);
    }
  }

  lemma AfterClaimEffects(s: State, w: nat, ids: set<nat>)
    requires forall x :: x in ids ==> x < |s.db.outbox| && Eligible(s.db.outbox[x])
    ensures QueueEffects(s, AfterClaim(s, w, ids))
  {}

  lemma ClaimEffects(s: State, w: nat, limit: nat, skip: set<nat>)
    requires Core(s)
    ensures QueueEffects(s, Apply(s, Claim(w, limit, skip)))
  {
    if HandOf(s, w) == EMPTY_HAND {
      ClaimShape(s, w, limit, skip);
      ClaimContract(s.db.outbox, skip, limit);
      AfterClaimEffects(s, w, ClaimIds(s.db.outbox, skip, limit));
    }
  }

  lemma AfterCloseEffects(s: State, w: nat, id: nat, a: Answer, now: int)
    requires Core(s) && w in s.hands && id < |s.db.outbox| && Active(s.db.outbox[id])
    ensures QueueEffects(s, AfterClose(s, w, id, a, now))
  {
    assert HasActive(s.db.outbox, s.db.outbox[id].itemId);
    assert Touched(s, s.db.outbox[id].itemId);
  }

  lemma CloseEffects(s: State, w: nat, now: int)
    requires Core(s)
    ensures QueueEffects(s, Apply(s, Close(w, now)))
  {
    if HandOf(s, w).current.Some? {
      CloseShape(s, w, now);
      var cur := HandOf(s, w).current.value;
      AfterCloseEffects(s, w, cur.id, cur.answer, now);
    }
  }

  lemma CancelEffects(s: State, o: nat, i: nat, id: nat, now: int)
    requires Core(s)
    ensures QueueEffects(s, Apply(s, Cancel(o, i, id, now)))
  {
    CancelShape(s, o, i, id, now);
    if Apply(s, Cancel(o, i, id, now)) != s {
      assert HasActive(s.db.outbox, i);
      assert Touched(s, i);
    }
  }

  lemma QueueStep(s: State, a: Action)
    requires Core(s) && !IsQuiet(a)
    ensures QueueEffects(s, Apply(s, a))
  {
    match a
    case Insert(req, rfc) => InsertEffects(s, req, rfc);
    case Claim(w, limit, skip) => ClaimEffects(s, w, limit, skip);
    case CallSap(_, _, _) =>
    case Close(w, now) => CloseEffects(s, w, now);
    case Cancel(o, i, id, now) => CancelEffects(s, o, i, id, now);
  }

  // ---- every run keeps it

  lemma CoreStep(s: State, a: Action)
    requires Core(s)
    ensures Core(Apply(s, a))
  {
    match a
    case Insert(req, rfc) => CoreInsert(s, req, rfc);
    case Claim(w, limit, skip) => CoreClaim(s, w, limit, skip);
    case CallSap(w, id, answer) => CoreCall(s, w, id, answer);
    case Close(w, now) => CoreClose(s, w, now);
    case Cancel(o, i, id, now) => CoreCancel(s, o, i, id, now);
    case _ => CoreQuiet(s, a);
  }

  /** Every run keeps the invariant, with any number of workers, overlapping enqueues, lost
      transactions and crashes. */
  lemma {:induction false} CoreRun(s: State, acts: seq<Action>)
    requires Core(s)
    ensures Core(Run(s, acts))
    decreases |acts|
  {
    if acts == [] {
    } else {
      CoreStep(s, acts[0]);
      CoreRun(Apply(s, acts[0]), acts[1..]);
    }
  }
}
