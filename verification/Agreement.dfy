/** Theorems about every run in which enqueues for one item do not overlap: a single active
    row per item, item status against queue and logs, what the latest-status query shows, and
    whether what SAP accepted is what the item says. */
module Agreement {
  import opened Domain
  import opened Requests
  import opened Protocol
  import opened CoreInvariant
  import opened Audit
  import opened Statuses
  import opened SerialInvariant
  import opened Lifecycle

  // ---- a single active row

  lemma SingleActive(acts: seq<Action>, e: nat, f: nat)
    requires SerialRun(INIT, acts)
    requires e < |Run(INIT, acts).db.outbox| && f < |Run(INIT, acts).db.outbox|
    requires var rows := Run(INIT, acts).db.outbox;
             Active(rows[e]) && Active(rows[f]) && rows[e].itemId == rows[f].itemId
    ensures e == f
  {
    ReachableIsSerial(acts);
  }

  /** In any good state, overlapping enqueues included, an insert leaves its item with a single
      active row exactly when nothing of the item was active at that moment. */
  lemma InsertKeepsSingleIff(s: State, req: nat, rfc: string)
    requires Core(s) && ActiveIsLatest(s.db.outbox) && req in s.tickets
    ensures ActiveIsLatest(Apply(s, Insert(req, rfc)).db.outbox)
            <==> !HasActive(s.db.outbox, s.tickets[req].ticket.itemId)
  {
    InsertShape(s, req, rfc);
    var rows, rows' := s.db.outbox, Apply(s, Insert(req, rfc)).db.outbox;
    var i := s.tickets[req].ticket.itemId;
    if e :| 0 <= e < |rows| && rows[e].itemId == i && Active(rows[e]) {
      assert rows'[e] == rows[e] && rows'[|rows|].itemId == i;
    }
  }

  // ---- logs of the newest row

  lemma {:induction false} TrailLast(logs: seq<Log>, origin: seq<nat>, e: nat, l: nat)
    requires |logs| == |origin| && l < |logs| && origin[l] == e
    requires forall k :: l < k < |logs| ==> origin[k] != e
    ensures var t := Trail(logs, origin, e); |t| > 0 && t[|t| - 1] == logs[l]
  {
    var last := |logs| - 1;
    if l == last {
    } else {
      TrailLast(logs[..last], origin[..last], e, l);
    }
  }

  lemma TrailOrigin(origin: seq<nat>, e: nat) returns (j: nat)
    requires e in origin
    ensures j < |origin| && origin[j] == e
  {
    j :| 0 <= j < |origin| && origin[j] == e;
  }

  /** When the newest log of an item came from row `e`, it is the record of that row's last
      closed call. */
  lemma NewestRecord(s: State, i: nat, l: nat)
    requires Core(s) && NewestLog(s.db.logs, i) == Some(l)
    ensures var e := s.hist.origin[l];
            && e < |s.db.outbox|
            && var row := s.db.outbox[e];
            var answers := Answers(s.hist.calls, e);
            && row.itemId == i
            && 0 < ClosedAttempts(row) <= |answers|
            && s.db.logs[l] == LogFor(row, answers[ClosedAttempts(row) - 1])
  {
    var e := s.hist.origin[l];
    assert EntryAt(s, e);
    forall k | l < k < |s.db.logs| ensures s.hist.origin[k] != e {
      assert s.db.logs[k].itemId != i;
    }
    TrailLast(s.db.logs, s.hist.origin, e, l);
  }

  /** The newest log of an item comes from its newest row as soon as that row has a log. */
  lemma NewestIsLatest(s: State, i: nat, e: nat)
    requires Core(s) && Serial(s) && LatestEntry(s.db.outbox, i) == Some(e)
    requires ClosedAttempts(s.db.outbox[e]) > 0
    ensures NewestLog(s.db.logs, i).Some? && s.hist.origin[NewestLog(s.db.logs, i).value] == e
  {
    assert EntryAt(s, e);
    var j := TrailOrigin(s.hist.origin, e);
    assert s.db.logs[j].itemId == i;
    var l := NewestLog(s.db.logs, i).value;
    assert l == j || s.hist.origin[j] <= s.hist.origin[l];
    assert s.db.outbox[s.hist.origin[l]].itemId == i;
  }

  lemma {:induction false} NewestFirst(logs: seq<Log>, i: nat)
    ensures LogsNewestFirst(logs, i) == [] <==> NewestLog(logs, i).None?
    ensures NewestLog(logs, i).Some? ==>
              LogsNewestFirst(logs, i) != [] && LogsNewestFirst(logs, i)[0] == logs[NewestLog(logs, i).value]
  {
    if logs == [] {
    } else {
      NewestFirst(logs[..|logs| - 1], i);
    }
  }

  // ---- item status against queue and logs

  /** An item with an active row is UPDATED or FAILED, and FAILED only when its newest log is the
      record of that row's rejection. */
  lemma ActiveItemStatus(acts: seq<Action>, i: nat, e: nat)
    requires SerialRun(INIT, acts) && i < |Run(INIT, acts).db.items| && e < |Run(INIT, acts).db.outbox|
    requires Run(INIT, acts).db.outbox[e].itemId == i && Active(Run(INIT, acts).db.outbox[e])
    ensures var s := Run(INIT, acts);
            var status, newest := s.db.items[i].status, NewestLog(s.db.logs, i);
            && |s.db.logs| == |s.hist.origin|
            && (status.Updated? || status.Failed?)
            && (status.Failed? ==>
                  newest.Some? && s.hist.origin[newest.value] == e && s.db.logs[newest.value].response.Some?)
  {
    ReachableIsSerial(acts);
    var s := Run(INIT, acts);
    assert HasActive(s.db.outbox, i);
    assert ItemOk(s.db.items[i].status, s.db.outbox, s.db.logs, s.hist.origin, i);
    StatusStandsOnLogs(acts, i);
  }

  /** A FAILED item with an active row waits for the retry of a call that was rejected. */
  lemma FailedAwaitingRetry(acts: seq<Action>, i: nat, e: nat)
    requires SerialRun(INIT, acts) && i < |Run(INIT, acts).db.items| && e < |Run(INIT, acts).db.outbox|
    requires var s := Run(INIT, acts);
             s.db.items[i].status.Failed? && s.db.outbox[e].itemId == i && Active(s.db.outbox[e])
    ensures var s := Run(INIT, acts);
            var n := ClosedAttempts(s.db.outbox[e]);
            var answers := Answers(s.hist.calls, e);
            0 < n <= |answers| && answers[n - 1].Reply? && !answers[n - 1].success
  {
    ReachableIsCore(acts);
    StatusStandsOnLogs(acts, i);
    ActiveItemStatus(acts, i, e);
    NewestRecord(Run(INIT, acts), i, NewestLog(Run(INIT, acts).db.logs, i).value);
  }

  /** An order can be closed over an active row only when the row's item is FAILED and waits
      for the retry of a rejected call. */
  lemma ClosingOverActiveRows(acts: seq<Action>, o: nat, i: nat, e: nat)
    requires SerialRun(INIT, acts) && o < |Run(INIT, acts).db.orders|
    requires var s := Run(INIT, acts);
             && !s.db.orders[o].status.Closed?
             && Apply(s, SetStatus(o, Closed)).db.orders[o].status.Closed?
             && i < |s.db.items| && s.db.items[i].orderId == o
             && e < |s.db.outbox| && s.db.outbox[e].itemId == i && Active(s.db.outbox[e])
    ensures var s := Run(INIT, acts);
            var n := ClosedAttempts(s.db.outbox[e]);
            var answers := Answers(s.hist.calls, e);
            s.db.items[i].status.Failed? && 0 < n <= |answers| && answers[n - 1].Reply? && !answers[n - 1].success
  {
    var s := Run(INIT, acts);
    ReachableIsSerial(acts);
    var mine := ItemsOf(s.db.items, o);
    assert CanTransitionTo(s.db.orders[o].status, Closed, mine).None?;
    assert s.db.items[i] in mine;
    assert Terminal(s.db.items[i].status);
    ActiveItemStatus(acts, i, e);
    FailedAwaitingRetry(acts, i, e);
  }

  // ---- the latest-status query

  lemma NewestOwnLog(s: State, i: nat, e: nat)
    requires Core(s) && Serial(s) && LatestEntry(s.db.outbox, i) == Some(e)
    requires ClosedAttempts(s.db.outbox[e]) > 0
    ensures NewestLog(s.db.logs, i).Some?
    ensures var trail := Trail(s.db.logs, s.hist.origin, e);
            |trail| > 0 && trail[|trail| - 1] == s.db.logs[NewestLog(s.db.logs, i).value]
  {
    NewestIsLatest(s, i, e);
    var l := NewestLog(s.db.logs, i).value;
    forall k | l < k < |s.db.logs| ensures s.hist.origin[k] != e {
      assert s.db.logs[k].itemId != i;
    }
    TrailLast(s.db.logs, s.hist.origin, e, l);
  }

  lemma FinishedRowLog(s: State, e: nat)
    requires Core(s) && e < |s.db.outbox| && (s.db.outbox[e].status.Completed? || s.db.outbox[e].status.Failed?)
    ensures var trail := Trail(s.db.logs, s.hist.origin, e);
            && |trail| == s.db.outbox[e].attempts == ClosedAttempts(s.db.outbox[e]) > 0
            && (s.db.outbox[e].status.Completed? <==> trail[|trail| - 1].status.Success?)
  {
    assert EntryAt(s, e);
  }

  /** The log that a response about the item's newest row shows, in one good state. */
  lemma LatestViewLog(s: State, i: nat, e: nat)
    requires Core(s) && Serial(s) && LatestEntry(s.db.outbox, i) == Some(e)
    ensures var v := BuildView(s.db.outbox, s.db.logs, e);
            && |s.db.logs| == |s.hist.origin|
            && (v.latestLog.Some? <==> v.row.status.Completed? || v.row.status.Failed?)
            && (v.latestLog.Some? ==>
                  var trail := Trail(s.db.logs, s.hist.origin, e);
                  && |trail| == v.row.attempts > 0
                  && v.latestLog.value == trail[|trail| - 1]
                  && (v.row.status.Completed? <==> v.latestLog.value.status.Success?))
  {
    NewestFirst(s.db.logs, i);
    if s.db.outbox[e].status.Completed? || s.db.outbox[e].status.Failed? {
      FinishedRowLog(s, e);
      NewestOwnLog(s, i, e);
    }
  }

  /** Logs are looked up by item only, yet the log shown with a COMPLETED row is that row's
      SUCCESS record, and the one shown with a FAILED row is its last FAILED record. */
  lemma LatestStatusShowsItsOwnLog(acts: seq<Action>, o: nat, i: nat)
    requires SerialRun(INIT, acts) && LatestView(Run(INIT, acts).db, o, i).Ok?
    ensures var s := Run(INIT, acts);
            var v := LatestView(s.db, o, i).value;
            && |s.db.logs| == |s.hist.origin|
            && v.id < |s.db.outbox| && v.row == s.db.outbox[v.id] && v.row.itemId == i
            && (v.latestLog.Some? <==> v.row.status.Completed? || v.row.status.Failed?)
            && (v.latestLog.Some? ==>
                  var trail := Trail(s.db.logs, s.hist.origin, v.id);
                  && |trail| == v.row.attempts > 0
                  && v.latestLog.value == trail[|trail| - 1]
                  && (v.row.status.Completed? <==> v.latestLog.value.status.Success?))
  {
    ReachableIsSerial(acts);
    LatestViewLog(Run(INIT, acts), i, LatestView(Run(INIT, acts).db, o, i).value.id);
  }

  /** No row of an item with a log is newer than the row its newest log came from. */
  lemma LoggedRowsBelow(s: State, i: nat, f: nat)
    requires Core(s) && Serial(s)
    requires f < |s.db.outbox| && s.db.outbox[f].itemId == i && ClosedAttempts(s.db.outbox[f]) > 0
    ensures NewestLog(s.db.logs, i).Some? && f <= s.hist.origin[NewestLog(s.db.logs, i).value]
  {
    assert EntryAt(s, f);
    var j := TrailOrigin(s.hist.origin, f);
    assert s.db.logs[j].itemId == i;
    var l := NewestLog(s.db.logs, i).value;
    assert l == j || s.hist.origin[j] <= s.hist.origin[l];
  }

  /** Asked about a particular finished row, the response shows the item's newest log, which is
      that row's exactly when no newer row of the item has a recorded attempt. */
  lemma SpecificStatusOwnLogIff(acts: seq<Action>, o: nat, i: nat, e: nat)
    requires SerialRun(INIT, acts) && ViewOf(Run(INIT, acts).db, o, i, e).Ok?
    requires var row := Run(INIT, acts).db.outbox[e]; row.status.Completed? || row.status.Failed?
    ensures var s := Run(INIT, acts);
            var newest := NewestLog(s.db.logs, i);
            && |s.db.logs| == |s.hist.origin| && newest.Some?
            && ViewOf(s.db, o, i, e).value.latestLog == Some(s.db.logs[newest.value])
            && (s.hist.origin[newest.value] == e
                <==>
                forall f :: e < f < |s.db.outbox| && s.db.outbox[f].itemId == i ==>
                              ClosedAttempts(s.db.outbox[f]) == 0)
  {
    ReachableIsSerial(acts);
    var s := Run(INIT, acts);
    FinishedRowLog(s, e);
    NewestFirst(s.db.logs, i);
    LoggedRowsBelow(s, i, e);
    var l := NewestLog(s.db.logs, i).value;
    NewestRecord(s, i, l);
    forall f | e < f < |s.db.outbox| && s.db.outbox[f].itemId == i && ClosedAttempts(s.db.outbox[f]) != 0
      ensures f <= s.hist.origin[l]
    {
      assert EntryAt(s, f);
      LoggedRowsBelow(s, i, f);
    }
  }

  /** A row with the same trail in a longer table has no log among the new ones. */
  lemma {:induction false} TrailGrows(logs: seq<Log>, origin: seq<nat>, logs': seq<Log>, origin': seq<nat>, e: nat,
                                      l: nat)
    requires |logs| == |origin| && |logs'| == |origin'| && logs <= logs' && origin <= origin'
    ensures |Trail(logs', origin', e)| >= |Trail(logs, origin, e)|
    ensures |logs| <= l < |logs'| && origin'[l] == e ==> |Trail(logs', origin', e)| > |Trail(logs, origin, e)|
  {
    if |logs'| > |logs| {
      var last := |logs'| - 1;
      TrailGrows(logs, origin, logs'[..last], origin'[..last], e, l);
    } else {
      assert logs == logs' && origin == origin';
    }
  }

  /** Two log tables, one a longer version of the other, of an item whose newest log is row
      `e`'s and with no new log of row `e`: the newest log stays row `e`'s exactly when no log
      of the item is new. */
  lemma LaterLogs(logs: seq<Log>, origin: seq<nat>, logs': seq<Log>, origin': seq<nat>, i: nat, e: nat)
    requires |logs| == |origin| && |logs'| == |origin'| && logs <= logs' && origin <= origin'
    requires NewestLog(logs, i).Some? && origin[NewestLog(logs, i).value] == e
    requires Trail(logs', origin', e) == Trail(logs, origin, e)
    ensures NewestLog(logs', i).Some?
    ensures origin'[NewestLog(logs', i).value] == e <==> forall k :: |logs| <= k < |logs'| ==> logs'[k].itemId != i
  {
    var l := NewestLog(logs, i).value;
    assert logs'[l] == logs[l] && origin'[l] == origin[l];
    var l' := NewestLog(logs', i).value;
    if l' < |logs| {
      assert logs'[l'] == logs[l'] && origin'[l'] == origin[l'];
    } else {
      TrailGrows(logs, origin, logs', origin', e, l');
    }
  }

  lemma LogsGrowStep(s: State, a: Action)
    requires Core(s)
    ensures s.db.logs <= Apply(s, a).db.logs && s.hist.origin <= Apply(s, a).hist.origin
  {
    match a
    case Insert(req, rfc) => InsertShape(s, req, rfc);
    case Claim(_, _, _) =>
    case CallSap(_, _, _) =>
    case Close(w, now) =>
      if HandOf(s, w).current.Some? {
        CloseShape(s, w, now);
      }
    case Cancel(o, i, id, now) => CancelShape(s, o, i, id, now);
    case _ => QuietAction(s, a);
  }

  lemma {:induction false} LogsGrow(s: State, acts: seq<Action>)
    requires Core(s)
    ensures s.db.logs <= Run(s, acts).db.logs && s.hist.origin <= Run(s, acts).hist.origin
    decreases |acts|
  {
    if acts == [] {
    } else {
      CoreStep(s, acts[0]);
      LogsGrowStep(s, acts[0]);
      LogsGrow(Apply(s, acts[0]), acts[1..]);
    }
  }

  /** A longer log table counts more for an item exactly when something of it was added. */
  lemma {:induction false} CountGrows(logs: seq<Log>, logs': seq<Log>, i: nat)
    requires logs <= logs'
    ensures LogCount(logs', i) >= LogCount(logs, i)
    ensures LogCount(logs', i) == LogCount(logs, i) <==> forall k :: |logs| <= k < |logs'| ==> logs'[k].itemId != i
  {
    if |logs'| > |logs| {
      var last := |logs'| - 1;
      CountGrows(logs, logs'[..last], i);
      assert forall k :: |logs| <= k < last ==> logs'[..last][k] == logs'[k];
    } else {
      assert logs == logs';
    }
  }

  /** From a state in which an item's newest log is finished row `e`'s own, the log shown with
      that row stays its own exactly as long as no log of the item is added. */
  lemma LogsSince(s: State, acts: seq<Action>, i: nat, e: nat)
    requires Core(s) && NewestLog(s.db.logs, i).Some? && s.hist.origin[NewestLog(s.db.logs, i).value] == e
    requires s.db.outbox[e].status.Completed? || s.db.outbox[e].status.Failed?
    ensures var s' := Run(s, acts);
            var newest := NewestLog(s'.db.logs, i);
            && |s'.db.logs| == |s'.hist.origin|
            && e < |s'.db.outbox| && s'.db.outbox[e] == s.db.outbox[e]
            && newest.Some?
            && BuildView(s.db.outbox, s'.db.logs, e).latestLog == Some(s'.db.logs[newest.value])
            && (s'.hist.origin[newest.value] == e <==> LogCount(s'.db.logs, i) == LogCount(s.db.logs, i))
  {
    var s' := Run(s, acts);
    CoreRun(s, acts);
    FinishedForever(s, acts, e);
    LogsGrow(s, acts);
    NewestFirst(s'.db.logs, i);
    CountGrows(s.db.logs, s'.db.logs, i);
    LaterLogs(s.db.logs, s.hist.origin, s'.db.logs, s'.hist.origin, i, e);
  }

  /** The row and the logs are two separate reads. When a run comes in between, the log shown
      with a finished newest row is still that row's exactly when no log of the item was added. */
  lemma TwoReadsAgreeIff(s: State, acts: seq<Action>, i: nat, e: nat)
    requires Core(s) && Serial(s)
    requires LatestEntry(s.db.outbox, i) == Some(e)
    requires s.db.outbox[e].status.Completed? || s.db.outbox[e].status.Failed?
    ensures var s' := Run(s, acts);
            var newest := NewestLog(s'.db.logs, i);
            && |s'.db.logs| == |s'.hist.origin|
            && newest.Some?
            && BuildView(s.db.outbox, s'.db.logs, e).latestLog == Some(s'.db.logs[newest.value])
            && (s'.hist.origin[newest.value] == e <==> LogCount(s'.db.logs, i) == LogCount(s.db.logs, i))
  {
    assert EntryAt(s, e);
    NewestIsLatest(s, i, e);
    LogsSince(s, acts, i, e);
  }

  /** Any later response about a row, in every run, overlapping enqueues included: once the close
      that finished the row is through, the log shown is the row's own exactly when no log of its
      item has been written since. */
  lemma ShownLogIsOwnIff(before: seq<Action>, w: nat, now: int, later: seq<Action>)
    requires HandOf(Run(INIT, before), w).current.Some?
    requires var s1 := Apply(Run(INIT, before), Close(w, now));
             var e := HandOf(Run(INIT, before), w).current.value.id;
             e < |s1.db.outbox| && Finished(s1.db.outbox[e])
    ensures var e := HandOf(Run(INIT, before), w).current.value.id;
            var s1 := Apply(Run(INIT, before), Close(w, now));
            var s' := Run(s1, later);
            && |s'.db.logs| == |s'.hist.origin| && e < |s'.db.outbox|
            && var i := s'.db.outbox[e].itemId;
            var newest := NewestLog(s'.db.logs, i);
            && newest.Some?
            && BuildView(s'.db.outbox, s'.db.logs, e).latestLog == Some(s'.db.logs[newest.value])
            && (s'.hist.origin[newest.value] == e <==> LogCount(s'.db.logs, i) == LogCount(s1.db.logs, i))
  {
    var s := Run(INIT, before);
    ReachableIsCore(before);
    CloseShape(s, w, now);
    CoreStep(s, Close(w, now));
    var e := HandOf(s, w).current.value.id;
    var s1 := Apply(s, Close(w, now));
    LastIsNewest(s1.db.logs, s1.db.outbox[e].itemId);
    LogsSince(s1, later, s1.db.outbox[e].itemId, e);
  }
}
