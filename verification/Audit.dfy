/** What the invariant gives over whole runs from empty tables: SAP accepts a row at most
    once and hears of it at most three times, every hand owns what it holds, and the sync logs
    balance against the outbox. */
module Audit {
  import opened Domain
  import opened Queue
  import opened Requests
  import opened Protocol
  import opened CoreInvariant

  lemma InitIsCore()
    ensures Core(INIT)
  {}

  lemma ReachableIsCore(acts: seq<Action>)
    ensures Core(Run(INIT, acts))
  {
    InitIsCore();
    CoreRun(INIT, acts);
  }

  // ---- at most one accepted call

  /** The j-th call of all is a definite one of its row's calls, with the later ones after it. */
  lemma {:induction false} CallPlace(calls: seq<Call>, j: nat, e: nat)
    requires j < |calls| && calls[j].id == e
    ensures var before := Answers(calls[..j], e);
            && |before| < |Answers(calls, e)|
            && Answers(calls, e)[|before|] == calls[j].answer
            && forall k :: j < k <= |calls| ==> |before| < |Answers(calls[..k], e)|
  {
    var last := |calls| - 1;
    if j == last {
      assert calls[..j] == calls[..last];
      assert calls[..|calls|] == calls;
    } else {
      CallPlace(calls[..last], j, e);
      assert calls[..last][..j] == calls[..j];
      forall k | j < k <= |calls| ensures |Answers(calls[..j], e)| < |Answers(calls[..k], e)| {
        if k < |calls| {
          assert calls[..last][..k] == calls[..k];
        } else {
          assert calls[..k] == calls;
          assert calls[..last][..last] == calls[..last];
        }
      }
    }
  }

  /** In every run, no call for a row follows a call for it that SAP accepted. */
  lemma AtMostOnceAcceptance(acts: seq<Action>, j: nat, k: nat)
    requires j < k < |Run(INIT, acts).hist.calls|
    requires var calls := Run(INIT, acts).hist.calls; calls[j].id == calls[k].id
    ensures !Accepted(Run(INIT, acts).hist.calls[j].answer)
  {
    var s := Run(INIT, acts);
    ReachableIsCore(acts);
    var calls := s.hist.calls;
    var e := calls[j].id;
    assert EntryAt(s, e);
    CallPlace(calls, j, e);
    CallPlace(calls, k, e);
    assert |Answers(calls[..j], e)| < |Answers(calls[..k], e)| < |Answers(calls, e)| <= s.db.outbox[e].attempts;
  }

  /** In every run a row gets at most three calls, and one call per attempt that was not cut
      short by a crash. */
  lemma CallBudget(acts: seq<Action>, e: nat)
    requires e < |Run(INIT, acts).db.outbox|
    ensures var s := Run(INIT, acts);
            var row := s.db.outbox[e];
            && ClosedAttempts(row) <= |Answers(s.hist.calls, e)| <= row.attempts <= 3
            && (!row.status.Processing? ==> |Answers(s.hist.calls, e)| == row.attempts)
  {
    ReachableIsCore(acts);
    assert EntryAt(Run(INIT, acts), e);
  }

  /** A row SAP accepted is COMPLETED, or PROCESSING when its closing transaction has not
      committed; a COMPLETED row was accepted by its last call. */
  lemma AcceptanceIsRecorded(acts: seq<Action>, e: nat)
    requires e < |Run(INIT, acts).db.outbox|
    ensures var s := Run(INIT, acts);
            var row := s.db.outbox[e];
            var answers := Answers(s.hist.calls, e);
            && ((exists k :: 0 <= k < |answers| && Accepted(answers[k])) ==>
                  row.status.Completed? || row.status.Processing?)
            && (row.status.Completed? ==> |answers| == row.attempts > 0 && Accepted(answers[row.attempts - 1]))
  {
    ReachableIsCore(acts);
    assert EntryAt(Run(INIT, acts), e);
  }

  // ---- ownership

  /** A row in a hand is PROCESSING, equals its snapshot field for field, and is in no other
      hand, so the two closing updates, which have no status guard, only meet owned rows. */
  lemma Ownership(acts: seq<Action>, w: nat, id: nat)
    requires w in Run(INIT, acts).hands && id in Run(INIT, acts).hands[w].todo
    ensures var s := Run(INIT, acts);
            && id < |s.db.outbox|
            && s.db.outbox[id].status.Processing?
            && s.db.outbox[id] == s.hands[w].todo[id]
            && forall v :: v in s.hands && v != w ==> id !in s.hands[v].todo
  {
    ReachableIsCore(acts);
    var s := Run(INIT, acts);
    assert HandOk(s, w) && InHandOk(s, w, id);
  }

  /** What a closing transaction changes in the outbox is at most its worker's current row,
      and that row is PROCESSING. */
  lemma ClosesOnlyProcessing(acts: seq<Action>, w: nat, now: int, e: nat)
    requires e < |Run(INIT, acts).db.outbox|
    ensures var s := Run(INIT, acts);
            var s' := Apply(s, Close(w, now));
            && |s'.db.outbox| == |s.db.outbox|
            && (s'.db.outbox[e] != s.db.outbox[e] ==>
                  s.db.outbox[e].status.Processing? && HandOf(s, w).current.Some? && HandOf(s, w).current.value.id == e)
  {
    ReachableIsCore(acts);
    if HandOf(Run(INIT, acts), w).current.Some? {
      CloseShape(Run(INIT, acts), w, now);
    }
  }

  /** Every row keeps the shape of its status: a pending row always has attempts left. */
  lemma RowShapes(acts: seq<Action>, e: nat)
    requires e < |Run(INIT, acts).db.outbox|
    ensures RowShape(Run(INIT, acts).db.outbox[e])
    ensures var row := Run(INIT, acts).db.outbox[e]; row.status.Pending? <==> Eligible(row)
  {
    ReachableIsCore(acts);
    assert EntryAt(Run(INIT, acts), e);
  }

  /** A row's logs are the records of its closed calls, in call order. */
  lemma AuditTrail(acts: seq<Action>, e: nat)
    requires e < |Run(INIT, acts).db.outbox|
    ensures var s := Run(INIT, acts);
            && |s.db.logs| == |s.hist.origin|
            && var row := s.db.outbox[e];
            var trail := Trail(s.db.logs, s.hist.origin, e);
            var answers := Answers(s.hist.calls, e);
            && |trail| == ClosedAttempts(row) <= |answers|
            && forall k :: 0 <= k < |trail| ==> trail[k] == LogFor(row, answers[k])
  {
    ReachableIsCore(acts);
    assert EntryAt(Run(INIT, acts), e);
  }

  /** The calls made for row `e`, in order. */
  function CallsOf(calls: seq<Call>, e: nat): seq<Call> {
    if calls == [] then []
    else
      var last := |calls| - 1;
      if calls[last].id == e then CallsOf(calls[..last], e) + [calls[last]] else CallsOf(calls[..last], e)
  }

  lemma {:induction false} CallsOfAnswers(calls: seq<Call>, e: nat)
    ensures |CallsOf(calls, e)| == |Answers(calls, e)|
    ensures forall k :: 0 <= k < |CallsOf(calls, e)| ==>
                          CallsOf(calls, e)[k] in calls && CallsOf(calls, e)[k].id == e
                          && CallsOf(calls, e)[k].answer == Answers(calls, e)[k]
  {
    if calls == [] {
    } else {
      CallsOfAnswers(calls[..|calls| - 1], e);
    }
  }

  /** What SAP was handed: every call carried its row's function and payload, the k-th log of a
      row is the record of its k-th call, and the log's function and request are what that call
      handed over. */
  lemma LogsRecordCalls(acts: seq<Action>, e: nat, k: nat)
    requires e < |Run(INIT, acts).db.outbox|
    ensures var s := Run(INIT, acts);
            var row := s.db.outbox[e];
            var calls := CallsOf(s.hist.calls, e);
            && |s.db.logs| == |s.hist.origin|
            && |Trail(s.db.logs, s.hist.origin, e)| <= |calls|
            && (k < |calls| ==> calls[k].sent.rfc == row.rfc && calls[k].sent.payload == row.payload)
            && (k < |Trail(s.db.logs, s.hist.origin, e)| ==>
                  var log := Trail(s.db.logs, s.hist.origin, e)[k];
                  && log.rfc == calls[k].sent.rfc && log.request == calls[k].sent.payload
                  && (log.status.Success? <==> Accepted(calls[k].answer))
                  && (calls[k].answer.Reply? ==> log.response == Some(calls[k].answer.response)))
  {
    var s := Run(INIT, acts);
    ReachableIsCore(acts);
    AuditTrail(acts, e);
    CallsOfAnswers(s.hist.calls, e);
  }

  // ---- conservation per item

  function LogCount(logs: seq<Log>, item: nat): int {
    if logs == [] then 0
    else LogCount(logs[..|logs| - 1], item) + if logs[|logs| - 1].itemId == item then 1 else 0
  }

  function SuccessCount(logs: seq<Log>, item: nat): int {
    if logs == [] then 0
    else
      var l := logs[|logs| - 1];
      SuccessCount(logs[..|logs| - 1], item) + if l.itemId == item && l.status.Success? then 1 else 0
  }

  predicate Balanced(t: Tables, item: nat) {
    && LogCount(t.logs, item) == RecordedAttempts(t.outbox, |t.outbox|, item)
    && SuccessCount(t.logs, item) == CompletedCount(t.outbox, |t.outbox|, item)
  }

  lemma BalanceClose(t: Tables, t': Tables, id: nat, a: Answer, now: int, item: nat)
    requires Balanced(t, item) && id < |t.outbox| && t.outbox[id].status.Processing?
    requires t'.outbox == t.outbox[id := MarkedRow(t.outbox[id], t.outbox[id], a, now)]
    requires t'.logs == t.logs + [LogFor(t.outbox[id], a)]
    ensures Balanced(t', item)
  {
    UpdatedCounts(t.outbox, id, MarkedRow(t.outbox[id], t.outbox[id], a, now), |t.outbox|, item);
    assert t'.logs[..|t.logs|] == t.logs;
  }

  lemma BalanceClaim(s: State, w: nat, limit: nat, skip: set<nat>, item: nat)
    requires Balanced(s.db, item)
    ensures Balanced(Apply(s, Claim(w, limit, skip)).db, item)
  {
    ClaimContract(s.db.outbox, skip, limit);
    SameCounts(s.db.outbox, Apply(s, Claim(w, limit, skip)).db.outbox, |s.db.outbox|, item);
  }

  lemma BalanceStep(s: State, a: Action, item: nat)
    requires Core(s) && Balanced(s.db, item)
    ensures Balanced(Apply(s, a).db, item)
  {
    var s' := Apply(s, a);
    match a
    case Insert(req, rfc) =>
      InsertShape(s, req, rfc);
      SameCounts(s.db.outbox, s'.db.outbox, |s.db.outbox|, item);
    case Claim(w, limit, skip) => BalanceClaim(s, w, limit, skip, item);
    case CallSap(_, _, _) =>
    case Close(w, now) =>
      if HandOf(s, w).current.Some? {
        CloseShape(s, w, now);
        var cur := HandOf(s, w).current.value;
        BalanceClose(s.db, s'.db, cur.id, cur.answer, now, item);
      }
    case Cancel(o, i, id, now) =>
      CancelShape(s, o, i, id, now);
      if s' != s {
        UpdatedCounts(s.db.outbox, id, CancelledRow(s.db.outbox[id], now), |s.db.outbox|, item);
      }
    case _ => QuietAction(s, a);
  }

  lemma {:induction false} BalanceRun(s: State, acts: seq<Action>, item: nat)
    requires Core(s) && Balanced(s.db, item)
    ensures Balanced(Run(s, acts).db, item)
    decreases |acts|
  {
    if acts == [] {
    } else {
      CoreStep(s, acts[0]);
      BalanceStep(s, acts[0], item);
      BalanceRun(Apply(s, acts[0]), acts[1..], item);
    }
  }

  /** Through every retry, crash and rollback an item has one log per recorded attempt of its
      rows and one SUCCESS log per completed row. */
  lemma LogConservation(acts: seq<Action>, item: nat)
    ensures var t := Run(INIT, acts).db;
            && LogCount(t.logs, item) == RecordedAttempts(t.outbox, |t.outbox|, item)
            && SuccessCount(t.logs, item) == CompletedCount(t.outbox, |t.outbox|, item)
  {
    InitIsCore();
    BalanceRun(INIT, acts, item);
  }
}
