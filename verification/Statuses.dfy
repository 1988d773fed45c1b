/** What an item's status says about its logs and rows in every run, however enqueues overlap:
    only a close gives an item a final status, and it writes the log that goes with it. */
module Statuses {
  import opened Domain
  import opened Queue
  import opened Protocol
  import opened CoreInvariant
  import opened Audit

  /** The item's newest log. */
  function NewestLog(logs: seq<Log>, item: nat): (l: Option<nat>)
    ensures l.None? <==> forall k :: 0 <= k < |logs| ==> logs[k].itemId != item
    ensures l.Some? ==> l.value < |logs| && logs[l.value].itemId == item
                        && forall k :: l.value < k < |logs| ==> logs[k].itemId != item
  {
    if logs == [] then None
    else if logs[|logs| - 1].itemId == item then Some(|logs| - 1)
    else NewestLog(logs[..|logs| - 1], item)
  }

  lemma SameNewest(logs: seq<Log>, logs': seq<Log>, i: nat)
    requires logs <= logs' && forall k :: |logs| <= k < |logs'| ==> logs'[k].itemId != i
    ensures NewestLog(logs', i) == NewestLog(logs, i)
  {
    assert forall k :: 0 <= k < |logs| ==> logs'[k] == logs[k];
  }

  lemma LastIsNewest(logs: seq<Log>, i: nat)
    requires logs != [] && logs[|logs| - 1].itemId == i
    ensures NewestLog(logs, i) == Some(|logs| - 1)
  {}

  /** How a quiet action may touch an item's status: only an edit does, moving it to UPDATED. */
  lemma QuietStatuses(s: State, a: Action)
    requires IsQuiet(a)
    ensures var t := s.db;
            var t' := Apply(s, a).db;
            && |t'.items| >= |t.items|
            && (forall i :: 0 <= i < |t.items| ==>
                              t'.items[i].status == t.items[i].status || t'.items[i].status.Updated?)
            && (forall i :: |t.items| <= i < |t'.items| ==> t'.items[i].status.Pending?)
  {}

  /** SYNCED stands on a log of SUCCESS. FAILED stands on a log of FAILED, which is a rejection or
      the last attempt of a row that has failed. PENDING stands on nothing at all. */
  predicate Says(s: State, i: nat)
    requires i < |s.db.items| && |s.db.logs| == |s.hist.origin|
  {
    var n := NewestLog(s.db.logs, i);
    match s.db.items[i].status
    case Pending => n.None? && forall e :: 0 <= e < |s.db.outbox| ==> s.db.outbox[e].itemId != i
    case Updated => true
    case Synced => n.Some? && s.db.logs[n.value].status.Success?
    case Failed =>
      && n.Some? && s.db.logs[n.value].status.Failed? && s.hist.origin[n.value] < |s.db.outbox|
      && (s.db.logs[n.value].response.Some? || s.db.outbox[s.hist.origin[n.value]].status.Failed?)
  }

  predicate TicketsMoved(s: State) {
    forall r :: r in s.tickets ==>
                  s.tickets[r].ticket.itemId < |s.db.items| && !s.db.items[s.tickets[r].ticket.itemId].status.Pending?
  }

  predicate Told(s: State) {
    && |s.db.logs| == |s.hist.origin|
    && (forall i :: 0 <= i < |s.db.items| ==> Says(s, i))
    && TicketsMoved(s)
  }

  /** Rows are added and changed, but not once they are finished. */
  predicate RowsKept(rows: seq<Entry>, rows': seq<Entry>) {
    && |rows| <= |rows'|
    && forall e :: 0 <= e < |rows| ==>
                     rows'[e].itemId == rows[e].itemId && (Finished(rows[e]) ==> rows'[e] == rows[e])
  }

  lemma SaysKept(s: State, s': State, i: nat)
    requires i < |s.db.items| && |s.db.logs| == |s.hist.origin| && Says(s, i)
    requires s'.db.logs == s.db.logs && s'.hist.origin == s.hist.origin && RowsKept(s.db.outbox, s'.db.outbox)
    requires i < |s'.db.items| && (s'.db.items[i].status == s.db.items[i].status || s'.db.items[i].status.Updated?)
    requires s.db.items[i].status.Pending? ==>
               forall e :: |s.db.outbox| <= e < |s'.db.outbox| ==> s'.db.outbox[e].itemId != i
    ensures Says(s', i)
  {}

  lemma ToldInsert(s: State, req: nat, rfc: string)
    requires Core(s) && Told(s)
    ensures Told(Apply(s, Insert(req, rfc)))
  {
    InsertShape(s, req, rfc);
    var s' := Apply(s, Insert(req, rfc));
    forall i | 0 <= i < |s'.db.items| ensures Says(s', i) {
      SaysKept(s, s', i);
    }
  }

  lemma ToldClaim(s: State, w: nat, limit: nat, skip: set<nat>)
    requires Told(s)
    ensures Told(Apply(s, Claim(w, limit, skip)))
  {
    if HandOf(s, w) == EMPTY_HAND {
      ClaimShape(s, w, limit, skip);
      ClaimContract(s.db.outbox, skip, limit);
      var s' := AfterClaim(s, w, ClaimIds(s.db.outbox, skip, limit));
      forall i | 0 <= i < |s'.db.items| ensures Says(s', i) {
        SaysKept(s, s', i);
      }
    }
  }

  lemma SaysClosed(s: State, w: nat, id: nat, a: Answer, now: int, i: nat)
    requires Core(s) && Told(s) && w in s.hands && id < |s.db.outbox| && s.db.outbox[id].status.Processing?
    requires i < |s.db.items|
    ensures Says(AfterClose(s, w, id, a, now), i)
  {
    var s' := AfterClose(s, w, id, a, now);
    var row := s.db.outbox[id];
    if i == row.itemId {
      LastIsNewest(s'.db.logs, i);
    } else {
      assert Says(s, i);
      SameNewest(s.db.logs, s'.db.logs, i);
    }
  }

  lemma ToldClose(s: State, w: nat, now: int)
    requires Core(s) && Told(s)
    ensures Told(Apply(s, Close(w, now)))
  {
    if HandOf(s, w).current.Some? {
      CloseShape(s, w, now);
      var cur := HandOf(s, w).current.value;
      var s' := AfterClose(s, w, cur.id, cur.answer, now);
      forall i | 0 <= i < |s'.db.items| ensures Says(s', i) {
        SaysClosed(s, w, cur.id, cur.answer, now, i);
      }
    }
  }

  lemma ToldCancel(s: State, o: nat, j: nat, id: nat, now: int)
    requires Core(s) && Told(s)
    ensures Told(Apply(s, Cancel(o, j, id, now)))
  {
    CancelShape(s, o, j, id, now);
    var s' := Apply(s, Cancel(o, j, id, now));
    forall i | 0 <= i < |s'.db.items| ensures Says(s', i) {
      SaysKept(s, s', i);
    }
  }

  lemma QuietTicketsMoved(s: State, a: Action)
    requires IsQuiet(a) && TicketsMoved(s)
    ensures TicketsMoved(Apply(s, a))
  {
    QuietStatuses(s, a);
  }

  lemma ToldQuiet(s: State, a: Action)
    requires IsQuiet(a) && Core(s) && Told(s)
    ensures Told(Apply(s, a))
  {
    QuietAction(s, a);
    QuietStatuses(s, a);
    QuietTicketsMoved(s, a);
    var s' := Apply(s, a);
    forall i | 0 <= i < |s'.db.items| ensures Says(s', i) {
      if i < |s.db.items| {
        SaysKept(s, s', i);
      }
    }
  }

  lemma ToldStep(s: State, a: Action)
    requires Core(s) && Told(s)
    ensures Told(Apply(s, a))
  {
    match a
    case Insert(req, rfc) => ToldInsert(s, req, rfc);
    case Claim(w, limit, skip) => ToldClaim(s, w, limit, skip);
    case CallSap(_, _, _) =>
      forall i | 0 <= i < |s.db.items| ensures Says(Apply(s, a), i) {
        SaysKept(s, Apply(s, a), i);
      }
    case Close(w, now) => ToldClose(s, w, now);
    case Cancel(o, i, id, now) => ToldCancel(s, o, i, id, now);
    case _ => ToldQuiet(s, a);
  }

  lemma {:induction false} ToldRun(s: State, acts: seq<Action>)
    requires Core(s) && Told(s)
    ensures Told(Run(s, acts))
    decreases |acts|
  {
    if acts == [] {
    } else {
      CoreStep(s, acts[0]);
      ToldStep(s, acts[0]);
      ToldRun(Apply(s, acts[0]), acts[1..]);
    }
  }

  /** In every run the newest log of a SYNCED item is a SUCCESS, that of a FAILED item a FAILED
      log, written for a rejection or by a row that has failed for good, and a PENDING item has no
      row and no log. */
  lemma StatusStandsOnLogs(acts: seq<Action>, i: nat)
    requires i < |Run(INIT, acts).db.items|
    ensures var s := Run(INIT, acts);
            var newest := NewestLog(s.db.logs, i);
            && |s.db.logs| == |s.hist.origin|
            && match s.db.items[i].status
               case Pending => newest.None? && forall e :: 0 <= e < |s.db.outbox| ==> s.db.outbox[e].itemId != i
               case Updated => true
               case Synced => newest.Some? && s.db.logs[newest.value].status.Success?
               case Failed =>
                 && newest.Some? && s.db.logs[newest.value].status.Failed?
                 && var e := s.hist.origin[newest.value];
                 && e < |s.db.outbox| && s.db.outbox[e].itemId == i
                 && (s.db.logs[newest.value].response.Some? || s.db.outbox[e].status.Failed?)
  {
    InitIsCore();
    ReachableIsCore(acts);
    ToldRun(INIT, acts);
    assert Says(Run(INIT, acts), i);
  }
}
