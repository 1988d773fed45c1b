/** Edits that a close can hide: exactly when an accepted edit can end as an item that is SYNCED
    although SAP accepted other content. */
module Masking {
  import opened Domain
  import opened Requests
  import opened Protocol
  import opened CoreInvariant
  import opened Audit
  import opened Statuses
  import opened Content
  import opened Progress
  import opened Futures
  import opened Outcomes

  predicate Differs(p: Payload, item: Item) {
    p.description != item.description || p.deliveryDate != item.deliveryDate
  }

  /** The item is SYNCED, but the newest call recorded for it carried other content. */
  predicate Stale(t: Tables, i: nat)
    requires i < |t.items|
  {
    var newest := NewestLog(t.logs, i);
    t.items[i].status.Synced? && newest.Some? && Differs(t.logs[newest.value].request, t.items[i])
  }

  predicate AcceptedNow(s: State, w: nat, e: nat) {
    w in s.hands && e in s.hands[w].todo && IsCurrent(s, w, e) && Accepted(s.hands[w].current.value.answer)
  }

  /** SAP's acceptance of row `e` can still be recorded: the row can be called, or its current
      call was accepted and is about to be closed. */
  predicate Acceptable(s: State, e: nat)
    requires e < |s.db.outbox|
  {
    Callable(s, e) || exists w :: w in s.hands && AcceptedNow(s, w, e)
  }

  predicate ExposedRow(s: State, i: nat, e: nat)
    requires i < |s.db.items|
  {
    && e < |s.db.outbox| && s.db.outbox[e].itemId == i
    && Differs(s.db.outbox[e].payload, s.db.items[i]) && Acceptable(s, e)
  }

  predicate ExposedTicket(s: State, i: nat, r: nat)
    requires i < |s.db.items|
  {
    && r in s.tickets && s.tickets[r].ticket.itemId == i
    && Differs(BuildPayload(s.tickets[r].ticket.orderNumber, s.tickets[r].ticket.item), s.db.items[i])
  }

  /** Something on its way to SAP says other than item `i` does: a row that can still be accepted,
      or an enqueue between its check and its insert. */
  predicate Exposed(s: State, i: nat)
    requires i < |s.db.items|
  {
    || (exists e :: 0 <= e < |s.db.outbox| && ExposedRow(s, i, e))
    || (exists r :: r in s.tickets && ExposedTicket(s, i, r))
  }

  /** A run without another accepted edit of item `i` leaves it stale. */
  predicate Masks(s: State, later: seq<Action>, i: nat) {
    var s' := Run(s, later);
    EditsOf(s', i) == EditsOf(s, i) && i < |s'.db.items| && Stale(s'.db, i)
  }

  predicate StartsNoEnqueue(acts: seq<Action>) {
    forall k :: 0 <= k < |acts| ==> !acts[k].Check?
  }

  // ---- nothing exposed stays so

  lemma ContentStays(s: State, a: Action, i: nat)
    requires Core(s) && i < |s.db.items|
    ensures i < |Apply(s, a).db.items| && EditsOf(Apply(s, a), i) >= EditsOf(s, i)
    ensures EditsOf(Apply(s, a), i) == EditsOf(s, i) ==>
              && Apply(s, a).db.items[i].description == s.db.items[i].description
              && Apply(s, a).db.items[i].deliveryDate == s.db.items[i].deliveryDate
  {
    CoreStep(s, a);
    if IsQuiet(a) {
      QuietKeepsContent(s, a);
    } else {
      QueueKeepsContent(s, a);
    }
  }

  lemma AcceptedBefore(s: State, a: Action, w: nat, e: nat)
    requires Core(s) && e !in Taken(s, a) && AcceptedNow(Apply(s, a), w, e)
    ensures AcceptedNow(s, w, e) || Uncalled(s, w, e)
  {
    HandStep(s, a, w, e);
  }

  lemma UnacceptableStep(s: State, a: Action, e: nat)
    requires Core(s) && e < |s.db.outbox| && !Acceptable(s, e)
    ensures e < |Apply(s, a).db.outbox| && !Acceptable(Apply(s, a), e)
  {
    UncallableStep(s, a, e);
    NotTakenUnlessPending(s, a, e);
    forall w | w in Apply(s, a).hands && AcceptedNow(Apply(s, a), w, e) ensures false {
      AcceptedBefore(s, a, w, e);
    }
  }

  /** Rows keep their item and payload, and a new row carries what its ticket read. */
  lemma RowOrigin(s: State, a: Action, e: nat)
    requires Core(s) && e < |Apply(s, a).db.outbox|
    ensures var row := Apply(s, a).db.outbox[e];
            if e < |s.db.outbox| then row.itemId == s.db.outbox[e].itemId && row.payload == s.db.outbox[e].payload
            else
              && a.Insert? && a.req in s.tickets && row.itemId == s.tickets[a.req].ticket.itemId
              && row.payload == BuildPayload(s.tickets[a.req].ticket.orderNumber, s.tickets[a.req].ticket.item)
  {
    if IsQuiet(a) {
      QuietAction(s, a);
    } else if a.Insert? {
      InsertShape(s, a.req, a.rfc);
    } else {
      NoInsertSameLength(s, a);
      QueueStep(s, a);
    }
  }

  lemma UnexposedRows(s: State, a: Action, i: nat, e: nat)
    requires Core(s) && i < |s.db.items| && !Exposed(s, i) && EditsOf(Apply(s, a), i) == EditsOf(s, i)
    requires i < |Apply(s, a).db.items|
    ensures !ExposedRow(Apply(s, a), i, e)
  {
    ContentStays(s, a, i);
    if ExposedRow(Apply(s, a), i, e) {
      RowOrigin(s, a, e);
      if e < |s.db.outbox| {
        if !Acceptable(s, e) {
          UnacceptableStep(s, a, e);
        }
        assert ExposedRow(s, i, e);
      } else {
        assert ExposedTicket(s, i, a.req);
      }
      assert false;
    }
  }

  lemma UnexposedTickets(s: State, a: Action, i: nat, r: nat)
    requires Core(s) && i < |s.db.items| && !Exposed(s, i) && EditsOf(Apply(s, a), i) == EditsOf(s, i)
    requires i < |Apply(s, a).db.items|
    ensures !ExposedTicket(Apply(s, a), i, r)
  {
    ContentStays(s, a, i);
    if ExposedTicket(Apply(s, a), i, r) {
      TicketOrigin(s, a, r);
      assert r in s.tickets && Apply(s, a).tickets[r] == s.tickets[r] ==> ExposedTicket(s, i, r);
      assert false;
    }
  }

  /** A step that writes no log of the item and gives it no new SYNCED status makes it stale only
      if it was. */
  lemma FreshQuiet(s: State, s': State, i: nat)
    requires i < |s.db.items| && !Stale(s.db, i) && i < |s'.db.items| && s'.db.logs == s.db.logs
    requires s'.db.items[i].description == s.db.items[i].description
    requires s'.db.items[i].deliveryDate == s.db.items[i].deliveryDate
    requires s'.db.items[i].status == s.db.items[i].status || !s'.db.items[i].status.Synced?
    ensures !Stale(s'.db, i)
  {}

  lemma FreshClose(s: State, w: nat, now: int, i: nat)
    requires Core(s) && i < |s.db.items| && !Exposed(s, i) && !Stale(s.db, i)
    ensures i < |Apply(s, Close(w, now)).db.items| && !Stale(Apply(s, Close(w, now)).db, i)
  {
    if HandOf(s, w).current.Some? {
      CloseShape(s, w, now);
      var cur := HandOf(s, w).current.value;
      var row := s.db.outbox[cur.id];
      if row.itemId == i {
        LastIsNewest(s.db.logs + [LogFor(row, cur.answer)], i);
        if Accepted(cur.answer) {
          assert AcceptedNow(s, w, cur.id);
          assert !ExposedRow(s, i, cur.id);
        }
      } else {
        SameNewest(s.db.logs, s.db.logs + [LogFor(row, cur.answer)], i);
      }
    }
  }

  lemma FreshStep(s: State, a: Action, i: nat)
    requires Core(s) && i < |s.db.items| && !Exposed(s, i) && !Stale(s.db, i)
    requires EditsOf(Apply(s, a), i) == EditsOf(s, i)
    ensures i < |Apply(s, a).db.items| && !Stale(Apply(s, a).db, i)
  {
    ContentStays(s, a, i);
    match a
    case Insert(req, rfc) =>
      InsertShape(s, req, rfc);
      FreshQuiet(s, Apply(s, a), i);
    case Claim(_, _, _) => FreshQuiet(s, Apply(s, a), i);
    case CallSap(_, _, _) => FreshQuiet(s, Apply(s, a), i);
    case Close(w, now) => FreshClose(s, w, now, i);
    case Cancel(o, j, id, now) =>
      CancelShape(s, o, j, id, now);
      FreshQuiet(s, Apply(s, a), i);
    case _ =>
      QuietAction(s, a);
      QuietStatuses(s, a);
      FreshQuiet(s, Apply(s, a), i);
  }

  lemma {:induction false} EditsGrow(s: State, acts: seq<Action>, i: nat)
    requires Core(s) && i < |s.db.items|
    ensures EditsOf(Run(s, acts), i) >= EditsOf(s, i)
    decreases |acts|
  {
    if acts == [] {
    } else {
      ContentStays(s, acts[0], i);
      CoreStep(s, acts[0]);
      EditsGrow(Apply(s, acts[0]), acts[1..], i);
    }
  }

  lemma {:induction false} NeverMasked(s: State, acts: seq<Action>, i: nat)
    requires Core(s) && i < |s.db.items| && !Exposed(s, i) && !Stale(s.db, i)
    requires EditsOf(Run(s, acts), i) == EditsOf(s, i)
    ensures i < |Run(s, acts).db.items| && !Stale(Run(s, acts).db, i)
    decreases |acts|
  {
    if acts == [] {
    } else {
      var s' := Apply(s, acts[0]);
      ContentStays(s, acts[0], i);
      CoreStep(s, acts[0]);
      EditsGrow(s', acts[1..], i);
      FreshStep(s, acts[0], i);
      forall e | 0 <= e < |s'.db.outbox| ensures !ExposedRow(s', i, e) {
        UnexposedRows(s, acts[0], i, e);
      }
      forall r | r in s'.tickets ensures !ExposedTicket(s', i, r) {
        UnexposedTickets(s, acts[0], i, r);
      }
      NeverMasked(s', acts[1..], i);
    }
  }

  // ---- something exposed can be accepted

  const YES := Reply(true, "", "")

  lemma ShownIsStale(s: State, s': State, i: nat, e: nat, a: Answer)
    requires Core(s) && Shown(s, s', e, a) && Accepted(a) && i < |s.db.items|
    requires s.db.outbox[e].itemId == i && Differs(s.db.outbox[e].payload, s.db.items[i])
    ensures i < |s'.db.items| && Stale(s'.db, i) && EditsOf(s', i) == EditsOf(s, i)
  {
    LastIsNewest(s'.db.logs, i);
  }

  lemma RowMasks(s: State, i: nat, e: nat) returns (later: seq<Action>)
    requires Core(s) && i < |s.db.items| && ExposedRow(s, i, e)
    ensures Masks(s, later, i) && StartsNoEnqueue(later)
  {
    if Callable(s, e) {
      later := CallableSends(s, e, YES);
      ShownIsStale(s, Run(s, later), i, e, YES);
    } else {
      var w :| w in s.hands && AcceptedNow(s, w, e);
      later := [Close(w, 0)];
      CloseShows(s, w);
      ShownIsStale(s, Run(s, later), i, e, s.hands[w].current.value.answer);
    }
  }

  lemma TicketMasks(s: State, i: nat, r: nat) returns (later: seq<Action>)
    requires Core(s) && i < |s.db.items| && ExposedTicket(s, i, r)
    ensures Masks(s, later, i) && StartsNoEnqueue(later)
  {
    var a := Insert(r, "");
    var t := Apply(s, a);
    InsertShape(s, r, "");
    CoreStep(s, a);
    ContentStays(s, a, i);
    assert ExposedRow(t, i, |s.db.outbox|);
    var rest := RowMasks(t, i, |s.db.outbox|);
    later := [a] + rest;
    assert later[1..] == rest;
  }

  lemma ExposedMasks(s: State, i: nat) returns (later: seq<Action>)
    requires Core(s) && i < |s.db.items| && Exposed(s, i)
    ensures Masks(s, later, i) && StartsNoEnqueue(later)
  {
    if e :| 0 <= e < |s.db.outbox| && ExposedRow(s, i, e) {
      later := RowMasks(s, i, e);
    } else {
      var r :| r in s.tickets && ExposedTicket(s, i, r);
      later := TicketMasks(s, i, r);
    }
  }

  // ---- exactly when

  /** In every good state an item that is not stale can become so without a further edit if and
      only if something on its way to SAP says other than the item does. */
  lemma CanBeMaskedIff(s: State, i: nat)
    requires Core(s) && i < |s.db.items| && !Stale(s.db, i)
    ensures (exists later :: Masks(s, later, i)) <==> Exposed(s, i)
  {
    if Exposed(s, i) {
      var later := ExposedMasks(s, i);
    } else {
      forall later ensures !Masks(s, later, i) {
        if Masks(s, later, i) {
          NeverMasked(s, later, i);
        }
      }
    }
  }

  /** Overlapping enqueues make no difference to that. */
  lemma CanBeMaskedSeriallyIff(s: State, i: nat)
    requires Core(s) && NoOverlap(s) && i < |s.db.items| && !Stale(s.db, i)
    ensures (exists later :: SerialRun(s, later) && Masks(s, later, i)) <==> Exposed(s, i)
  {
    CanBeMaskedIff(s, i);
    if Exposed(s, i) {
      var later := ExposedMasks(s, i);
      SerialWithoutChecks(s, later);
    }
  }

  /** In every run an accepted edit can be hidden by a later close, with no further edit, if and
      only if right after it something on its way to SAP says other than the item does: a PENDING
      row, a row in hand that is not called yet, was accepted or can be put back, or an enqueue
      between check and insert. */
  lemma EditCanBeMaskedIff(before: seq<Action>, edit: Action)
    requires edit.EditItem?
    requires EditItemTx(Run(INIT, before).db, edit.o, edit.i, edit.newDescription, edit.newDate, None, edit.today).Ok?
    ensures var s := Apply(Run(INIT, before), edit);
            edit.i < |s.db.items| && ((exists later :: Masks(s, later, edit.i)) <==> Exposed(s, edit.i))
  {
    var s0 := Run(INIT, before);
    ReachableIsCore(before);
    CoreStep(s0, edit);
    EditOutcome(s0.db, edit.o, edit.i, edit.newDescription, edit.newDate, edit.today);
    CanBeMaskedIff(Apply(s0, edit), edit.i);
  }

  lemma {:induction false} NoOverlapAfter(s: State, acts: seq<Action>)
    requires SerialRun(s, acts)
    ensures NoOverlap(Run(s, acts))
    decreases |acts|
  {
    if acts == [] {
    } else {
      NoOverlapAfter(Apply(s, acts[0]), acts[1..]);
    }
  }

  /** The same condition decides when enqueues for one item overlap neither before the edit nor
      after it. */
  lemma EditCanBeMaskedSeriallyIff(before: seq<Action>, edit: Action)
    requires SerialRun(INIT, before) && edit.EditItem?
    requires EditItemTx(Run(INIT, before).db, edit.o, edit.i, edit.newDescription, edit.newDate, None, edit.today).Ok?
    ensures var s := Apply(Run(INIT, before), edit);
            && edit.i < |s.db.items|
            && ((exists later :: SerialRun(s, later) && Masks(s, later, edit.i)) <==> Exposed(s, edit.i))
  {
    var s0 := Run(INIT, before);
    ReachableIsCore(before);
    NoOverlapAfter(INIT, before);
    CoreStep(s0, edit);
    EditOutcome(s0.db, edit.o, edit.i, edit.newDescription, edit.newDate, edit.today);
    CanBeMaskedSeriallyIff(Apply(s0, edit), edit.i);
  }
}
