/** Rows that a crash or a lost closing leaves in PROCESSING with nobody to close them, and what
    they block. */
module Stranding {
  import opened Domain
  import opened Queue
  import opened Requests
  import opened Protocol
  import opened CoreInvariant
  import opened Audit
  import opened Statuses
  import opened SerialInvariant
  import opened Lifecycle
  import opened Progress
  import opened Futures

  predicate Stranded(s: State, e: nat) {
    e < |s.db.outbox| && s.db.outbox[e].status.Processing? && e !in Held(s)
  }

  lemma StrandedRow(s: State, a: Action, e: nat)
    requires Core(s) && Stranded(s, e)
    ensures e < |Apply(s, a).db.outbox| && Apply(s, a).db.outbox[e] == s.db.outbox[e] && e !in Taken(s, a)
  {
    match a
    case Insert(req, rfc) => InsertShape(s, req, rfc);
    case Claim(w, limit, skip) => ClaimContract(s.db.outbox, skip, limit);
    case CallSap(_, _, _) =>
    case Close(w, now) =>
      if HandOf(s, w).current.Some? {
        CloseShape(s, w, now);
        assert HandOf(s, w).current.value.id in Held(s);
      }
    case Cancel(o, i, id, now) => CancelShape(s, o, i, id, now);
    case _ => QuietAction(s, a);
  }

  lemma StrandedStep(s: State, a: Action, e: nat)
    requires Core(s) && Stranded(s, e)
    ensures Stranded(Apply(s, a), e) && Apply(s, a).db.outbox[e] == s.db.outbox[e]
    ensures Answers(Apply(s, a).hist.calls, e) == Answers(s.hist.calls, e)
  {
    HeldStep(s, a);
    StrandedRow(s, a, e);
    if a.CallSap? && a.id in HandOf(s, a.w).todo {
      assert a.id in Held(s);
      AnswersAppend(s.hist.calls, CallFor(a.id, HandOf(s, a.w).todo[a.id], a.answer), e);
    }
  }

  /** A PROCESSING row in nobody's hand stays as it is in every later run, SAP does not hear of
      it again, and no enqueue check for its item ever succeeds. */
  lemma {:induction false} StrandedForever(s: State, acts: seq<Action>, e: nat)
    requires Core(s) && Stranded(s, e)
    ensures Stranded(Run(s, acts), e) && Run(s, acts).db.outbox[e] == s.db.outbox[e]
    ensures Answers(Run(s, acts).hist.calls, e) == Answers(s.hist.calls, e)
    ensures forall o, today :: CheckEnqueue(Run(s, acts).db, o, s.db.outbox[e].itemId, today).Err?
    decreases |acts|
  {
    if acts == [] {
      assert HasActive(s.db.outbox, s.db.outbox[e].itemId);
    } else {
      StrandedStep(s, acts[0], e);
      CoreStep(s, acts[0]);
      StrandedForever(Apply(s, acts[0]), acts[1..], e);
    }
  }

  /** A row in hand leaves PROCESSING when its worker closes it, or lets go of another to call it. */
  lemma HeldChanges(s: State, e: nat) returns (acts: seq<Action>)
    requires Core(s) && e in Held(s)
    ensures e < |s.db.outbox| && e < |Run(s, acts).db.outbox| && Run(s, acts).db.outbox[e] != s.db.outbox[e]
  {
    var w :| w in s.hands && e in s.hands[w].todo;
    HeldIsProcessing(s, e);
    if IsCurrent(s, w, e) {
      acts := [Close(w, 0)];
      CloseShows(s, w);
    } else {
      var a := Reply(true, "", "");
      acts := [CloseLost(w)] + [CallSap(w, e, a), Close(w, 0)];
      HeldSends(s, w, e, a);
    }
  }

  /** In every reachable state a PROCESSING row can still change if and only if some worker has
      it in hand. */
  lemma RecoverableIff(before: seq<Action>, e: nat)
    requires e < |Run(INIT, before).db.outbox| && Run(INIT, before).db.outbox[e].status.Processing?
    ensures e in Held(Run(INIT, before)) <==>
            exists acts :: e < |Run(INIT, before + acts).db.outbox|
                           && Run(INIT, before + acts).db.outbox[e] != Run(INIT, before).db.outbox[e]
  {
    var s := Run(INIT, before);
    ReachableIsCore(before);
    if e in Held(s) {
      var acts := HeldChanges(s, e);
      RunAppend(INIT, before, acts);
    } else {
      forall acts ensures Run(INIT, before + acts).db.outbox == Run(s, acts).db.outbox && Stranded(Run(s, acts), e)
                          && Run(s, acts).db.outbox[e] == s.db.outbox[e]
      {
        RunAppend(INIT, before, acts);
        StrandedForever(s, acts, e);
      }
    }
  }

  // ---- the order of a stranded row

  lemma StrandedOwnsItem(s: State, w: nat, e: nat)
    requires Core(s) && Serial(s) && Stranded(s, e) && HandOf(s, w).current.Some?
    ensures var id := HandOf(s, w).current.value.id;
            id < |s.db.outbox| && s.db.outbox[id].itemId != s.db.outbox[e].itemId
  {
    var id := HandOf(s, w).current.value.id;
    assert HandOk(s, w) && InHandOk(s, w, id) && id in Held(s);
    assert Active(s.db.outbox[e]) && Active(s.db.outbox[id]);
  }

  lemma StuckClose(s: State, w: nat, now: int, e: nat)
    requires Core(s) && Serial(s) && Stranded(s, e)
    ensures var i, t' := s.db.outbox[e].itemId, Apply(s, Close(w, now)).db;
            |t'.items| == |s.db.items| && t'.items[i] == s.db.items[i]
  {
    if HandOf(s, w).current.Some? {
      CloseShape(s, w, now);
      StrandedOwnsItem(s, w, e);
    }
  }

  lemma StuckQuiet(s: State, a: Action, i: nat)
    requires IsQuiet(a) && i < |s.db.items| && s.db.items[i].status.Updated?
    ensures var t' := Apply(s, a).db;
            i < |t'.items| && t'.items[i].status.Updated? && t'.items[i].orderId == s.db.items[i].orderId
  {
    QuietStatuses(s, a);
    QuietGrows(s, a);
  }

  lemma StuckStep(s: State, a: Action, e: nat)
    requires Core(s) && Serial(s) && Stranded(s, e) && s.db.items[s.db.outbox[e].itemId].status.Updated?
    ensures var i, t' := s.db.outbox[e].itemId, Apply(s, a).db;
            i < |t'.items| && t'.items[i].status.Updated? && t'.items[i].orderId == s.db.items[i].orderId
  {
    match a
    case Insert(req, rfc) => InsertShape(s, req, rfc);
    case Claim(_, _, _) =>
    case CallSap(_, _, _) =>
    case Close(w, now) => StuckClose(s, w, now, e);
    case Cancel(o, i, id, now) => CancelShape(s, o, i, id, now);
    case _ => StuckQuiet(s, a, s.db.outbox[e].itemId);
  }

  lemma {:induction false} StuckRun(s: State, acts: seq<Action>, e: nat)
    requires Core(s) && Serial(s) && SerialRun(s, acts) && Stranded(s, e)
    requires s.db.items[s.db.outbox[e].itemId].status.Updated?
    requires var o := s.db.items[s.db.outbox[e].itemId].orderId;
             o < |s.db.orders| && OrderOk(s.db, o) && !s.db.orders[o].status.Closed?
    ensures var i, t' := s.db.outbox[e].itemId, Run(s, acts).db;
            var o := s.db.items[i].orderId;
            && i < |t'.items| && t'.items[i].status.Updated?
            && o < |t'.orders| && !t'.orders[o].status.Closed?
    decreases |acts|
  {
    if acts == [] {
    } else {
      var a := acts[0];
      StuckStep(s, a, e);
      OrderStep(s, a, s.db.items[s.db.outbox[e].itemId].orderId);
      StrandedStep(s, a, e);
      CoreStep(s, a);
      SerialStep(s, a);
      StuckRun(Apply(s, a), acts[1..], e);
    }
  }

  /** Without overlapping enqueues a stranded row whose item is UPDATED keeps it UPDATED for
      ever, so the order, if it is not CLOSED yet, never will be. */
  lemma StrandedRowBlocksClosing(before: seq<Action>, later: seq<Action>, e: nat)
    requires SerialRun(INIT, before) && SerialRun(Run(INIT, before), later)
    requires var s := Run(INIT, before);
             && Stranded(s, e)
             && s.db.outbox[e].itemId < |s.db.items|
             && var item := s.db.items[s.db.outbox[e].itemId];
             item.status.Updated? && item.orderId < |s.db.orders| && !s.db.orders[item.orderId].status.Closed?
    ensures var i := Run(INIT, before).db.outbox[e].itemId;
            var o, t' := Run(INIT, before).db.items[i].orderId, Run(INIT, before + later).db;
            && i < |t'.items| && t'.items[i].status.Updated?
            && o < |t'.orders| && !t'.orders[o].status.Closed?
  {
    ReachableIsSerial(before);
    InitIsCore();
    OrdersRun(INIT, before);
    RunAppend(INIT, before, later);
    assert OrderOk(Run(INIT, before).db, Run(INIT, before).db.items[Run(INIT, before).db.outbox[e].itemId].orderId);
    StuckRun(Run(INIT, before), later, e);
  }
}
