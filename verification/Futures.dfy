/** What can still become of a row: which runs deliver it to SAP, and exactly when there is one. */
module Futures {
  import opened Domain
  import opened Queue
  import opened Requests
  import opened Protocol
  import opened CoreInvariant
  import opened Audit
  import opened Lifecycle
  import opened Progress

  // ---- runs without overlap

  lemma TicketsShrink(s: State, a: Action)
    requires Typed(s) && !a.Check?
    ensures forall r :: r in Apply(s, a).tickets ==> r in s.tickets && Apply(s, a).tickets[r] == s.tickets[r]
  {
    match a
    case Insert(req, rfc) => InsertShape(s, req, rfc);
    case _ =>
  }

  /** A run that starts no enqueue creates no overlap. */
  lemma {:induction false} SerialWithoutChecks(s: State, acts: seq<Action>)
    requires Core(s) && NoOverlap(s) && forall k :: 0 <= k < |acts| ==> !acts[k].Check?
    ensures SerialRun(s, acts)
    decreases |acts|
  {
    if acts == [] {
    } else {
      assert !acts[0].Check?;
      TicketsShrink(s, acts[0]);
      CoreStep(s, acts[0]);
      SerialWithoutChecks(Apply(s, acts[0]), acts[1..]);
    }
  }

  lemma {:induction false} SerialAppend(s: State, xs: seq<Action>, ys: seq<Action>)
    requires SerialRun(s, xs) && SerialRun(Run(s, xs), ys)
    ensures SerialRun(s, xs + ys)
    decreases |xs|
  {
    if xs == [] {
      assert xs + ys == ys;
    } else {
      assert (xs + ys)[1..] == xs[1..] + ys;
      SerialAppend(Apply(s, xs[0]), xs[1..], ys);
    }
  }

  // ---- delivering a row

  /** From `s` to `s'` row `e` was closed with answer `a`: its item shows the outcome, the newest
      log carries its payload, the row is out of PROCESSING, and no enqueue and no edit came in
      between. */
  predicate Shown(s: State, s': State, e: nat, a: Answer) {
    && e < |s.db.outbox| && s.db.outbox[e].itemId < |s.db.items|
    && Core(s') && |s'.db.items| == |s.db.items|
    && s'.tickets == s.tickets && s'.hist.edits == s.hist.edits
    && var i := s.db.outbox[e].itemId;
    && s'.db.items[i] == s.db.items[i].(status := s'.db.items[i].status)
    && (Accepted(a) ==> s'.db.items[i].status.Synced?)
    && |s'.db.logs| > 0
    && s'.db.logs[|s'.db.logs| - 1].itemId == i
    && s'.db.logs[|s'.db.logs| - 1].request == s.db.outbox[e].payload
    && e < |s'.db.outbox| && !s'.db.outbox[e].status.Processing?
  }

  /** Moreover SAP was called for the row, this once. */
  predicate Sent(s: State, s': State, e: nat, a: Answer) {
    Shown(s, s', e, a) && s'.hist.calls == s.hist.calls + [CallFor(e, s.db.outbox[e], a)]
  }

  lemma CloseShows(s: State, w: nat)
    requires Core(s) && HandOf(s, w).current.Some?
    ensures var cur := HandOf(s, w).current.value;
            var s' := Run(s, [Close(w, 0)]);
            && Shown(s, s', cur.id, cur.answer) && s'.hist.calls == s.hist.calls
            && |s'.db.outbox| == |s.db.outbox|
            && s'.db.outbox[cur.id] == MarkedRow(s.db.outbox[cur.id], s.db.outbox[cur.id], cur.answer, 0)
  {
    CloseShape(s, w, 0);
    CoreStep(s, Close(w, 0));
    RunOne(s, Close(w, 0));
  }

  lemma CallSends(s: State, w: nat, e: nat, a: Answer)
    requires Core(s) && e in HandOf(s, w).todo && HandOf(s, w).current.None?
    ensures var s' := Run(s, [CallSap(w, e, a), Close(w, 0)]);
            Sent(s, s', e, a) && s'.db.outbox[e] == MarkedRow(s.db.outbox[e], s.db.outbox[e], a, 0)
  {
    var t := Apply(s, CallSap(w, e, a));
    CoreStep(s, CallSap(w, e, a));
    RunTwo(s, CallSap(w, e, a), Close(w, 0));
    RunOne(t, Close(w, 0));
    assert HandOk(s, w) && InHandOk(s, w, e);
    assert t.db == s.db && t.tickets == s.tickets
           && t.hist == s.hist.(calls := s.hist.calls + [CallFor(e, s.db.outbox[e], a)])
           && HandOf(t, w).current == Some(Attempt(e, a));
    CloseShows(t, w);
  }

  lemma Freed(s: State, w: nat, e: nat)
    requires Core(s) && e in HandOf(s, w).todo
    requires HandOf(s, w).current.Some? ==> HandOf(s, w).current.value.id != e
    ensures var s' := Apply(s, CloseLost(w));
            && Core(s') && s'.db == s.db && s'.tickets == s.tickets && s'.hist == s.hist
            && HandOf(s', w).current.None? && e in HandOf(s', w).todo
  {
    QuietRelease(s, CloseLost(w));
    CoreStep(s, CloseLost(w));
  }

  /** A worker can leave its current row and turn to any other that it holds. */
  lemma HeldSends(s: State, w: nat, e: nat, a: Answer)
    requires Core(s) && e in HandOf(s, w).todo
    requires HandOf(s, w).current.Some? ==> HandOf(s, w).current.value.id != e
    ensures var s' := Run(s, [CloseLost(w)] + [CallSap(w, e, a), Close(w, 0)]);
            Sent(s, s', e, a) && s'.db.outbox[e] == MarkedRow(s.db.outbox[e], s.db.outbox[e], a, 0)
  {
    RunAppend(s, [CloseLost(w)], [CallSap(w, e, a), Close(w, 0)]);
    RunOne(s, CloseLost(w));
    Freed(s, w, e);
    CallSends(Apply(s, CloseLost(w)), w, e, a);
  }

  lemma {:induction false} UpperBound(ws: set<nat>) returns (b: nat)
    ensures forall w :: w in ws ==> w < b
    decreases |ws|
  {
    if ws == {} {
      b := 0;
    } else {
      var w :| w in ws;
      var rest := UpperBound(ws - {w});
      b := if rest <= w then w + 1 else rest;
      assert ws == ws - {w} + {w};
    }
  }

  function Below(n: nat): (ids: set<nat>)
    ensures forall x: nat :: x in ids <==> x < n
  {
    if n == 0 then {} else Below(n - 1) + {n - 1}
  }

  /** A claim of one row that finds every other row locked. */
  function ClaimOf(s: State, w: nat, e: nat): Action {
    Claim(w, 1, Below(|s.db.outbox|) - {e})
  }

  lemma ClaimsJust(s: State, w: nat, e: nat)
    requires Core(s) && e < |s.db.outbox| && s.db.outbox[e].status.Pending? && w !in s.hands
    ensures Apply(s, ClaimOf(s, w, e)) == AfterClaim(s, w, {e})
  {
    assert EntryAt(s, e);
    ClaimIsUnique(s.db.outbox, ClaimOf(s, w, e).skip, 1, {e});
    ClaimShape(s, w, 1, ClaimOf(s, w, e).skip);
  }

  lemma PendingSends(s: State, e: nat, a: Answer) returns (later: seq<Action>)
    requires Core(s) && e < |s.db.outbox| && s.db.outbox[e].status.Pending?
    ensures Sent(s, Run(s, later), e, a)
    ensures forall k :: 0 <= k < |later| ==> !later[k].Check?
  {
    var w := UpperBound(s.hands.Keys);
    ClaimsJust(s, w, e);
    CoreStep(s, ClaimOf(s, w, e));
    later := [ClaimOf(s, w, e)] + [CallSap(w, e, a), Close(w, 0)];
    RunAppend(s, [ClaimOf(s, w, e)], [CallSap(w, e, a), Close(w, 0)]);
    RunOne(s, ClaimOf(s, w, e));
    CallSends(AfterClaim(s, w, {e}), w, e, a);
  }

  // ---- rows that can still be called

  predicate IsCurrent(s: State, w: nat, e: nat)
    requires w in s.hands
  {
    s.hands[w].current.Some? && s.hands[w].current.value.id == e
  }

  /** Worker `w` can put row `e` back: it has it in hand with an attempt left, and its call, if
      it has been made, was not accepted. */
  predicate CanReturn(s: State, w: nat, e: nat) {
    && w in s.hands && e in s.hands[w].todo && e < |s.db.outbox|
    && s.db.outbox[e].attempts < MAX_ATTEMPTS
    && (IsCurrent(s, w, e) ==> !Accepted(s.hands[w].current.value.answer))
  }

  /** Worker `w` has row `e` in hand and has not called for it yet. */
  predicate Uncalled(s: State, w: nat, e: nat) {
    w in s.hands && e in s.hands[w].todo && !IsCurrent(s, w, e)
  }

  /** The row waits, or a worker has it in hand and either has not called yet or can put it back. */
  predicate Callable(s: State, e: nat)
    requires e < |s.db.outbox|
  {
    s.db.outbox[e].status.Pending? || exists w :: w in s.hands && (Uncalled(s, w, e) || CanReturn(s, w, e))
  }

  lemma ShownThenSent(s: State, t: State, s': State, e: nat, b: Answer, a: Answer)
    requires Shown(s, t, e, b) && t.hist.calls == s.hist.calls && Sent(t, s', e, a)
    requires t.db.outbox[e].itemId == s.db.outbox[e].itemId && t.db.outbox[e].rfc == s.db.outbox[e].rfc
    requires t.db.outbox[e].payload == s.db.outbox[e].payload
    ensures Sent(s, s', e, a)
  {}

  lemma ReturnedSends(s: State, w: nat, e: nat, a: Answer) returns (later: seq<Action>)
    requires Core(s) && w in s.hands && IsCurrent(s, w, e) && CanReturn(s, w, e)
    ensures Sent(s, Run(s, later), e, a)
    ensures forall k :: 0 <= k < |later| ==> !later[k].Check?
  {
    var t := Run(s, [Close(w, 0)]);
    CloseShows(s, w);
    assert EntryAt(s, e);
    var rest := PendingSends(t, e, a);
    later := [Close(w, 0)] + rest;
    RunAppend(s, [Close(w, 0)], rest);
    ShownThenSent(s, t, Run(t, rest), e, s.hands[w].current.value.answer, a);
  }

  /** A row that can be called can be called with any answer and closed. */
  lemma CallableSends(s: State, e: nat, a: Answer) returns (later: seq<Action>)
    requires Core(s) && e < |s.db.outbox| && Callable(s, e)
    ensures Sent(s, Run(s, later), e, a)
    ensures forall k :: 0 <= k < |later| ==> !later[k].Check?
  {
    if s.db.outbox[e].status.Pending? {
      later := PendingSends(s, e, a);
    } else {
      var w :| w in s.hands && (Uncalled(s, w, e) || CanReturn(s, w, e));
      if IsCurrent(s, w, e) {
        later := ReturnedSends(s, w, e, a);
      } else {
        HeldSends(s, w, e, a);
        later := [CloseLost(w)] + [CallSap(w, e, a), Close(w, 0)];
      }
    }
  }

  // ---- rows that cannot

  lemma QuietHand(s: State, a: Action, w: nat, e: nat)
    requires IsQuiet(a) && w in Apply(s, a).hands && e in Apply(s, a).hands[w].todo
    ensures w in s.hands && e in s.hands[w].todo
    ensures IsCurrent(s, w, e) ==> Apply(s, a).hands[w].current == s.hands[w].current
    ensures IsCurrent(Apply(s, a), w, e) ==> IsCurrent(s, w, e)
  {
    QuietAction(s, a);
  }

  lemma ClosedHand(s: State, v: nat, now: int, w: nat, e: nat)
    requires Core(s)
    requires w in Apply(s, Close(v, now)).hands && e in Apply(s, Close(v, now)).hands[w].todo
    ensures w in s.hands && e in s.hands[w].todo
    ensures IsCurrent(s, w, e) ==> Apply(s, Close(v, now)).hands[w].current == s.hands[w].current
    ensures IsCurrent(Apply(s, Close(v, now)), w, e) ==> IsCurrent(s, w, e)
  {
    if HandOf(s, v).current.Some? {
      CloseShape(s, v, now);
    }
  }

  /** A row that an action does not claim is in a hand afterwards only if it was there before,
      and becomes that hand's current row only by a call. */
  lemma HandStep(s: State, a: Action, w: nat, e: nat)
    requires Core(s) && e !in Taken(s, a)
    requires w in Apply(s, a).hands && e in Apply(s, a).hands[w].todo
    ensures w in s.hands && e in s.hands[w].todo
    ensures IsCurrent(s, w, e) ==> Apply(s, a).hands[w].current == s.hands[w].current
    ensures IsCurrent(Apply(s, a), w, e) && !IsCurrent(s, w, e) ==> a.CallSap? && a.w == w && a.id == e
  {
    match a
    case Insert(req, rfc) => InsertShape(s, req, rfc);
    case Claim(_, _, _) =>
    case CallSap(_, _, _) =>
    case Close(_, _) => ClosedHand(s, a.w, a.now, w, e);
    case Cancel(o, i, id, now) => CancelShape(s, o, i, id, now);
    case _ => QuietHand(s, a, w, e);
  }

  predicate Returnable(s: State, e: nat) {
    exists w :: w in s.hands && CanReturn(s, w, e)
  }

  lemma PutBack(s: State, w: nat, now: int, e: nat)
    requires Core(s) && e < |s.db.outbox| && !s.db.outbox[e].status.Pending?
    ensures e < |Apply(s, Close(w, now)).db.outbox|
    ensures Apply(s, Close(w, now)).db.outbox[e].status.Pending? ==> Returnable(s, e)
  {
    if HandOf(s, w).current.Some? {
      CloseShape(s, w, now);
      assert EntryAt(s, e) && HandOk(s, w);
      assert Apply(s, Close(w, now)).db.outbox[e].status.Pending? ==> CanReturn(s, w, e);
    }
  }

  /** A row that is not PENDING goes back to PENDING only out of a hand that can put it back. */
  lemma PendingAgain(s: State, a: Action, e: nat)
    requires Core(s) && e < |s.db.outbox| && !s.db.outbox[e].status.Pending?
    ensures e < |Apply(s, a).db.outbox|
    ensures Apply(s, a).db.outbox[e].status.Pending? ==> Returnable(s, e)
  {
    match a
    case Insert(req, rfc) => InsertShape(s, req, rfc);
    case Claim(w, limit, skip) => ClaimContract(s.db.outbox, skip, limit);
    case CallSap(_, _, _) =>
    case Close(w, now) => PutBack(s, w, now, e);
    case Cancel(o, i, id, now) => CancelShape(s, o, i, id, now);
    case _ => QuietAction(s, a);
  }

  lemma NotTakenUnlessPending(s: State, a: Action, e: nat)
    requires e < |s.db.outbox| && !s.db.outbox[e].status.Pending?
    ensures e !in Taken(s, a)
  {
    if e in Taken(s, a) {
      ClaimContract(s.db.outbox, a.skip, a.limit);
    }
  }

  lemma UnreturnableStep(s: State, a: Action, e: nat)
    requires Core(s) && e < |s.db.outbox| && !s.db.outbox[e].status.Pending? && !Returnable(s, e)
    ensures e < |Apply(s, a).db.outbox| && !Apply(s, a).db.outbox[e].status.Pending? && !Returnable(Apply(s, a), e)
  {
    PendingAgain(s, a, e);
    NotTakenUnlessPending(s, a, e);
    UnclaimedStep(s, a, e);
    forall w | w in Apply(s, a).hands && CanReturn(Apply(s, a), w, e) ensures false {
      HandStep(s, a, w, e);
      assert CanReturn(s, w, e);
    }
  }

  lemma SameCalls(s: State, a: Action)
    requires Core(s)
    requires a.CallSap? ==> a.id !in HandOf(s, a.w).todo || HandOf(s, a.w).current.Some?
    ensures Apply(s, a).hist.calls == s.hist.calls
  {
    match a
    case Insert(req, rfc) => InsertShape(s, req, rfc);
    case Close(w, now) =>
      if HandOf(s, w).current.Some? {
        CloseShape(s, w, now);
      }
    case Cancel(o, i, id, now) => CancelShape(s, o, i, id, now);
    case _ =>
      if IsQuiet(a) {
        QuietAction(s, a);
      }
  }

  lemma UncalledAnswers(s: State, a: Action, e: nat)
    requires Core(s) && forall w :: w in s.hands ==> !Uncalled(s, w, e)
    ensures Answers(Apply(s, a).hist.calls, e) == Answers(s.hist.calls, e)
  {
    if a.CallSap? && a.id in HandOf(s, a.w).todo && HandOf(s, a.w).current.None? {
      assert a.id == e ==> Uncalled(s, a.w, e);
      AnswersAppend(s.hist.calls, CallFor(a.id, HandOf(s, a.w).todo[a.id], a.answer), e);
    } else {
      SameCalls(s, a);
    }
  }

  lemma UncallableStep(s: State, a: Action, e: nat)
    requires Core(s) && e < |s.db.outbox| && !Callable(s, e)
    ensures e < |Apply(s, a).db.outbox| && !Callable(Apply(s, a), e)
    ensures Answers(Apply(s, a).hist.calls, e) == Answers(s.hist.calls, e)
  {
    UnreturnableStep(s, a, e);
    NotTakenUnlessPending(s, a, e);
    forall w | w in Apply(s, a).hands && Uncalled(Apply(s, a), w, e) ensures false {
      HandStep(s, a, w, e);
      assert Uncalled(s, w, e);
    }
    UncalledAnswers(s, a, e);
  }

  lemma {:induction false} UnreturnableRun(s: State, acts: seq<Action>, e: nat)
    requires Core(s) && e < |s.db.outbox| && !s.db.outbox[e].status.Pending? && !Returnable(s, e)
    ensures e < |Run(s, acts).db.outbox| && !Run(s, acts).db.outbox[e].status.Pending?
    decreases |acts|
  {
    if acts == [] {
    } else {
      UnreturnableStep(s, acts[0], e);
      CoreStep(s, acts[0]);
      UnreturnableRun(Apply(s, acts[0]), acts[1..], e);
    }
  }

  lemma {:induction false} UncallableRun(s: State, acts: seq<Action>, e: nat)
    requires Core(s) && e < |s.db.outbox| && !Callable(s, e)
    ensures Answers(Run(s, acts).hist.calls, e) == Answers(s.hist.calls, e)
    decreases |acts|
  {
    if acts == [] {
    } else {
      UncallableStep(s, acts[0], e);
      CoreStep(s, acts[0]);
      UncallableRun(Apply(s, acts[0]), acts[1..], e);
    }
  }

  // ---- exactly when SAP can apply a row, and apply it again

  /** From `s` a run leads on to a call for row `e` that SAP applies. */
  predicate AppliedAfter(s: State, later: seq<Action>, e: nat) {
    var answers := Answers(Run(s, later).hist.calls, e);
    exists k :: |Answers(s.hist.calls, e)| <= k < |answers| && Applied(answers[k])
  }

  /** In every reachable state SAP can still apply a row if and only if the row is PENDING or in
      a hand that has not called for it yet or can put it back. */
  lemma CanBeAppliedIff(before: seq<Action>, e: nat)
    requires e < |Run(INIT, before).db.outbox|
    ensures var s := Run(INIT, before);
            (exists later :: AppliedAfter(s, later, e)) <==> Callable(s, e)
  {
    var s := Run(INIT, before);
    ReachableIsCore(before);
    if Callable(s, e) {
      var yes := Reply(true, "", "");
      var later := CallableSends(s, e, yes);
      AnswersAppend(s.hist.calls, CallFor(e, s.db.outbox[e], yes), e);
      assert Answers(Run(s, later).hist.calls, e)[|Answers(s.hist.calls, e)|] == yes;
      assert AppliedAfter(s, later, e);
    } else {
      forall later ensures !AppliedAfter(s, later, e) {
        UncallableRun(s, later, e);
      }
    }
  }

  /** SAP can apply a row that it has just applied once more if and only if the reply was lost
      and an attempt is left. */
  lemma AppliedTwiceIff(before: seq<Action>, w: nat)
    requires HandOf(Run(INIT, before), w).current.Some?
    requires Applied(HandOf(Run(INIT, before), w).current.value.answer)
    ensures var s := Run(INIT, before);
            var cur := HandOf(s, w).current.value;
            && cur.id < |s.db.outbox|
            && ((exists later :: AppliedAfter(s, later, cur.id)) <==>
                cur.answer.TransportError? && s.db.outbox[cur.id].attempts < MAX_ATTEMPTS)
  {
    var s := Run(INIT, before);
    ReachableIsCore(before);
    var e := HandOf(s, w).current.value.id;
    assert HandOk(s, w) && InHandOk(s, w, e) && EntryAt(s, e);
    CanBeAppliedIff(before, e);
    if CanReturn(s, w, e) {
      assert Callable(s, e);
    }
  }

  // ---- exactly when a refused cancel is misnamed

  lemma ReturnableReturns(s: State, e: nat) returns (later: seq<Action>)
    requires Core(s) && e < |s.db.outbox| && Returnable(s, e)
    ensures e < |Run(s, later).db.outbox| && Run(s, later).db.outbox[e].status.Pending?
  {
    var w :| w in s.hands && CanReturn(s, w, e);
    assert EntryAt(s, e);
    if IsCurrent(s, w, e) {
      later := [Close(w, 0)];
      CloseShows(s, w);
    } else {
      var lost := TransportError("", false);
      later := [CloseLost(w)] + [CallSap(w, e, lost), Close(w, 0)];
      HeldSends(s, w, e, lost);
    }
  }

  lemma {:induction false} RowStays(s: State, acts: seq<Action>, e: nat)
    requires Core(s) && e < |s.db.outbox|
    ensures e < |Run(s, acts).db.outbox| && Run(s, acts).db.outbox[e].itemId == s.db.outbox[e].itemId
    decreases |acts|
  {
    if acts == [] {
    } else {
      MeasureFalls(s, acts[0], e);
      CoreStep(s, acts[0]);
      RowStays(Apply(s, acts[0]), acts[1..], e);
    }
  }

  /** A cancel looks at the row twice: its update skips a row that is not PENDING, and a second
      read says why. An existing row can be answered as not found if and only if it was in a hand
      that can put it back before that read. */
  lemma CancelMisnamedIff(before: seq<Action>, i: nat, id: nat)
    requires var rows := Run(INIT, before).db.outbox;
             id < |rows| && rows[id].itemId == i && !rows[id].status.Pending?
    ensures (exists between :: CancelReason(Run(Run(INIT, before), between).db, i, id) == NotFound)
            <==> Returnable(Run(INIT, before), id)
  {
    var s := Run(INIT, before);
    ReachableIsCore(before);
    if Returnable(s, id) {
      var between := ReturnableReturns(s, id);
      assert CancelReason(Run(s, between).db, i, id) == NotFound;
    } else {
      forall between ensures CancelReason(Run(s, between).db, i, id) == SyncNotCancellable {
        UnreturnableRun(s, between, id);
        RowStays(s, between, id);
      }
    }
  }
}
