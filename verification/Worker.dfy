/** One tick of the background worker: claim a batch, then call and close each row, going on
    past errors. */
module Worker {
  import opened Domain
  import opened Queue
  import opened Protocol
  import opened CoreInvariant
  import opened Database
  import opened Services
  import opened Interference

  /** A run in which worker `w` does not crash and, when nothing fails, loses no closing; what
      others do in it is up to them. */
  predicate Orderly(acts: seq<Action>, w: nat, healthy: bool) {
    forall k :: 0 <= k < |acts| && Own(acts[k], w) ==> !acts[k].Crash? && (healthy ==> !acts[k].CloseLost?)
  }

  lemma OrderlyAppend(xs: seq<Action>, ys: seq<Action>, w: nat, healthy: bool)
    requires Orderly(xs, w, healthy) && Orderly(ys, w, healthy)
    ensures Orderly(xs + ys, w, healthy)
  {}

  lemma AttemptIsOrderly(w: nat, id: nat, a: Answer, between: seq<Action>, recorded: bool, now: int, healthy: bool)
    requires WithoutWorker(between, w) && (healthy ==> recorded)
    ensures Orderly(AttemptSteps(w, id, a, between, recorded, now), w, healthy)
  {}

  /** The rows still to be processed are exactly what the worker's hand holds. */
  predicate Remaining(h: Hand, entries: seq<(nat, Entry)>, from: nat)
    requires from <= |entries|
  {
    && h.current.None?
    && (forall k :: from <= k < |entries| ==> entries[k].0 in h.todo && h.todo[entries[k].0] == entries[k].1)
    && (forall x :: x in h.todo ==> exists k :: from <= k < |entries| && entries[k].0 == x)
  }

  lemma BatchStarts(s: State, w: nat, limit: nat, locked: set<nat>, entries: seq<(nat, Entry)>)
    requires HandOf(s, w) == EMPTY_HAND
    requires var ids := ClaimIds(s.db.outbox, locked, limit); Returned(entries, ClaimRows(s.db.outbox, ids), ids)
    ensures var s' := Run(s, [Claim(w, limit, locked)]);
            && s'.db == s.db.(outbox := ClaimRows(s.db.outbox, ClaimIds(s.db.outbox, locked, limit)))
            && Remaining(HandOf(s', w), entries, 0)
  {
    ClaimShape(s, w, limit, locked);
    RunOne(s, Claim(w, limit, locked));
    ClaimContract(s.db.outbox, locked, limit);
  }

  lemma Crashed(s: State, w: nat)
    ensures Apply(s, Crash(w)).db == s.db && HandOf(Apply(s, Crash(w)), w) == EMPTY_HAND
  {}

  lemma BatchAbandoned(s: State, w: nat, limit: nat, locked: set<nat>)
    requires HandOf(s, w) == EMPTY_HAND
    ensures var s' := Run(s, [Claim(w, limit, locked), Crash(w)]);
            && s'.db == s.db.(outbox := ClaimRows(s.db.outbox, ClaimIds(s.db.outbox, locked, limit)))
            && HandOf(s', w) == EMPTY_HAND
  {
    var ids := ClaimIds(s.db.outbox, locked, limit);
    assert [Claim(w, limit, locked), Crash(w)] == [Claim(w, limit, locked)] + [Crash(w)];
    RunAppend(s, [Claim(w, limit, locked)], [Crash(w)]);
    RunOne(s, Claim(w, limit, locked));
    ClaimShape(s, w, limit, locked);
    RunOne(AfterClaim(s, w, ids), Crash(w));
    Crashed(AfterClaim(s, w, ids), w);
  }

  lemma NextRemains(h: Hand, entries: seq<(nat, Entry)>, k: nat)
    requires k < |entries| && Remaining(h, entries, k)
    requires forall i, j :: 0 <= i < j < |entries| ==> entries[i].0 != entries[j].0
    ensures Remaining(Hand(h.todo - {entries[k].0}, None), entries, k + 1)
  {}

  lemma NoneRemains(h: Hand, entries: seq<(nat, Entry)>)
    requires Remaining(h, entries, |entries|)
    ensures h == EMPTY_HAND
  {
    assert h.todo == map[];
  }

  /** Each claimed row is handed out once. */
  lemma {:induction false} EntryCount(entries: seq<(nat, Entry)>, rows: seq<Entry>, ids: set<nat>)
    requires Returned(entries, rows, ids)
    ensures |entries| == |ids|
  {
    if entries == [] {
      assert ids == {};
    } else {
      var last := |entries| - 1;
      var rest := ids - {entries[last].0};
      forall x | x in rest ensures exists k :: 0 <= k < last && entries[..last][k].0 == x {
        var k :| 0 <= k < |entries| && entries[k].0 == x;
        assert entries[..last][k].0 == x;
      }
      EntryCount(entries[..last], rows, rest);
    }
  }

  /** The calls that worker `w` makes in a run: for which row, and with which answer. */
  function OwnCalls(acts: seq<Action>, w: nat): seq<(nat, Answer)> {
    if acts == [] then []
    else
      var last := |acts| - 1;
      var a := acts[last];
      OwnCalls(acts[..last], w) + if a.CallSap? && a.w == w then [(a.id, a.answer)] else []
  }

  lemma {:induction false} OwnCallsAppend(xs: seq<Action>, ys: seq<Action>, w: nat)
    ensures OwnCalls(xs + ys, w) == OwnCalls(xs, w) + OwnCalls(ys, w)
  {
    if ys == [] {
      assert xs + ys == xs;
    } else {
      var last := |ys| - 1;
      assert (xs + ys)[..|xs| + last] == xs + ys[..last];
      OwnCallsAppend(xs, ys[..last], w);
    }
  }

  lemma {:induction false} OthersMakeNone(acts: seq<Action>, w: nat)
    requires WithoutWorker(acts, w)
    ensures OwnCalls(acts, w) == []
  {
    if acts == [] {
    } else {
      assert !Own(acts[|acts| - 1], w);
      OthersMakeNone(acts[..|acts| - 1], w);
    }
  }

  lemma OwnCallsOfOne(a: Action, w: nat)
    ensures OwnCalls([a], w) == if a.CallSap? && a.w == w then [(a.id, a.answer)] else []
  {
    assert [a][..0] == [];
  }

  lemma AttemptCalls(w: nat, id: nat, a: Answer, before: seq<Action>, between: seq<Action>, recorded: bool, now: int)
    requires WithoutWorker(before, w) && WithoutWorker(between, w)
    ensures OwnCalls(before + AttemptSteps(w, id, a, between, recorded, now), w) == [(id, a)]
  {
    var last := if recorded then Close(w, now) else CloseLost(w);
    OwnCallsAppend(before, AttemptSteps(w, id, a, between, recorded, now), w);
    OwnCallsAppend([CallSap(w, id, a)] + between, [last], w);
    OwnCallsAppend([CallSap(w, id, a)], between, w);
    OthersMakeNone(before, w);
    OthersMakeNone(between, w);
    OwnCallsOfOne(CallSap(w, id, a), w);
    OwnCallsOfOne(last, w);
  }

  lemma FirstCallsNone(w: nat, limit: nat, locked: set<nat>)
    ensures OwnCalls([], w) == OwnCalls([Claim(w, limit, locked)], w) == []
    ensures OwnCalls([Claim(w, limit, locked), Crash(w)], w) == []
  {
    assert [Claim(w, limit, locked), Crash(w)] == [Claim(w, limit, locked)] + [Crash(w)];
    OwnCallsAppend([Claim(w, limit, locked)], [Crash(w)], w);
    OwnCallsOfOne(Claim(w, limit, locked), w);
    OwnCallsOfOne(Crash(w), w);
  }

  /** The first `k` rows of a batch have been called, in order and once each: SAP was handed
      every row's own function and payload, and the run has its answers. */
  predicate Called(entries: seq<(nat, Entry)>, k: nat, acts: seq<Action>, w: nat, got: seq<Exchange>)
    requires k <= |entries|
  {
    && |got| == |OwnCalls(acts, w)| == k
    && forall j :: 0 <= j < k ==>
                     && got[j].sent == Document(entries[j].1.rfc, entries[j].1.payload)
                     && OwnCalls(acts, w)[j] == (entries[j].0, got[j].answer)
  }

  lemma CalledNext(entries: seq<(nat, Entry)>, k: nat, acts: seq<Action>, steps: seq<Action>, w: nat,
                   got: seq<Exchange>, a: Answer)
    requires k < |entries| && Called(entries, k, acts, w, got) && OwnCalls(steps, w) == [(entries[k].0, a)]
    ensures Called(entries, k + 1, acts + steps, w,
                   got + [Exchange(Document(entries[k].1.rfc, entries[k].1.payload), a)])
  {
    OwnCallsAppend(acts, steps, w);
  }

  lemma CalledAfter(entries: seq<(nat, Entry)>, k: nat, first: seq<Action>, acts: seq<Action>, w: nat,
                    got: seq<Exchange>)
    requires k <= |entries| && Called(entries, k, acts, w, got) && OwnCalls(first, w) == []
    ensures Called(entries, k, first + acts, w, got)
  {
    OwnCallsAppend(first, acts, w);
    assert [] + OwnCalls(acts, w) == OwnCalls(acts, w);
  }

  lemma OneMoreExchange(before: seq<Exchange>, got: seq<Exchange>, x: Exchange)
    ensures before + got + [x] == before + (got + [x])
  {}

  /** How far a worker has come with its batch: `acts` led from `s` to `here`, and its first `k`
      rows are done. */
  predicate Reached(s: State, here: State, acts: seq<Action>, w: nat, entries: seq<(nat, Entry)>, k: nat,
                    got: seq<Exchange>, healthy: bool)
    requires k <= |entries|
  {
    && here == Run(s, acts) && Core(here) && Remaining(HandOf(here, w), entries, k)
    && Called(entries, k, acts, w, got)
    && Orderly(acts, w, healthy)
  }

  /** What processing one row amounts to: `acts` led from `s` to `s'`, with one call, for that row. */
  predicate RowDone(s: State, s': State, acts: seq<Action>, w: nat, entries: seq<(nat, Entry)>, k: nat, a: Answer,
                    healthy: bool)
    requires k < |entries|
  {
    && s' == Run(s, acts) && Core(s') && Remaining(HandOf(s', w), entries, k + 1)
    && OwnCalls(acts, w) == [(entries[k].0, a)]
    && Orderly(acts, w, healthy)
  }

  lemma ReachedNext(s: State, here: State, acts: seq<Action>, next: State, steps: seq<Action>, w: nat,
                    entries: seq<(nat, Entry)>, k: nat, got: seq<Exchange>, a: Answer, healthy: bool)
    requires k < |entries| && Reached(s, here, acts, w, entries, k, got, healthy)
    requires RowDone(here, next, steps, w, entries, k, a, healthy)
    ensures Reached(s, next, acts + steps, w, entries, k + 1,
                    got + [Exchange(Document(entries[k].1.rfc, entries[k].1.payload), a)], healthy)
  {
    RunAppend(s, acts, steps);
    CalledNext(entries, k, acts, steps, w, got, a);
    OrderlyAppend(acts, steps, w, healthy);
  }

  class OutboxWorker {
    const service: SyncService
    const batchSize: nat

    constructor (service: SyncService, batchSize: nat)
      ensures this.service == service && this.batchSize == batchSize
    {
      this.service := service;
      this.batchSize := batchSize;
    }

    /** One row of the batch, with everyone else's steps `before` and `between` its call and its
        closing; an error is logged and the loop goes on. */
    method ProcessOne(entries: seq<(nat, Entry)>, k: nat, now: int, s: State, w: nat, before: seq<Action>,
                      between: seq<Action>)
      returns (s': State, ghost acts: seq<Action>, ghost a: Answer)
      requires service.Valid() && service.db.staged.None? && k < |entries|
      requires Core(s) && s.db == service.db.committed && Remaining(HandOf(s, w), entries, k)
      requires forall i, j :: 0 <= i < j < |entries| ==> entries[i].0 != entries[j].0
      requires WithoutWorker(before, w) && WithoutWorker(between, w)
      modifies service.db, service.sap
      ensures service.db.staged.None? && service.db.committed == s'.db
      ensures service.sap.exchanges
           == old(service.sap.exchanges) + [Exchange(Document(entries[k].1.rfc, entries[k].1.payload), a)]
      ensures RowDone(s, s', acts, w, entries, k, a, service.db.Healthy())
    {
      var here := Run(s, before);
      CoreRun(s, before);
      HandStays(s, before, w);
      service.db.OthersCommit(here.db);
      var result, recorded, answer := service.ProcessOutboxEntry(entries[k].0, entries[k].1, now, here, w, between);
      a := answer;
      var steps := AttemptSteps(w, entries[k].0, answer, between, recorded, now);
      AttemptIsOrderly(w, entries[k].0, a, between, recorded, now, service.db.Healthy());
      acts := before + steps;
      AttemptCalls(w, entries[k].0, a, before, between, recorded, now);
      RunAppend(s, before, steps);
      s' := Run(here, steps);
      CoreRun(here, steps);
      NextRemains(HandOf(s, w), entries, k);
      OrderlyAppend(before, steps, w, service.db.Healthy());
    }

    /** The loop over a claimed batch; `others(n)` is what everyone else does in its n-th pause. */
    method ProcessEntries(entries: seq<(nat, Entry)>, clock: nat -> int, s: State, w: nat, others: nat -> seq<Action>)
      returns (ghost acts: seq<Action>, ghost got: seq<Exchange>)
      requires service.Valid() && service.db.staged.None?
      requires Core(s) && s.db == service.db.committed && Remaining(HandOf(s, w), entries, 0)
      requires forall i, j :: 0 <= i < j < |entries| ==> entries[i].0 != entries[j].0
      requires forall n :: WithoutWorker(others(n), w)
      modifies service.db, service.sap
      ensures service.db.staged.None?
      ensures service.db.committed == Run(s, acts).db && Core(Run(s, acts))
      ensures HandOf(Run(s, acts), w) == EMPTY_HAND
      ensures service.sap.exchanges == old(service.sap.exchanges) + got
      ensures Called(entries, |entries|, acts, w, got)
      ensures Orderly(acts, w, service.db.Healthy())
    {
      acts, got := [], [];
      var here := s;
      for k := 0 to |entries|
        invariant service.db.staged.None? && service.db.committed == here.db
        invariant service.sap.exchanges == old(service.sap.exchanges) + got
        invariant Reached(s, here, acts, w, entries, k, got, service.db.Healthy())
      {
        ghost var before, steps, a := here, [], Reply(true, "", "");
        here, steps, a := ProcessOne(entries, k, clock(k), here, w, others(2 * k), others(2 * k + 1));
        ReachedNext(s, before, acts, here, steps, w, entries, k, got, a, service.db.Healthy());
        acts := acts + steps;
        ghost var exchange := Exchange(Document(entries[k].1.rfc, entries[k].1.payload), a);
        OneMoreExchange(old(service.sap.exchanges), got, exchange);
        got := got + [exchange];
      }
      NoneRemains(HandOf(here, w), entries);
    }

    /** The claim of a tick: nothing, a batch in hand, or rows claimed for nobody. */
    method ClaimBatch(locked: set<nat>, s: State, w: nat)
      returns (r: Result<seq<(nat, Entry)>>, ghost acts: seq<Action>)
      requires service.Valid() && service.db.staged.None?
      requires s.db == service.db.committed && HandOf(s, w) == EMPTY_HAND
      modifies service.db
      ensures service.db.staged.None? && service.db.committed == Run(s, acts).db
      ensures r.Ok? ==> acts == [Claim(w, batchSize, locked)]
      ensures r.Ok? ==> |r.value| == |ClaimIds(s.db.outbox, locked, batchSize)|
      ensures r.Ok? ==>
                var ids := ClaimIds(s.db.outbox, locked, batchSize); Returned(r.value, ClaimRows(s.db.outbox, ids), ids)
      ensures r.Ok? ==> Remaining(HandOf(Run(s, acts), w), r.value, 0)
      ensures r.Ok? ==> forall i, j :: 0 <= i < j < |r.value| ==> r.value[i].0 != r.value[j].0
      ensures r.Err? ==> acts == [] || acts == [Claim(w, batchSize, locked), Crash(w)]
      ensures r.Err? ==> HandOf(Run(s, acts), w) == EMPTY_HAND
      ensures service.db.Healthy() ==> r.Ok?
    {
      r := service.outbox.ClaimPending(batchSize, locked);
      if r.Err? {
        BatchAbandoned(s, w, batchSize, locked);
        acts := if service.db.committed == s.db then [] else [Claim(w, batchSize, locked), Crash(w)];
      } else {
        acts := [Claim(w, batchSize, locked)];
        BatchStarts(s, w, batchSize, locked, r.value);
        EntryCount(r.value, service.db.committed.outbox, ClaimIds(s.db.outbox, locked, batchSize));
      }
    }

    /** Whatever fails, whatever SAP answers and whatever everyone else does in the pauses, one
        tick is a run of the protocol: the tables end where that run ends and the worker's hand is
        empty again. A batch that was claimed, `entries`, is called row by row, once each, and SAP
        is handed every row's own function and payload; without faults it is claimed and no closing
        of it is lost. */
    method ProcessBatch(locked: set<nat>, clock: nat -> int, s: State, w: nat, others: nat -> seq<Action>)
      returns (ghost acts: seq<Action>, ghost entries: seq<(nat, Entry)>, ghost got: seq<Exchange>)
      requires service.Valid() && service.db.staged.None?
      requires Core(s) && s.db == service.db.committed && HandOf(s, w) == EMPTY_HAND
      requires forall n :: WithoutWorker(others(n), w)
      modifies service.db, service.sap
      ensures service.db.staged.None?
      ensures service.db.committed == Run(s, acts).db && Core(Run(s, acts))
      ensures HandOf(Run(s, acts), w) == EMPTY_HAND
      ensures service.sap.exchanges == old(service.sap.exchanges) + got
      ensures Called(entries, |entries|, acts, w, got)
      ensures var ids := ClaimIds(s.db.outbox, locked, batchSize);
              || (acts == [] && entries == [])
              || (acts == [Claim(w, batchSize, locked), Crash(w)] && entries == [])
              || (acts != [] && acts[0] == Claim(w, batchSize, locked) && Orderly(acts, w, false)
                  && |entries| == |ids| && Returned(entries, ClaimRows(s.db.outbox, ids), ids))
      ensures service.db.Healthy() ==> acts != [] && Orderly(acts, w, true)
    {
      var claimed;
      ghost var first;
      claimed, first := ClaimBatch(locked, s, w);
      CoreRun(s, first);
      FirstCallsNone(w, batchSize, locked);
      if claimed.Err? {
        return first, [], [];
      }
      entries := claimed.value;
      RunOne(s, Claim(w, batchSize, locked));
      ghost var rest;
      rest, got := ProcessEntries(claimed.value, clock, Apply(s, Claim(w, batchSize, locked)), w, others);
      RunAppend(s, first, rest);
      CalledAfter(entries, |entries|, first, rest, w, got);
      OrderlyAppend(first, rest, w, service.db.Healthy());
      acts := first + rest;
    }
  }
}
