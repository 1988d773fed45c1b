/** The claim and the cancel at the grain of row locks. A claim first selects and locks rows,
    skipping rows others hold, and later updates and commits; a cancel waits for the row,
    re-reads its status under the lock, and later commits. Every run of this finer machine is
    a run of the protocol, and a pending attempt goes to exactly one of the two. */
module RowLocks {
  import opened Domain
  import opened Queue
  import opened Requests
  import opened Protocol
  import opened CoreInvariant
  import opened Audit
  import opened Lifecycle
  import opened Progress
  import opened Futures

  datatype Holder = ByClaim(w: nat) | ByCancel

  /** An open claim: the rows it locked, out of the eligible unlocked rows it saw. */
  datatype Selection = Selection(limit: nat, seen: set<nat>, ids: set<nat>)

  datatype Fine = Fine(s: State, locks: map<nat, Holder>, open: map<nat, Selection>)

  datatype FineAction =
    | Plain(a: Action)  // any action but a claim or a cancel
    | Select(w: nat, limit: nat)
    | CommitClaim(w: nat)
    | AbortClaim(w: nat)
    | LockForCancel(o: nat, i: nat, id: nat)
    | CommitCancel(id: nat, now: int)
    | AbortCancel(id: nat)

  function Visible(rows: seq<Entry>, locks: map<nat, Holder>): set<nat> {
    set x | 0 <= x < |rows| && Eligible(rows[x]) && x !in locks
  }

  function Release(f: Fine, w: nat): Fine {
    if w in f.open then f.(locks := f.locks - f.open[w].ids, open := f.open - {w}) else f
  }

  function DoSelect(f: Fine, w: nat, limit: nat): Fine {
    if HandOf(f.s, w) != EMPTY_HAND || w in f.open then f
    else
      var ids := ClaimIds(f.s.db.outbox, f.locks.Keys, limit);
      f.(locks := f.locks + (map x | x in ids :: ByClaim(w)),
      open := f.open[w := Selection(limit, Visible(f.s.db.outbox, f.locks), ids)])
  }

  /** The update writes the rows that were locked; it does not look at them again. */
  function DoCommitClaim(f: Fine, w: nat): Fine {
    if w !in f.open then f else Release(f, w).(s := AfterClaim(f.s, w, f.open[w].ids))
  }

  /** While another transaction holds the row a cancel waits, which is no step at all. */
  function DoLockForCancel(f: Fine, o: nat, i: nat, id: nat): Fine {
    if id !in f.locks && HasItem(f.s.db, o, i) && Cancellable(f.s.db, i, id) then f.(locks := f.locks[id := ByCancel])
    else f
  }

  function DoCommitCancel(f: Fine, id: nat, now: int): Fine {
    if id !in f.locks || !f.locks[id].ByCancel? || id >= |f.s.db.outbox| then f
    else
      var row := f.s.db.outbox[id];
      var t := f.s.db.(outbox := f.s.db.outbox[id := CancelledRow(row, now)]);
      f.(s := Commit(f.s, WithItemStatus(t, row.itemId, ItemStatus.Updated)), locks := f.locks - {id})
  }

  function FineApply(f: Fine, a: FineAction): Fine {
    match a
    case Plain(p) =>
      if p.Claim? || p.Cancel? then f
      else (if p.Crash? then Release(f, p.w) else f).(s := Apply(f.s, p))
    case Select(w, limit) => DoSelect(f, w, limit)
    case CommitClaim(w) => DoCommitClaim(f, w)
    case AbortClaim(w) => Release(f, w)
    case LockForCancel(o, i, id) => DoLockForCancel(f, o, i, id)
    case CommitCancel(id, now) => DoCommitCancel(f, id, now)
    case AbortCancel(id) => if id in f.locks && f.locks[id].ByCancel? then f.(locks := f.locks - {id}) else f
  }

  function FineRun(f: Fine, acts: seq<FineAction>): Fine
    decreases |acts|
  {
    if acts == [] then f else FineRun(FineApply(f, acts[0]), acts[1..])
  }

  // ---- invariant

  /** A locked row is pending, and a claim's lock belongs to an open claim of that row. */
  predicate LockOk(f: Fine, id: nat)
    requires id in f.locks
  {
    && id < |f.s.db.outbox| && Eligible(f.s.db.outbox[id])
    && (f.locks[id].ByClaim? ==> f.locks[id].w in f.open && id in f.open[f.locks[id].w].ids)
  }

  /** An open claim holds the oldest rows of what it saw, up to its limit. */
  predicate OpenOk(f: Fine, w: nat)
    requires w in f.open
  {
    var p := f.open[w];
    && HandOf(f.s, w) == EMPTY_HAND
    && |p.ids| <= p.limit
    && p.ids <= p.seen
    && (forall x :: x in p.ids ==> x in f.locks && f.locks[x] == ByClaim(w))
    && (forall x, y :: x in p.seen && x !in p.ids && y in p.ids ==> y < x)
    && (p.ids != p.seen ==> |p.ids| == p.limit)
  }

  predicate FineOk(f: Fine) {
    && Core(f.s)
    && (forall id :: id in f.locks ==> LockOk(f, id))
    && (forall w :: w in f.open ==> OpenOk(f, w))
  }

  const FINE_INIT := Fine(INIT, map[], map[])

  /** A row that is neither claimed nor cancelled stays pending as it is. */
  lemma PlainKeepsPending(s: State, a: Action, e: nat)
    requires Core(s) && !a.Claim? && !a.Cancel? && e < |s.db.outbox| && s.db.outbox[e].status.Pending?
    ensures e < |Apply(s, a).db.outbox| && Apply(s, a).db.outbox[e] == s.db.outbox[e]
  {
    match a
    case Insert(req, rfc) => InsertShape(s, req, rfc);
    case CallSap(_, _, _) =>
    case Close(w, now) =>
      if HandOf(s, w).current.Some? {
        CloseShape(s, w, now);
      }
    case _ => QuietAction(s, a);
  }

  lemma PlainKeepsEmpty(s: State, a: Action, w: nat)
    requires Core(s) && !a.Claim? && HandOf(s, w) == EMPTY_HAND
    ensures HandOf(Apply(s, a), w) == EMPTY_HAND
  {
    match a
    case Insert(req, rfc) => InsertShape(s, req, rfc);
    case CallSap(_, _, _) =>
    case Close(_, _) =>
    case Cancel(o, i, id, now) => CancelShape(s, o, i, id, now);
    case _ => QuietAction(s, a);
  }

  lemma ReleaseOk(f: Fine, w: nat)
    requires FineOk(f)
    ensures FineOk(Release(f, w)) && w !in Release(f, w).open
  {
    var f' := Release(f, w);
    forall id | id in f'.locks ensures LockOk(f', id) {
      assert LockOk(f, id);
    }
    forall v | v in f'.open ensures OpenOk(f', v) {
      assert OpenOk(f, v);
      if w in f.open {
        assert OpenOk(f, w);
      }
    }
  }

  lemma PlainOk(f: Fine, p: Action)
    requires FineOk(f) && !p.Claim? && !p.Cancel?
    ensures FineOk(f.(s := Apply(f.s, p)))
  {
    var f' := f.(s := Apply(f.s, p));
    CoreStep(f.s, p);
    forall id | id in f'.locks ensures LockOk(f', id) {
      assert LockOk(f, id);
      PlainKeepsPending(f.s, p, id);
    }
    forall v | v in f'.open ensures OpenOk(f', v) {
      assert OpenOk(f, v);
      PlainKeepsEmpty(f.s, p, v);
    }
  }

  lemma SelectKeeps(f: Fine, f': Fine, w: nat, p: Selection)
    requires FineOk(f) && HandOf(f.s, w) == EMPTY_HAND && w !in f.open
    requires f' == f.(locks := f.locks + (map x | x in p.ids :: ByClaim(w)), open := f.open[w := p])
    requires |p.ids| <= p.limit && p.ids <= p.seen && p.seen == Visible(f.s.db.outbox, f.locks)
    requires forall x, y :: x in p.seen && x !in p.ids && y in p.ids ==> y < x
    requires p.ids != p.seen ==> |p.ids| == p.limit
    ensures FineOk(f')
  {
    forall id | id in f'.locks ensures LockOk(f', id) {
      if id in f.locks {
        assert LockOk(f, id);
      }
    }
    forall v | v in f'.open ensures OpenOk(f', v) {
      if v in f.open {
        assert OpenOk(f, v);
      }
    }
  }

  lemma SelectOk(f: Fine, w: nat, limit: nat)
    requires FineOk(f)
    ensures FineOk(DoSelect(f, w, limit))
  {
    ClaimContract(f.s.db.outbox, f.locks.Keys, limit);
    if HandOf(f.s, w) == EMPTY_HAND && w !in f.open {
      SelectKeeps(f, DoSelect(f, w, limit), w, Selection(limit, Visible(f.s.db.outbox, f.locks),
                                                         ClaimIds(f.s.db.outbox, f.locks.Keys, limit)));
    }
  }

  /** Committing the locked rows is the atomic claim that skips whatever was not visible when
      the rows were selected. */
  function AsClaim(f: Fine, w: nat): Action
    requires w in f.open
  {
    Claim(w, f.open[w].limit, set x | 0 <= x < |f.s.db.outbox| && x !in f.open[w].seen)
  }

  lemma ClaimIsSelection(f: Fine, w: nat)
    requires FineOk(f) && w in f.open
    ensures ClaimIds(f.s.db.outbox, AsClaim(f, w).skip, f.open[w].limit) == f.open[w].ids
  {
    var p := f.open[w];
    assert OpenOk(f, w);
    forall x | x in p.ids ensures x < |f.s.db.outbox| && Eligible(f.s.db.outbox[x]) {
      assert LockOk(f, x);
    }
    ClaimIsUnique(f.s.db.outbox, AsClaim(f, w).skip, p.limit, p.ids);
  }

  lemma CommitIsClaim(f: Fine, w: nat)
    requires FineOk(f) && w in f.open
    ensures DoCommitClaim(f, w).s == Apply(f.s, AsClaim(f, w))
    ensures Taken(f.s, AsClaim(f, w)) == f.open[w].ids
  {
    assert OpenOk(f, w);
    ClaimIsSelection(f, w);
    ClaimShape(f.s, w, f.open[w].limit, AsClaim(f, w).skip);
  }

  lemma CommitClaimOk(f: Fine, w: nat)
    requires FineOk(f) && w in f.open
    ensures FineOk(DoCommitClaim(f, w))
  {
    CommitIsClaim(f, w);
    CoreStep(f.s, AsClaim(f, w));
    var g := Release(f, w);
    var f' := DoCommitClaim(f, w);
    ReleaseOk(f, w);
    assert OpenOk(f, w);
    forall id | id in f'.locks ensures LockOk(f', id) {
      assert LockOk(g, id);
    }
    forall v | v in f'.open ensures OpenOk(f', v) {
      assert OpenOk(g, v);
    }
  }

  /** Committing a cancel under its lock is the atomic cancel of that row. */
  function AsCancel(f: Fine, id: nat, now: int): Action
    requires id < |f.s.db.outbox| && f.s.db.outbox[id].itemId < |f.s.db.items|
  {
    Cancel(f.s.db.items[f.s.db.outbox[id].itemId].orderId, f.s.db.outbox[id].itemId, id, now)
  }

  lemma CommitIsCancel(f: Fine, id: nat, now: int)
    requires FineOk(f) && id in f.locks && f.locks[id].ByCancel?
    ensures id < |f.s.db.outbox| && f.s.db.outbox[id].itemId < |f.s.db.items|
    ensures DoCommitCancel(f, id, now).s == Apply(f.s, AsCancel(f, id, now))
  {
    assert LockOk(f, id);
    var i := f.s.db.outbox[id].itemId;
    CancelShape(f.s, f.s.db.items[i].orderId, i, id, now);
  }

  lemma CommitCancelOk(f: Fine, id: nat, now: int)
    requires FineOk(f) && id in f.locks && f.locks[id].ByCancel?
    ensures FineOk(DoCommitCancel(f, id, now))
  {
    CommitIsCancel(f, id, now);
    CoreStep(f.s, AsCancel(f, id, now));
    var f' := DoCommitCancel(f, id, now);
    assert LockOk(f, id);
    forall x | x in f'.locks ensures LockOk(f', x) {
      assert LockOk(f, x);
    }
    forall v | v in f'.open ensures OpenOk(f', v) {
      assert OpenOk(f, v);
    }
  }

  lemma LockChangeOk(f: Fine, f': Fine, id: nat)
    requires FineOk(f) && f'.s == f.s && f'.open == f.open
    requires f'.locks == f.locks - {id} || f'.locks == f.locks[id := ByCancel]
    requires id in f.locks ==> f.locks[id].ByCancel?
    requires id in f'.locks ==> id < |f.s.db.outbox| && Eligible(f.s.db.outbox[id])
    ensures FineOk(f')
  {
    forall x | x in f'.locks ensures LockOk(f', x) {
      if x in f.locks {
        assert LockOk(f, x);
      }
    }
    forall v | v in f'.open ensures OpenOk(f', v) {
      assert OpenOk(f, v);
    }
  }

  lemma FineStep(f: Fine, a: FineAction)
    requires FineOk(f)
    ensures FineOk(FineApply(f, a))
  {
    match a
    case Plain(p) =>
      if !p.Claim? && !p.Cancel? {
        if p.Crash? {
          ReleaseOk(f, p.w);
          PlainOk(Release(f, p.w), p);
        } else {
          PlainOk(f, p);
        }
      }
    case Select(w, limit) => SelectOk(f, w, limit);
    case CommitClaim(w) =>
      if w in f.open {
        CommitClaimOk(f, w);
      }
    case AbortClaim(w) => ReleaseOk(f, w);
    case LockForCancel(o, i, id) =>
      if id < |f.s.db.outbox| {
        assert EntryAt(f.s, id);
      }
      if FineApply(f, a) != f {
        LockChangeOk(f, FineApply(f, a), id);
      }
    case CommitCancel(id, now) =>
      if id in f.locks && f.locks[id].ByCancel? {
        CommitCancelOk(f, id, now);
      }
    case AbortCancel(id) =>
      if id in f.locks && f.locks[id].ByCancel? {
        LockChangeOk(f, FineApply(f, a), id);
      }
  }

  // ---- refinement

  /** The protocol action, if any, that a fine step amounts to. */
  function Abstract(f: Fine, a: FineAction): seq<Action> {
    match a
    case Plain(p) => if p.Claim? || p.Cancel? then [] else [p]
    case CommitClaim(w) => if w in f.open then [AsClaim(f, w)] else []
    case CommitCancel(id, now) =>
      if id in f.locks && f.locks[id].ByCancel? && id < |f.s.db.outbox| && f.s.db.outbox[id].itemId < |f.s.db.items|
      then [AsCancel(f, id, now)] else []
    case _ => []
  }

  lemma FineStepRefines(f: Fine, a: FineAction)
    requires FineOk(f)
    ensures FineApply(f, a).s == Run(f.s, Abstract(f, a))
  {
    match a
    case Plain(p) =>
      RunOne(f.s, p);
    case CommitClaim(w) =>
      if w in f.open {
        CommitIsClaim(f, w);
        RunOne(f.s, AsClaim(f, w));
      }
    case CommitCancel(id, now) =>
      if id in f.locks && f.locks[id].ByCancel? {
        CommitIsCancel(f, id, now);
        RunOne(f.s, AsCancel(f, id, now));
      }
    case _ =>
  }

  /** The protocol run that a run of the finer machine amounts to. */
  function Abstraction(f: Fine, acts: seq<FineAction>): seq<Action>
    decreases |acts|
  {
    if acts == [] then [] else Abstract(f, acts[0]) + Abstraction(FineApply(f, acts[0]), acts[1..])
  }

  /** Every run with split claims and cancels refines a run of the protocol, so whatever holds
      of every run of the protocol holds of its tables, calls and hands too. */
  lemma {:induction false} FineRunRefines(f: Fine, acts: seq<FineAction>)
    requires FineOk(f)
    ensures FineOk(FineRun(f, acts))
    ensures FineRun(f, acts).s == Run(f.s, Abstraction(f, acts))
    decreases |acts|
  {
    if acts == [] {
    } else {
      var f' := FineApply(f, acts[0]);
      FineStep(f, acts[0]);
      FineStepRefines(f, acts[0]);
      FineRunRefines(f', acts[1..]);
      RunAppend(f.s, Abstract(f, acts[0]), Abstraction(f', acts[1..]));
    }
  }

  // ---- the race

  /** Claims that are open at the same time have locked different rows. */
  lemma OpenClaimsDisjoint(acts: seq<FineAction>, v: nat, w: nat)
    requires var f := FineRun(FINE_INIT, acts); v in f.open && w in f.open && v != w
    ensures var f := FineRun(FINE_INIT, acts); f.open[v].ids !! f.open[w].ids
  {
    InitIsCore();
    FineRunRefines(FINE_INIT, acts);
    var f := FineRun(FINE_INIT, acts);
    assert OpenOk(f, v) && OpenOk(f, w);
  }

  /** Steps that end what `h` does with row `id`. */
  predicate Ends(a: FineAction, h: Holder, id: nat) {
    match h
    case ByClaim(w) => a == CommitClaim(w) || a == AbortClaim(w) || a == Plain(Crash(w))
    case ByCancel => a == AbortCancel(id) || (a.CommitCancel? && a.id == id)
  }

  lemma OthersRelease(f: Fine, w: nat, id: nat)
    requires FineOk(f) && id in f.locks && f.locks[id] != ByClaim(w)
    ensures id in Release(f, w).locks && Release(f, w).locks[id] == f.locks[id]
    ensures w in f.open ==> id !in f.open[w].ids
  {
    if w in f.open {
      assert OpenOk(f, w);
    }
  }

  /** While one side holds the row, the other's steps leave it pending and in that side's hold. */
  lemma LockStep(f: Fine, a: FineAction, id: nat)
    requires FineOk(f) && id in f.locks && !Ends(a, f.locks[id], id)
    ensures var f' := FineApply(f, a);
            && id in f'.locks && f'.locks[id] == f.locks[id]
            && id < |f'.s.db.outbox| && id < |f.s.db.outbox| && f'.s.db.outbox[id] == f.s.db.outbox[id]
  {
    assert LockOk(f, id);
    match a
    case Plain(p) =>
      if !p.Claim? && !p.Cancel? {
        PlainKeepsPending(f.s, p, id);
        if p.Crash? {
          OthersRelease(f, p.w, id);
        }
      }
    case Select(w, limit) => ClaimContract(f.s.db.outbox, f.locks.Keys, limit);
    case CommitClaim(w) => OthersRelease(f, w, id);
    case AbortClaim(w) => OthersRelease(f, w, id);
    case CommitCancel(x, now) =>
    case _ =>
  }

  lemma {:induction false} LockHolds(f: Fine, acts: seq<FineAction>, id: nat)
    requires FineOk(f) && id in f.locks && id < |f.s.db.outbox|
    requires forall k :: 0 <= k < |acts| ==> !Ends(acts[k], f.locks[id], id)
    ensures var f' := FineRun(f, acts);
            && id in f'.locks && f'.locks[id] == f.locks[id]
            && id < |f'.s.db.outbox| && f'.s.db.outbox[id] == f.s.db.outbox[id]
    decreases |acts|
  {
    if acts == [] {
    } else {
      LockStep(f, acts[0], id);
      FineStep(f, acts[0]);
      LockHolds(FineApply(f, acts[0]), acts[1..], id);
    }
  }

  /** Whoever holds the row when its commit comes wins the attempt: a claim's commit makes the
      row PROCESSING with one more attempt, a cancel's makes it CANCELLED. */
  lemma HolderWins(f: Fine, id: nat, now: int)
    requires FineOk(f) && id in f.locks
    ensures id < |f.s.db.outbox|
    ensures match f.locks[id]
            case ByClaim(w) => FineApply(f, CommitClaim(w)).s.db.outbox[id] == Claimed(f.s.db.outbox[id])
            case ByCancel =>
              FineApply(f, CommitCancel(id, now)).s.db.outbox[id] == CancelledRow(f.s.db.outbox[id], now)
  {
    assert LockOk(f, id);
  }

  lemma {:induction false} FineRunThen(f: Fine, acts: seq<FineAction>, a: FineAction)
    ensures FineRun(f, acts + [a]) == FineApply(FineRun(f, acts), a)
    decreases |acts|
  {
    if acts == [] {
      assert acts + [a] == [a] && [a][1..] == [];
      assert FineRun(FineApply(f, a), []) == FineApply(f, a);
    } else {
      assert (acts + [a])[1..] == acts[1..] + [a];
      FineRunThen(FineApply(f, acts[0]), acts[1..], a);
    }
  }

  /** Once a row is locked, whatever the other side and everyone else do, the holder's commit
      decides the attempt, on the row as it was when it was locked. */
  lemma LockDecides(f: Fine, acts: seq<FineAction>, id: nat, now: int)
    requires FineOk(f) && id in f.locks && id < |f.s.db.outbox|
    requires forall k :: 0 <= k < |acts| ==> !Ends(acts[k], f.locks[id], id)
    ensures var commit := match f.locks[id] case ByClaim(w) => CommitClaim(w) case ByCancel => CommitCancel(id, now);
            var rows' := FineRun(f, acts + [commit]).s.db.outbox;
            && id < |rows'|
            && rows'[id] == if f.locks[id].ByClaim? then Claimed(f.s.db.outbox[id])
                            else CancelledRow(f.s.db.outbox[id], now)
  {
    var commit := match f.locks[id] case ByClaim(w) => CommitClaim(w) case ByCancel => CommitCancel(id, now);
    LockHolds(f, acts, id);
    FineRunRefines(f, acts);
    FineRunThen(f, acts, commit);
    HolderWins(FineRun(f, acts), id, now);
    FineStep(FineRun(f, acts), commit);
    FineStepRefines(FineRun(f, acts), commit);
    RowStays(FineRun(f, acts).s, Abstract(FineRun(f, acts), commit), id);
  }

  /** Over a whole run a pending attempt has one outcome: it is still pending, or cancelled for
      good without another call to SAP, or claimed, and then never cancelled at this attempt. */
  lemma RaceHasOneWinner(f: Fine, acts: seq<FineAction>, id: nat)
    requires FineOk(f) && id < |f.s.db.outbox| && f.s.db.outbox[id].status.Pending?
    ensures var row := f.s.db.outbox[id];
            var s' := FineRun(f, acts).s;
            && id < |s'.db.outbox|
            && var row' := s'.db.outbox[id];
            || row' == row
            || (row'.status.Cancelled? && row'.attempts == row.attempts
                && Answers(s'.hist.calls, id) == Answers(f.s.hist.calls, id))
            || row'.attempts > row.attempts
  {
    FineRunRefines(f, acts);
    OneWinner(f.s, Abstraction(f, acts), id);
  }

  // ---- no starvation

  /** The commit of a claim of `b` rows that saw row `t` when it selected. */
  predicate SawRow(f: Fine, a: FineAction, t: nat, b: nat) {
    a.CommitClaim? && a.w in f.open && f.open[a.w].limit == b && t in f.open[a.w].seen
  }

  function Sightings(f: Fine, acts: seq<FineAction>, t: nat, b: nat): nat
    decreases |acts|
  {
    if acts == [] then 0
    else (if SawRow(f, acts[0], t, b) then 1 else 0) + Sightings(FineApply(f, acts[0]), acts[1..], t, b)
  }

  lemma {:induction false} PassesAppend(s: State, xs: seq<Action>, ys: seq<Action>, t: nat, b: nat)
    ensures Passes(s, xs + ys, t, b) == Passes(s, xs, t, b) + Passes(Run(s, xs), ys, t, b)
    decreases |xs|
  {
    if xs == [] {
      assert xs + ys == ys;
    } else {
      assert (xs + ys)[1..] == xs[1..] + ys;
      PassesAppend(Apply(s, xs[0]), xs[1..], ys, t, b);
    }
  }

  lemma PassesOne(s: State, a: Action, t: nat, b: nat)
    ensures Passes(s, [a], t, b) == if Offers(s, a, t, b) then 1 else 0
  {
    assert [a][1..] == [];
    assert Passes(Apply(s, a), [], t, b) == 0;
  }

  lemma SightingStep(f: Fine, a: FineAction, t: nat, b: nat)
    requires FineOk(f) && t < |f.s.db.outbox|
    ensures Passes(f.s, Abstract(f, a), t, b) == if SawRow(f, a, t, b) then 1 else 0
  {
    if Abstract(f, a) != [] {
      assert Abstract(f, a) == [Abstract(f, a)[0]];
      PassesOne(f.s, Abstract(f, a)[0], t, b);
      if a.CommitClaim? {
        assert OpenOk(f, a.w);
      }
    }
  }

  /** What a selection saw is what its commit could have taken, so sightings in the finer run
      are passes in the protocol run. */
  lemma {:induction false} SightingsArePasses(f: Fine, acts: seq<FineAction>, t: nat, b: nat)
    requires FineOk(f) && t < |f.s.db.outbox|
    ensures Sightings(f, acts, t, b) == Passes(f.s, Abstraction(f, acts), t, b)
    decreases |acts|
  {
    if acts == [] {
    } else {
      var f' := FineApply(f, acts[0]);
      FineStep(f, acts[0]);
      FineStepRefines(f, acts[0]);
      RowStays(f.s, Abstract(f, acts[0]), t);
      SightingStep(f, acts[0], t, b);
      SightingsArePasses(f', acts[1..], t, b);
      PassesAppend(f.s, Abstract(f, acts[0]), Abstraction(f', acts[1..]), t, b);
    }
  }

  /** Every prefix of the protocol run is that of a prefix of the finer run. */
  lemma {:induction false} PrefixComesFrom(f: Fine, acts: seq<FineAction>, k: nat) returns (m: nat)
    requires k <= |Abstraction(f, acts)|
    ensures m <= |acts| && Abstraction(f, acts[..m]) == Abstraction(f, acts)[..k]
    decreases |acts|
  {
    var first := if acts == [] then [] else Abstract(f, acts[0]);
    if k == 0 {
      m := 0;
    } else if k < |first| {
      assert false;
    } else {
      var rest := PrefixComesFrom(FineApply(f, acts[0]), acts[1..], k - |first|);
      m := rest + 1;
      assert acts[..m][1..] == acts[1..][..rest];
    }
  }

  /** The starvation bound with split claims: a pending row is claimed or cancelled within
      floor(R / b) + 1 commits of claims of `b` rows that saw it when they selected. */
  lemma NoStarvationUnderLocks(before: seq<FineAction>, acts: seq<FineAction>, t: nat, b: nat) returns (m: nat)
    requires b >= 1 && t < |FineRun(FINE_INIT, before).s.db.outbox|
    requires var f := FineRun(FINE_INIT, before);
             && f.s.db.outbox[t].status.Pending?
             && Sightings(f, acts, t, b) >= Work(f.s.db.outbox, Held(f.s), t) / b + 1
    ensures var f := FineRun(FINE_INIT, before);
            && m <= |acts| && t < |FineRun(f, acts[..m]).s.db.outbox|
            && Sightings(f, acts[..m], t, b) <= Work(f.s.db.outbox, Held(f.s), t) / b + 1
            && var row' := FineRun(f, acts[..m]).s.db.outbox[t];
            row' == Claimed(f.s.db.outbox[t]) || row'.status.Cancelled?
  {
    var f := FineRun(FINE_INIT, before);
    InitIsCore();
    FineRunRefines(FINE_INIT, before);
    SightingsArePasses(f, acts, t, b);
    var k := NoStarvation(Abstraction(FINE_INIT, before), Abstraction(f, acts), t, b);
    m := PrefixComesFrom(f, acts, k);
    FineRunRefines(f, acts[..m]);
    SightingsArePasses(f, acts[..m], t, b);
  }
}
