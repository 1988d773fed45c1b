/** How fast the queue moves: no pending row starves while claims keep coming, and a queue
    that nothing is added to drains. */
module Progress {
  import opened Domain
  import opened Queue
  import opened Protocol
  import opened CoreInvariant
  import opened Audit

  /** The rows some worker has in hand. */
  function Held(s: State): set<nat> {
    set w, id | w in s.hands && id in s.hands[w].todo :: id
  }

  /** Attempts that row `e` may still cost the queue; nothing unless it waits or is in hand. */
  function Load(row: Entry, held: bool): int {
    if row.status.Pending? || held then row.maxAttempts - row.attempts else 0
  }

  /** The load of the first `n` rows. With all hands empty it is the sum of the remaining
      attempts of the pending rows among them. */
  function Work(rows: seq<Entry>, held: set<nat>, n: nat): int
    requires n <= |rows|
  {
    if n == 0 then 0 else Work(rows, held, n - 1) + Load(rows[n - 1], n - 1 in held)
  }

  function CountBelow(ids: set<nat>, n: nat): nat {
    if n == 0 then 0 else CountBelow(ids, n - 1) + if n - 1 in ids then 1 else 0
  }

  lemma {:induction false} CountSame(a: set<nat>, b: set<nat>, n: nat)
    requires forall x :: 0 <= x < n ==> (x in a <==> x in b)
    ensures CountBelow(a, n) == CountBelow(b, n)
  {
    if n == 0 {
    } else {
      CountSame(a, b, n - 1);
    }
  }

  lemma {:induction false} CountAll(ids: set<nat>, n: nat)
    requires forall x :: x in ids ==> x < n
    ensures CountBelow(ids, n) == |ids|
  {
    if n == 0 {
      assert ids == {};
    } else if n - 1 in ids {
      CountAll(ids - {n - 1}, n - 1);
      CountSame(ids, ids - {n - 1}, n - 1);
    } else {
      CountAll(ids, n - 1);
    }
  }

  /** If no load grows and the loads of `ids` fall by one, the work falls by their number. */
  lemma {:induction false} WorkFalls(rows: seq<Entry>, held: set<nat>, rows': seq<Entry>, held': set<nat>, n: nat,
                                     ids: set<nat>)
    requires n <= |rows| && n <= |rows'|
    requires forall e :: 0 <= e < n ==>
                           Load(rows'[e], e in held') + (if e in ids then 1 else 0) <= Load(rows[e], e in held)
    ensures Work(rows', held', n) + CountBelow(ids, n) <= Work(rows, held, n)
  {
    if n == 0 {
    } else {
      WorkFalls(rows, held, rows', held', n - 1, ids);
    }
  }

  lemma {:induction false} WorkNotNegative(rows: seq<Entry>, held: set<nat>, n: nat)
    requires n <= |rows| && forall e :: 0 <= e < n ==> Load(rows[e], e in held) >= 0
    ensures Work(rows, held, n) >= 0
  {
    if n == 0 {
    } else {
      WorkNotNegative(rows, held, n - 1);
    }
  }

  lemma HeldIsProcessing(s: State, e: nat)
    requires Core(s) && e in Held(s)
    ensures e < |s.db.outbox| && s.db.outbox[e].status.Processing?
  {
    var w :| w in s.hands && e in s.hands[w].todo;
    assert HandOk(s, w) && InHandOk(s, w, e);
  }

  lemma LoadsNotNegative(s: State, n: nat)
    requires Core(s) && n <= |s.db.outbox|
    ensures Work(s.db.outbox, Held(s), n) >= 0
    ensures forall e :: 0 <= e < n ==> 0 <= Load(s.db.outbox[e], e in Held(s)) <= MAX_ATTEMPTS
    ensures forall e :: 0 <= e < n && s.db.outbox[e].status.Pending? ==> Eligible(s.db.outbox[e]) && e !in Held(s)
  {
    forall e | 0 <= e < n
      ensures 0 <= Load(s.db.outbox[e], e in Held(s)) <= MAX_ATTEMPTS
      ensures s.db.outbox[e].status.Pending? ==> Eligible(s.db.outbox[e]) && e !in Held(s)
    {
      assert EntryAt(s, e);
      if e in Held(s) {
        HeldIsProcessing(s, e);
      }
    }
    WorkNotNegative(s.db.outbox, Held(s), n);
  }

  // ---- one step

  /** The rows an action claims. */
  function Taken(s: State, a: Action): set<nat> {
    if a.Claim? && HandOf(s, a.w) == EMPTY_HAND then ClaimIds(s.db.outbox, a.skip, a.limit) else {}
  }

  lemma HeldQuiet(s: State, a: Action)
    requires IsQuiet(a)
    ensures Held(Apply(s, a)) <= Held(s)
  {
    QuietAction(s, a);
  }

  /** An old row is in hand after an action only if it was before or has just been claimed. */
  lemma HeldStep(s: State, a: Action)
    requires Core(s)
    ensures Held(Apply(s, a)) <= Held(s) + Taken(s, a)
  {
    match a
    case Insert(req, rfc) => InsertShape(s, req, rfc);
    case Claim(_, _, _) =>
    case CallSap(_, _, _) =>
    case Close(_, _) =>
    case Cancel(o, i, id, now) => CancelShape(s, o, i, id, now);
    case _ => HeldQuiet(s, a);
  }

  /** What a claim does to a row it takes. */
  lemma TakenStep(s: State, a: Action, e: nat)
    requires e in Taken(s, a)
    ensures e < |s.db.outbox| == |Apply(s, a).db.outbox|
    ensures Eligible(s.db.outbox[e]) && Apply(s, a).db.outbox[e] == Claimed(s.db.outbox[e])
  {
    ClaimContract(s.db.outbox, a.skip, a.limit);
    ClaimShape(s, a.w, a.limit, a.skip);
  }

  predicate SameBudget(row: Entry, row': Entry) {
    row'.attempts == row.attempts && row'.maxAttempts == row.maxAttempts
  }

  lemma UnclaimedByClose(s: State, w: nat, now: int, e: nat)
    requires Core(s) && e < |s.db.outbox|
    ensures var rows, rows' := s.db.outbox, Apply(s, Close(w, now)).db.outbox;
            && e < |rows'| && SameBudget(rows[e], rows'[e])
            && (rows'[e].status.Processing? ==> rows'[e] == rows[e])
            && (rows'[e].status.Pending? && !rows[e].status.Pending? ==> e in Held(s))
  {
    if HandOf(s, w).current.Some? {
      CloseShape(s, w, now);
      assert HandOf(s, w).current.value.id in s.hands[w].todo;
    }
  }

  lemma UnclaimedByClaim(s: State, a: Action, e: nat)
    requires a.Claim? && e < |s.db.outbox| && e !in Taken(s, a)
    ensures e < |Apply(s, a).db.outbox| && Apply(s, a).db.outbox[e] == s.db.outbox[e]
  {
    if HandOf(s, a.w) == EMPTY_HAND {
      ClaimShape(s, a.w, a.limit, a.skip);
    }
  }

  /** A row that an action does not claim is PROCESSING afterwards only if it was before. */
  lemma UnclaimedStep(s: State, a: Action, e: nat)
    requires Core(s) && e < |s.db.outbox| && e !in Taken(s, a)
    ensures e < |Apply(s, a).db.outbox| && SameBudget(s.db.outbox[e], Apply(s, a).db.outbox[e])
    ensures Apply(s, a).db.outbox[e].status.Processing? ==> Apply(s, a).db.outbox[e] == s.db.outbox[e]
    ensures Apply(s, a).db.outbox[e].status.Pending? && !s.db.outbox[e].status.Pending? ==> e in Held(s)
  {
    match a
    case Insert(req, rfc) => InsertShape(s, req, rfc);
    case Claim(_, _, _) => UnclaimedByClaim(s, a, e);
    case CallSap(_, _, _) =>
    case Close(w, now) => UnclaimedByClose(s, w, now, e);
    case Cancel(o, i, id, now) => CancelShape(s, o, i, id, now);
    case _ => QuietAction(s, a);
  }

  /** A row waits or is in hand after an action that does not claim it only if it did before. */
  lemma UnclaimedWaits(s: State, a: Action, e: nat)
    requires Core(s) && e < |s.db.outbox| && e !in Taken(s, a)
    ensures e < |Apply(s, a).db.outbox| && SameBudget(s.db.outbox[e], Apply(s, a).db.outbox[e])
    ensures Apply(s, a).db.outbox[e].status.Pending? || e in Held(Apply(s, a)) ==>
              s.db.outbox[e].status.Pending? || e in Held(s)
  {
    HeldStep(s, a);
    UnclaimedStep(s, a, e);
  }

  /** No action adds load to a row that exists, and a claim takes one off each row it takes. */
  lemma LoadStep(s: State, a: Action, e: nat)
    requires Core(s) && e < |s.db.outbox|
    ensures e < |Apply(s, a).db.outbox|
    ensures Load(Apply(s, a).db.outbox[e], e in Held(Apply(s, a))) + (if e in Taken(s, a) then 1 else 0)
         <= Load(s.db.outbox[e], e in Held(s))
  {
    assert EntryAt(s, e);
    if e in Taken(s, a) {
      TakenStep(s, a, e);
    } else {
      UnclaimedWaits(s, a, e);
    }
  }

  lemma WorkStep(s: State, a: Action, n: nat)
    requires Core(s) && n <= |s.db.outbox|
    ensures n <= |Apply(s, a).db.outbox|
    ensures Work(Apply(s, a).db.outbox, Held(Apply(s, a)), n) + CountBelow(Taken(s, a), n)
         <= Work(s.db.outbox, Held(s), n)
  {
    CoreStep(s, a);
    if |s.db.outbox| > 0 {
      LoadStep(s, a, |s.db.outbox| - 1);
    }
    forall e | 0 <= e < n
      ensures e < |Apply(s, a).db.outbox|
      ensures Load(Apply(s, a).db.outbox[e], e in Held(Apply(s, a))) + (if e in Taken(s, a) then 1 else 0)
           <= Load(s.db.outbox[e], e in Held(s))
    {
      LoadStep(s, a, e);
    }
    WorkFalls(s.db.outbox, Held(s), Apply(s, a).db.outbox, Held(Apply(s, a)), n, Taken(s, a));
  }

  // ---- no starvation

  /** A claim of `b` rows by a worker with an empty hand, while row `t` is not locked. */
  predicate Offers(s: State, a: Action, t: nat, b: nat) {
    a.Claim? && HandOf(s, a.w) == EMPTY_HAND && a.limit == b && t !in a.skip
  }

  function Passes(s: State, acts: seq<Action>, t: nat, b: nat): nat
    decreases |acts|
  {
    if acts == [] then 0
    else (if Offers(s, acts[0], t, b) then 1 else 0) + Passes(Apply(s, acts[0]), acts[1..], t, b)
  }

  /** A claim that could have taken a pending row and did not took `b` older ones. */
  lemma PassedOver(s: State, a: Action, t: nat, b: nat)
    requires Core(s) && t < |s.db.outbox| && s.db.outbox[t].status.Pending?
    requires Offers(s, a, t, b) && t !in Taken(s, a)
    ensures CountBelow(Taken(s, a), t) == b
  {
    LoadsNotNegative(s, |s.db.outbox|);
    ClaimContract(s.db.outbox, a.skip, a.limit);
    CountAll(Taken(s, a), t);
  }

  lemma NotTaken(s: State, a: Action, t: nat)
    requires Core(s) && t < |s.db.outbox| && s.db.outbox[t].status.Pending?
    requires t < |Apply(s, a).db.outbox| && Apply(s, a).db.outbox[t] == s.db.outbox[t]
    ensures t !in Taken(s, a)
  {}

  lemma OfferStep(s: State, a: Action, t: nat, b: nat)
    requires Core(s) && t < |s.db.outbox| && s.db.outbox[t].status.Pending?
    requires t < |Apply(s, a).db.outbox| && Apply(s, a).db.outbox[t] == s.db.outbox[t]
    ensures Work(Apply(s, a).db.outbox, Held(Apply(s, a)), t) + (if Offers(s, a, t, b) then b else 0)
         <= Work(s.db.outbox, Held(s), t)
  {
    WorkStep(s, a, t);
    if Offers(s, a, t, b) {
      NotTaken(s, a, t);
      PassedOver(s, a, t, b);
    }
  }

  lemma PassesCons(s: State, a: Action, rest: seq<Action>, t: nat, b: nat)
    ensures Passes(s, [a] + rest, t, b) == (if Offers(s, a, t, b) then 1 else 0) + Passes(Apply(s, a), rest, t, b)
    ensures Run(s, [a] + rest) == Run(Apply(s, a), rest)
  {
    assert ([a] + rest)[1..] == rest;
  }

  lemma PendingStep(s: State, a: Action, t: nat)
    requires Core(s) && t < |s.db.outbox| && s.db.outbox[t].status.Pending?
    ensures Core(Apply(s, a)) && t < |Apply(s, a).db.outbox|
    ensures var row' := Apply(s, a).db.outbox[t];
            row' == s.db.outbox[t] || row' == Claimed(s.db.outbox[t]) || row'.status.Cancelled?
  {
    CoreStep(s, a);
    RowStep(s, a, t);
  }

  lemma WorkPositive(s: State, n: nat)
    requires Core(s) && n <= |s.db.outbox|
    ensures Work(s.db.outbox, Held(s), n) >= 0
  {
    LoadsNotNegative(s, n);
  }

  /** n times b, added up. */
  function Times(n: nat, b: nat): nat {
    if n == 0 then 0 else Times(n - 1, b) + b
  }

  lemma TimesOneMore(one: bool, all: nat, n: nat, b: nat)
    requires all == (if one then 1 else 0) + n
    ensures Times(all, b) == (if one then b else 0) + Times(n, b)
  {}

  lemma BudgetLeft(one: bool, all: nat, n: nat, b: nat, work: int, work': int)
    requires all == (if one then 1 else 0) + n
    requires Times(all, b) > work && work' + (if one then b else 0) <= work
    ensures Times(n, b) > work'
  {
    TimesOneMore(one, all, n, b);
  }

  lemma {:induction false} TimesIs(n: nat, b: nat)
    ensures Times(n, b) == n * b
  {
    if n == 0 {
    } else {
      TimesIs(n - 1, b);
      assert n * b == (n - 1) * b + b;
    }
  }

  lemma ExitNow(s: State, a: Action, rest: seq<Action>, t: nat, b: nat)
    requires Core(s) && t < |s.db.outbox|
    ensures Times(Passes(s, ([a] + rest)[..1], t, b), b) <= Work(s.db.outbox, Held(s), t) + b
    ensures Run(s, ([a] + rest)[..1]) == Apply(s, a)
  {
    WorkPositive(s, t);
    assert ([a] + rest)[..1] == [a] + [];
    PassesCons(s, a, [], t, b);
    assert Passes(Apply(s, a), [], t, b) == 0;
    assert Times(1, b) == b && Times(0, b) == 0;
  }

  lemma ExitBudget(s: State, a: Action, rest: seq<Action>, t: nat, b: nat)
    requires Core(s) && t < |s.db.outbox| && s.db.outbox[t].status.Pending?
    requires t < |Apply(s, a).db.outbox| && Apply(s, a).db.outbox[t] == s.db.outbox[t]
    requires Times(Passes(s, [a] + rest, t, b), b) > Work(s.db.outbox, Held(s), t)
    ensures Times(Passes(Apply(s, a), rest, t, b), b) > Work(Apply(s, a).db.outbox, Held(Apply(s, a)), t)
  {
    PassesCons(s, a, rest, t, b);
    OfferStep(s, a, t, b);
    BudgetLeft(Offers(s, a, t, b), Passes(s, [a] + rest, t, b), Passes(Apply(s, a), rest, t, b), b,
               Work(s.db.outbox, Held(s), t), Work(Apply(s, a).db.outbox, Held(Apply(s, a)), t));
  }

  lemma ExitLater(s: State, a: Action, pre: seq<Action>, t: nat, b: nat)
    requires Core(s) && t < |s.db.outbox| && s.db.outbox[t].status.Pending?
    requires t < |Apply(s, a).db.outbox| && Apply(s, a).db.outbox[t] == s.db.outbox[t]
    requires Times(Passes(Apply(s, a), pre, t, b), b) <= Work(Apply(s, a).db.outbox, Held(Apply(s, a)), t) + b
    ensures Times(Passes(s, [a] + pre, t, b), b) <= Work(s.db.outbox, Held(s), t) + b
    ensures Run(s, [a] + pre) == Run(Apply(s, a), pre)
  {
    OfferStep(s, a, t, b);
    PassesCons(s, a, pre, t, b);
    TimesOneMore(Offers(s, a, t, b), Passes(s, [a] + pre, t, b), Passes(Apply(s, a), pre, t, b), b);
  }

  /** Counted without division: the claims up to the first one that takes row `t`, or to its
      cancellation, exceed the older work by at most one batch. */
  lemma {:induction false} FirstExit(s: State, acts: seq<Action>, t: nat, b: nat) returns (k: nat)
    requires Core(s) && t < |s.db.outbox| && s.db.outbox[t].status.Pending?
    requires Times(Passes(s, acts, t, b), b) > Work(s.db.outbox, Held(s), t)
    ensures 0 < k <= |acts|
    ensures Times(Passes(s, acts[..k], t, b), b) <= Work(s.db.outbox, Held(s), t) + b
    ensures t < |Run(s, acts[..k]).db.outbox|
    ensures var row' := Run(s, acts[..k]).db.outbox[t];
            row' == Claimed(s.db.outbox[t]) || row'.status.Cancelled?
    decreases |acts|
  {
    if acts == [] {
      WorkPositive(s, t);
      assert false;
    } else {
      var a, rest := acts[0], acts[1..];
      assert acts == [a] + rest;
      PendingStep(s, a, t);
      if Apply(s, a).db.outbox[t] != s.db.outbox[t] {
        k := 1;
        ExitNow(s, a, rest, t, b);
      } else {
        ExitBudget(s, a, rest, t, b);
        k := FirstExit(Apply(s, a), rest, t, b);
        ExitLater(s, a, rest[..k], t, b);
        assert acts[..k + 1] == [a] + rest[..k];
        k := k + 1;
      }
    }
  }

  lemma EnoughClaims(work: nat, b: nat, passes: nat)
    requires b >= 1 && passes >= work / b + 1
    ensures Times(passes, b) > work
  {
    TimesIs(passes, b);
    assert work == work / b * b + work % b;
    assert (passes - work / b - 1) * b >= 0;
    assert passes * b == (passes - work / b - 1) * b + work / b * b + b;
  }

  lemma FewClaims(work: nat, b: nat, passes: nat)
    requires b >= 1 && Times(passes, b) <= work + b
    ensures passes <= work / b + 1
  {
    if passes > work / b + 1 {
      EnoughClaims(work, b, passes - 1);
      assert false;
    }
  }

  /** From any reachable state a pending row is claimed or cancelled within floor(R / b) + 1
      claims of `b` rows that find it unlocked, where R is the work older than it, whatever any
      number of workers, enqueues, cancels, edits, crashes and SAP answers do in between. */
  lemma NoStarvation(before: seq<Action>, acts: seq<Action>, t: nat, b: nat) returns (k: nat)
    requires b >= 1 && t < |Run(INIT, before).db.outbox|
    requires var s := Run(INIT, before);
             && s.db.outbox[t].status.Pending?
             && Passes(s, acts, t, b) >= Work(s.db.outbox, Held(s), t) / b + 1
    ensures var s := Run(INIT, before);
            && k <= |acts| && t < |Run(s, acts[..k]).db.outbox|
            && Passes(s, acts[..k], t, b) <= Work(s.db.outbox, Held(s), t) / b + 1
            && var row' := Run(s, acts[..k]).db.outbox[t];
            row' == Claimed(s.db.outbox[t]) || row'.status.Cancelled?
  {
    var s := Run(INIT, before);
    ReachableIsCore(before);
    LoadsNotNegative(s, t);
    var work := Work(s.db.outbox, Held(s), t);
    EnoughClaims(work, b, Passes(s, acts, t, b));
    k := FirstExit(s, acts, t, b);
    FewClaims(work, b, Passes(s, acts[..k], t, b));
  }

  // ---- draining

  /** No new rows, and every claim is one worker's, of `b` rows, with nothing locked. */
  predicate Draining(acts: seq<Action>, w: nat, b: nat) {
    forall k :: 0 <= k < |acts| ==>
                  !acts[k].Insert? && (acts[k].Claim? ==> acts[k].w == w && acts[k].limit == b && acts[k].skip == {})
  }

  predicate Alone(s: State, w: nat) {
    forall v :: v in s.hands && v != w ==> s.hands[v].todo == map[]
  }

  predicate Starts(s: State, a: Action) {
    a.Claim? && HandOf(s, a.w) == EMPTY_HAND
  }

  predicate IsFull(s: State, a: Action, b: nat) {
    Starts(s, a) && |Taken(s, a)| == b
  }

  /** The batches of a run that took `b` rows, and those that took fewer. */
  function Full(s: State, acts: seq<Action>, b: nat): nat
    decreases |acts|
  {
    if acts == [] then 0
    else (if IsFull(s, acts[0], b) then 1 else 0) + Full(Apply(s, acts[0]), acts[1..], b)
  }

  predicate IsShort(s: State, a: Action, b: nat) {
    Starts(s, a) && |Taken(s, a)| != b
  }

  function Short(s: State, acts: seq<Action>, b: nat): nat
    decreases |acts|
  {
    if acts == [] then 0
    else (if IsShort(s, acts[0], b) then 1 else 0) + Short(Apply(s, acts[0]), acts[1..], b)
  }

  function Batches(s: State, acts: seq<Action>): nat
    decreases |acts|
  {
    if acts == [] then 0 else (if Starts(s, acts[0]) then 1 else 0) + Batches(Apply(s, acts[0]), acts[1..])
  }

  /** Every row that waits or is in hand has at most `m` attempts left. */
  predicate AtMost(s: State, m: int) {
    forall e :: 0 <= e < |s.db.outbox| && (s.db.outbox[e].status.Pending? || e in Held(s)) ==>
                  s.db.outbox[e].maxAttempts - s.db.outbox[e].attempts <= m
  }

  lemma AloneStep(s: State, a: Action, w: nat)
    requires Alone(s, w) && a.Claim? && a.w == w
    ensures Alone(Apply(s, a), w)
  {}

  lemma AloneClose(s: State, v: nat, now: int, w: nat)
    requires Core(s) && Alone(s, w)
    ensures Alone(Apply(s, Close(v, now)), w)
  {
    if HandOf(s, v).current.Some? {
      CloseShape(s, v, now);
    }
  }

  lemma AloneOther(s: State, a: Action, w: nat)
    requires Core(s) && Alone(s, w) && !a.Claim?
    ensures Alone(Apply(s, a), w)
  {
    match a
    case Insert(req, rfc) => InsertShape(s, req, rfc);
    case CallSap(_, _, _) =>
    case Close(v, now) => AloneClose(s, v, now, w);
    case Cancel(o, i, id, now) => CancelShape(s, o, i, id, now);
    case _ => QuietAction(s, a);
  }

  lemma NoInsertSameLength(s: State, a: Action)
    requires Core(s) && !a.Insert?
    ensures |Apply(s, a).db.outbox| == |s.db.outbox|
  {
    match a
    case Claim(_, _, _) =>
    case CallSap(_, _, _) =>
    case Close(w, now) =>
      if HandOf(s, w).current.Some? {
        CloseShape(s, w, now);
      }
    case Cancel(o, i, id, now) => CancelShape(s, o, i, id, now);
    case _ => QuietAction(s, a);
  }

  lemma AtMostRow(s: State, a: Action, m: int, e: nat)
    requires Core(s) && AtMost(s, m) && e < |s.db.outbox|
    ensures var s' := Apply(s, a);
            && e < |s'.db.outbox|
            && (s'.db.outbox[e].status.Pending? || e in Held(s') ==>
                  s'.db.outbox[e].maxAttempts - s'.db.outbox[e].attempts <= m)
  {
    if e in Taken(s, a) {
      TakenStep(s, a, e);
    } else {
      UnclaimedWaits(s, a, e);
    }
  }

  /** No action raises the attempts left of a row, or brings one back. */
  lemma AtMostStep(s: State, a: Action, m: int)
    requires Core(s) && !a.Insert? && AtMost(s, m)
    ensures AtMost(Apply(s, a), m)
  {
    var s' := Apply(s, a);
    NoInsertSameLength(s, a);
    forall e | 0 <= e < |s'.db.outbox| && (s'.db.outbox[e].status.Pending? || e in Held(s'))
      ensures s'.db.outbox[e].maxAttempts - s'.db.outbox[e].attempts <= m
    {
      AtMostRow(s, a, m, e);
    }
  }

  /** A short batch by the only worker takes every pending row. */
  lemma ShortBatch(s: State, a: Action, w: nat, b: nat, m: int)
    requires Core(s) && Alone(s, w) && AtMost(s, m)
    requires a == Claim(w, b, {}) && HandOf(s, w) == EMPTY_HAND && |Taken(s, a)| != b
    ensures AtMost(Apply(s, a), m - 1)
  {
    var s' := Apply(s, a);
    ClaimContract(s.db.outbox, {}, b);
    LoadsNotNegative(s, |s.db.outbox|);
    HeldStep(s, a);
    assert Held(s) == {};
    forall e | 0 <= e < |s'.db.outbox| && (s'.db.outbox[e].status.Pending? || e in Held(s'))
      ensures s'.db.outbox[e].maxAttempts - s'.db.outbox[e].attempts <= m - 1
    {
      assert e in Taken(s, a);
    }
  }

  lemma DrainStep(s: State, a: Action, w: nat, b: nat, m: int)
    requires Core(s) && Alone(s, w) && Draining([a], w, b) && AtMost(s, m)
    ensures var s' := Apply(s, a);
            && Core(s') && Alone(s', w) && |s'.db.outbox| == |s.db.outbox|
            && AtMost(s', if IsShort(s, a, b) then m - 1 else m)
            && Work(s'.db.outbox, Held(s'), |s.db.outbox|) + (if IsFull(s, a, b) then b else 0)
               <= Work(s.db.outbox, Held(s), |s.db.outbox|)
  {
    assert a == [a][0];
    CoreStep(s, a);
    NoInsertSameLength(s, a);
    WorkStep(s, a, |s.db.outbox|);
    AtMostStep(s, a, m);
    if a.Claim? {
      AloneStep(s, a, w);
      ClaimContract(s.db.outbox, a.skip, a.limit);
      CountAll(Taken(s, a), |s.db.outbox|);
    } else {
      AloneOther(s, a, w);
    }
    if IsShort(s, a, b) {
      ShortBatch(s, a, w, b, m);
    }
  }

  lemma DrainOne(acts: seq<Action>, w: nat, b: nat)
    requires acts != [] && Draining(acts, w, b)
    ensures Draining([acts[0]], w, b) && Draining(acts[1..], w, b)
  {}

  lemma {:induction false} DrainRun(s: State, acts: seq<Action>, w: nat, b: nat, m: int)
    requires Core(s) && Alone(s, w) && Draining(acts, w, b) && AtMost(s, m)
    ensures |Run(s, acts).db.outbox| == |s.db.outbox|
    ensures Times(Full(s, acts, b), b) + Work(Run(s, acts).db.outbox, Held(Run(s, acts)), |s.db.outbox|)
         <= Work(s.db.outbox, Held(s), |s.db.outbox|)
    ensures AtMost(Run(s, acts), m - Short(s, acts, b))
    ensures Core(Run(s, acts))
    decreases |acts|
  {
    if acts == [] {
    } else {
      var a, rest := acts[0], acts[1..];
      DrainOne(acts, w, b);
      DrainStep(s, a, w, b, m);
      TimesOneMore(IsFull(s, a, b), Full(s, acts, b), Full(Apply(s, a), rest, b), b);
      DrainRun(Apply(s, a), rest, w, b, if IsShort(s, a, b) then m - 1 else m);
    }
  }

  lemma {:induction false} FullAndShort(s: State, acts: seq<Action>, b: nat)
    ensures Full(s, acts, b) + Short(s, acts, b) == Batches(s, acts)
    decreases |acts|
  {
    if acts == [] {
    } else {
      FullAndShort(Apply(s, acts[0]), acts[1..], b);
    }
  }

  /** With one worker, nothing locked and no new rows, floor(R / b) + 3 batches leave no
      pending row, R being the work of the whole queue, crashes and lost closings included. */
  lemma Drain(before: seq<Action>, acts: seq<Action>, w: nat, b: nat)
    requires b >= 1
    requires var s := Run(INIT, before);
             && Alone(s, w) && Draining(acts, w, b)
             && Batches(s, acts) >= Work(s.db.outbox, Held(s), |s.db.outbox|) / b + MAX_ATTEMPTS
    ensures var rows := Run(INIT, before + acts).db.outbox;
            forall e :: 0 <= e < |rows| ==> !rows[e].status.Pending?
  {
    var s, s' := Run(INIT, before), Run(INIT, before + acts);
    ReachableIsCore(before);
    RunAppend(INIT, before, acts);
    LoadsNotNegative(s, |s.db.outbox|);
    DrainRun(s, acts, w, b, MAX_ATTEMPTS);
    LoadsNotNegative(s', |s'.db.outbox|);
    FullAndShort(s, acts, b);
    var work := Work(s.db.outbox, Held(s), |s.db.outbox|);
    if Full(s, acts, b) > work / b {
      EnoughClaims(work, b, Full(s, acts, b));
      assert false;
    }
    assert Short(s, acts, b) >= MAX_ATTEMPTS;
  }

  // ---- nothing is lost when closings commit

  predicate NothingLost(acts: seq<Action>) {
    forall k :: 0 <= k < |acts| ==> !acts[k].Crash? && !acts[k].CloseLost?
  }

  predicate Tracked(s: State, e: nat) {
    e < |s.db.outbox| && (s.db.outbox[e].status.Processing? ==> e in Held(s))
  }

  lemma TakenIsHeld(s: State, a: Action, e: nat)
    requires Core(s) && e in Taken(s, a)
    ensures e in Held(Apply(s, a))
  {
    ClaimContract(s.db.outbox, a.skip, a.limit);
    assert e in Apply(s, a).hands[a.w].todo;
  }

  lemma CloseHolds(s: State, v: nat, now: int, w: nat, e: nat)
    requires Core(s) && w in s.hands && e in s.hands[w].todo
    requires e < |Apply(s, Close(v, now)).db.outbox| && Apply(s, Close(v, now)).db.outbox[e].status.Processing?
    ensures w in Apply(s, Close(v, now)).hands && e in Apply(s, Close(v, now)).hands[w].todo
  {
    if HandOf(s, v).current.Some? {
      CloseShape(s, v, now);
    }
  }

  lemma KeepsHand(s: State, a: Action, w: nat)
    requires Core(s) && w in s.hands && !a.Crash? && !a.CloseLost? && !a.Close?
    ensures w in Apply(s, a).hands && s.hands[w].todo.Keys <= Apply(s, a).hands[w].todo.Keys
  {
    match a
    case Insert(req, rfc) => InsertShape(s, req, rfc);
    case Claim(_, _, _) =>
    case CallSap(_, _, _) =>
    case Cancel(o, i, id, now) => CancelShape(s, o, i, id, now);
    case _ => QuietRequest(s, a);
  }

  /** Only closing a row takes it out of a hand that does not crash. */
  lemma StaysHeld(s: State, a: Action, e: nat)
    requires Core(s) && e in Held(s) && !a.Crash? && !a.CloseLost?
    requires e < |Apply(s, a).db.outbox| && Apply(s, a).db.outbox[e].status.Processing?
    ensures e in Held(Apply(s, a))
  {
    var w :| w in s.hands && e in s.hands[w].todo;
    if a.Close? {
      CloseHolds(s, a.w, a.now, w, e);
    } else {
      KeepsHand(s, a, w);
    }
    assert e in Apply(s, a).hands[w].todo;
  }

  lemma TrackedStep(s: State, a: Action, e: nat)
    requires Core(s) && Tracked(s, e) && !a.Crash? && !a.CloseLost?
    ensures Tracked(Apply(s, a), e)
  {
    RowStep(s, a, e);
    if e in Taken(s, a) {
      TakenIsHeld(s, a, e);
    } else {
      UnclaimedStep(s, a, e);
      if Apply(s, a).db.outbox[e].status.Processing? {
        StaysHeld(s, a, e);
      }
    }
  }

  lemma {:induction false} TrackedRun(s: State, acts: seq<Action>, e: nat)
    requires Core(s) && Tracked(s, e) && NothingLost(acts)
    ensures Tracked(Run(s, acts), e)
    decreases |acts|
  {
    if acts == [] {
    } else {
      assert !acts[0].Crash? && !acts[0].CloseLost?;
      TrackedStep(s, acts[0], e);
      CoreStep(s, acts[0]);
      TrackedRun(Apply(s, acts[0]), acts[1..], e);
    }
  }

  /** If moreover no closing transaction is lost and no worker crashes, then once the batches
      are through and the hands empty, every row that waited or was in hand is done. */
  lemma DrainFinishes(before: seq<Action>, acts: seq<Action>, w: nat, b: nat, e: nat)
    requires b >= 1
    requires var s := Run(INIT, before);
             && Alone(s, w) && Draining(acts, w, b) && NothingLost(acts)
             && Batches(s, acts) >= Work(s.db.outbox, Held(s), |s.db.outbox|) / b + MAX_ATTEMPTS
             && Tracked(s, e)
             && Held(Run(INIT, before + acts)) == {}
    ensures e < |Run(INIT, before + acts).db.outbox| && Finished(Run(INIT, before + acts).db.outbox[e])
  {
    Drain(before, acts, w, b);
    ReachableIsCore(before);
    RunAppend(INIT, before, acts);
    TrackedRun(Run(INIT, before), acts, e);
  }
}
