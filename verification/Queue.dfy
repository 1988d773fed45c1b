/** The outbox as a queue: which rows a claim takes, and the counts over rows that the
    bounds and the conservation laws are stated with. A row's id is its position in the
    table and positions follow `created_at`. */
module Queue {
  import opened Domain

  /** The first `n` rows' share of a claim: the oldest rows that are eligible and that no
      other transaction has locked, up to `limit` of them. */
  function Pick(rows: seq<Entry>, n: nat, skip: set<nat>, limit: nat): (ids: seq<nat>)
    requires n <= |rows|
    ensures |ids| <= limit
    ensures forall k :: 0 <= k < |ids| ==> ids[k] < n && Eligible(rows[ids[k]]) && ids[k] !in skip
    ensures forall j, k :: 0 <= j < k < |ids| ==> ids[j] < ids[k]
    ensures forall x :: 0 <= x < n && Eligible(rows[x]) && x !in skip && x !in ids ==>
                          |ids| == limit && forall k :: 0 <= k < |ids| ==> ids[k] < x
  {
    if n == 0 then []
    else
      var older := Pick(rows, n - 1, skip, limit);
      if |older| < limit && Eligible(rows[n - 1]) && n - 1 !in skip then older + [n - 1] else older
  }

  function Claimable(rows: seq<Entry>, n: nat, skip: set<nat>): nat
    requires n <= |rows|
  {
    if n == 0 then 0
    else Claimable(rows, n - 1, skip) + if Eligible(rows[n - 1]) && n - 1 !in skip then 1 else 0
  }

  lemma {:induction false} PickCount(rows: seq<Entry>, n: nat, skip: set<nat>, limit: nat)
    requires n <= |rows|
    ensures |Pick(rows, n, skip, limit)| == if Claimable(rows, n, skip) < limit then Claimable(rows, n, skip) else limit
  {
    if n == 0 {
    } else {
      PickCount(rows, n - 1, skip, limit);
    }
  }

  function Members(xs: seq<nat>): set<nat> {
    set x | x in xs
  }

  function ClaimIds(rows: seq<Entry>, skip: set<nat>, limit: nat): (ids: set<nat>) {
    Members(Pick(rows, |rows|, skip, limit))
  }

  lemma {:induction false} DistinctSize(xs: seq<nat>)
    requires forall j, k :: 0 <= j < k < |xs| ==> xs[j] < xs[k]
    ensures |Members(xs)| == |xs|
  {
    if xs == [] {
    } else {
      var last := |xs| - 1;
      DistinctSize(xs[..last]);
      assert xs == xs[..last] + [xs[last]];
      assert Members(xs) == Members(xs[..last]) + {xs[last]};
    }
  }

  /** The claim contract: distinct eligible unlocked rows, as many as there are up to the
      limit, and every such row left behind is newer than every row taken. */
  lemma ClaimContract(rows: seq<Entry>, skip: set<nat>, limit: nat)
    ensures var ids := ClaimIds(rows, skip, limit);
            && (forall x :: x in ids ==> x < |rows| && Eligible(rows[x]) && x !in skip)
            && (forall x, y :: 0 <= x < |rows| && Eligible(rows[x]) && x !in skip && x !in ids && y in ids ==> y < x)
            && |ids| == (if Claimable(rows, |rows|, skip) < limit then Claimable(rows, |rows|, skip) else limit)
            && (|ids| < limit ==> forall x :: 0 <= x < |rows| && Eligible(rows[x]) && x !in skip ==> x in ids)
  {
    PickCount(rows, |rows|, skip, limit);
    DistinctSize(Pick(rows, |rows|, skip, limit));
  }

  function Claimed(e: Entry): Entry {
    e.(status := OutboxStatus.Processing, attempts := e.attempts + 1)
  }

  /** Every chosen row is in an attempt more, all others are as they were. */
  function ClaimRows(rows: seq<Entry>, ids: set<nat>): (after: seq<Entry>)
    ensures |after| == |rows|
  {
    seq(|rows|, i requires 0 <= i < |rows| => if i in ids then Claimed(rows[i]) else rows[i])
  }

  lemma Subset(a: set<nat>, b: set<nat>)
    requires a <= b
    ensures |a| <= |b|
  {
    assert b == a + (b - a);
  }

  /** A set of candidates that is closed under "older first up to the limit" is the claim. */
  lemma ClaimIsUnique(rows: seq<Entry>, skip: set<nat>, limit: nat, m: set<nat>)
    requires |m| <= limit
    requires forall x :: x in m ==> x < |rows| && Eligible(rows[x]) && x !in skip
    requires forall x :: 0 <= x < |rows| && Eligible(rows[x]) && x !in skip && x !in m ==>
                           |m| == limit && forall y :: y in m ==> y < x
    ensures ClaimIds(rows, skip, limit) == m
  {
    var p := ClaimIds(rows, skip, limit);
    ClaimContract(rows, skip, limit);
    if x :| x in m && x !in p {
      assert |p| == limit;
      forall y | y in p ensures y in m {
        assert y < x;
      }
      Subset(p, m - {x});
      assert false;
    }
    if x :| x in p && x !in m {
      assert m <= p - {x};
      Subset(m, p - {x});
      assert false;
    }
    assert m == p;
  }

  // ---- counts over rows

  /** Recorded attempts of an item's entries among the first `n` rows. */
  function RecordedAttempts(rows: seq<Entry>, n: nat, item: nat): int
    requires n <= |rows|
  {
    if n == 0 then 0
    else RecordedAttempts(rows, n - 1, item) + if rows[n - 1].itemId == item then ClosedAttempts(rows[n - 1]) else 0
  }

  function CompletedCount(rows: seq<Entry>, n: nat, item: nat): int
    requires n <= |rows|
  {
    if n == 0 then 0
    else
      var last := rows[n - 1];
      CompletedCount(rows, n - 1, item) + if last.itemId == item && last.status.Completed? then 1 else 0
  }

  /** The counts only look at the first `n` rows, through these two attributes. */
  lemma {:induction false} SameCounts(a: seq<Entry>, b: seq<Entry>, n: nat, item: nat)
    requires n <= |a| && n <= |b|
    requires forall k :: 0 <= k < n ==> a[k].itemId == b[k].itemId && ClosedAttempts(a[k]) == ClosedAttempts(b[k])
                                        && a[k].status.Completed? == b[k].status.Completed?
    ensures RecordedAttempts(a, n, item) == RecordedAttempts(b, n, item)
    ensures CompletedCount(a, n, item) == CompletedCount(b, n, item)
  {
    if n == 0 {
    } else {
      SameCounts(a, b, n - 1, item);
    }
  }

  lemma {:induction false} UpdatedCounts(a: seq<Entry>, id: nat, row: Entry, n: nat, item: nat)
    requires id < n <= |a|
    requires row.itemId == a[id].itemId
    ensures var b := a[id := row];
            var mine := row.itemId == item;
            && RecordedAttempts(b, n, item)
               == RecordedAttempts(a, n, item) + (if mine then ClosedAttempts(row) - ClosedAttempts(a[id]) else 0)
            && CompletedCount(b, n, item)
               == CompletedCount(a, n, item)
                  + (if mine && row.status.Completed? then 1 else 0)
                  - (if mine && a[id].status.Completed? then 1 else 0)
  {
    if id == n - 1 {
      SameCounts(a[id := row], a, n - 1, item);
    } else {
      UpdatedCounts(a, id, row, n - 1, item);
    }
  }
}
