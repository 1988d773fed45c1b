/** A database whose statements and commits can fail at any point, and the four repositories
    over it. */
module Database {
  import opened Domain
  import opened Queue
  import opened Requests
  import opened Paging
  import opened Listings

  /** What becomes of one statement: it works, it fails without effect, or it takes effect but
      the caller is told that it failed. */
  datatype Fault = Works | Fails | AckLost

  /** How a statement with this effect may turn out: it changes nothing or takes effect whole,
      success means it took effect, a refusal is the effect's own, and without faults the
      outcome is the effect. */
  predicate Ran(effect: Result<Tables>, before: Tables, after: Tables, r: Result<()>, healthy: bool) {
    && (after == before || effect == Ok(after))
    && (r.Ok? ==> effect == Ok(after))
    && (r.Err? && r.error != Error.Database ==> effect == Err(r.error) && after == before)
    && (healthy ==> r.Ok? == effect.Ok? && (r.Err? ==> effect == Err(r.error)))
  }

  /** How reads and then one write may turn out when others leave `seen` between the reads and
      `last` before the write: the write has its effect on what they left last or none, and
      success means it had. */
  predicate Wrote(effect: Result<Tables>, seen: set<Tables>, last: Tables, after: Tables, r: Result<()>,
                  healthy: bool)
  {
    && (after in seen || after == last || effect == Ok(after))
    && (r.Ok? ==> effect == Ok(after))
    && (r.Err? && r.error != Error.Database ==> effect == Err(r.error) && after == last)
    && (healthy ==> r.Ok? == effect.Ok?)
  }

  /** How a request that its reads refuse may turn out. */
  predicate Refused(e: Error, seen: set<Tables>, after: Tables, r: Result<()>, healthy: bool) {
    after in seen && (r == Err(e) || (r == Err(Error.Database) && !healthy))
  }

  class Database {
    var committed: Tables
    var staged: Option<Tables>  // the open transaction's view
    var tick: nat
    const faults: nat -> Fault  // the n-th statement's fate

    constructor (faults: nat -> Fault)
      ensures committed == Tables([], [], [], []) && staged.None? && this.faults == faults
    {
      this.faults := faults;
      committed := Tables([], [], [], []);
      staged := None;
      tick := 0;
    }

    ghost predicate Healthy() {
      forall n :: faults(n) == Works
    }

    /** What a statement sees: the open transaction if there is one. */
    function View(): Tables
      reads this
    {
      if staged.Some? then staged.value else committed
    }

    /** A statement that reads. */
    method Query() returns (r: Result<()>)
      modifies this`tick
      ensures r.Ok? || r == Err(Error.Database)
      ensures Healthy() ==> r.Ok?
    {
      r := if faults(tick) == Works then Ok(()) else Err(Error.Database);
      tick := tick + 1;
    }

    /** A statement that writes; `effect` is what it makes of the tables, or why it is refused. */
    method Execute(effect: Result<Tables>) returns (r: Result<()>)
      modifies this
      ensures staged.Some? == old(staged.Some?) && (staged.Some? ==> committed == old(committed))
      ensures Ran(effect, old(View()), View(), r, Healthy())
    {
      var fault := faults(tick);
      tick := tick + 1;
      if fault == Fails {
        return Err(Error.Database);
      }
      if effect.Err? {
        return Err(effect.error);
      }
      if staged.Some? {
        staged := Some(effect.value);
      } else {
        committed := effect.value;
      }
      r := if fault == Works then Ok(()) else Err(Error.Database);
    }

    /** Other connections leave the tables as `t`. A transaction that has written nothing sees what
        they committed in its next statement. */
    method OthersCommit(t: Tables)
      requires staged.Some? ==> staged == Some(committed)
      modifies this`committed, this`staged
      ensures committed == t && staged == (if old(staged).Some? then Some(t) else None)
    {
      committed := t;
      if staged.Some? {
        staged := Some(t);
      }
    }

    method Begin() returns (r: Result<()>)
      requires staged.None?
      modifies this
      ensures committed == old(committed)
      ensures if r.Ok? then staged == Some(committed) else staged.None? && r == Err(Error.Database)
      ensures Healthy() ==> r.Ok?
    {
      r := Query();
      if r.Ok? {
        staged := Some(committed);
      }
    }

    method Rollback()
      modifies this
      ensures staged.None? && committed == old(committed)
    {
      staged := None;
    }

    /** A commit installs the whole transaction or nothing of it. */
    method Commit() returns (r: Result<()>)
      requires staged.Some?
      modifies this
      ensures staged.None?
      ensures committed == old(committed) || committed == old(staged.value)
      ensures r.Ok? ==> committed == old(staged.value)
      ensures r.Err? ==> r == Err(Error.Database)
      ensures Healthy() ==> r.Ok?
    {
      var fault := faults(tick);
      tick := tick + 1;
      if fault != Fails {
        committed := staged.value;
      }
      staged := None;
      r := if fault == Works then Ok(()) else Err(Error.Database);
    }
  }

  class OrderRepository {
    const db: Database

    constructor (db: Database)
      ensures this.db == db
    {
      this.db := db;
    }

    /** The row loop over an order's items, which come by delivery date. */
    method ListItemsByOrderId(o: nat) returns (mine: seq<Item>)
      ensures mine == ByDate(ItemsOf(db.View().items, o))
    {
      var rows := ByDate(ItemsOf(db.View().items, o));
      mine := [];
      for k := 0 to |rows|
        invariant mine == rows[..k]
      {
        mine := mine + [rows[k]];
      }
    }

    /** The order, then its items as others have left them by then. */
    method GetById(o: nat, later: Tables) returns (r: Result<(Order, seq<Item>)>)
      requires db.staged.None?
      modifies db
      ensures db.staged.None?
      ensures var t := old(db.committed);
              && db.committed in {t, later}
              && (r.Ok? ==>
                    && o < |t.orders| && r.value == (t.orders[o], ByDate(ItemsOf(later.items, o)))
                    && db.committed == later)
              && (r.Err? && r.error != Error.Database ==> r.error == NotFound && o >= |t.orders|)
              && (db.Healthy() ==> (if o < |t.orders| then r.Ok? else r == Err(NotFound)))
    {
      var _ :- db.Query();
      if o >= |db.View().orders| {
        return Err(NotFound);
      }
      var order := db.View().orders[o];
      db.OthersCommit(later);
      var _ :- db.Query();
      var items := ListItemsByOrderId(o);
      return Ok((order, items));
    }

    /** The count, the 64-bit offset and the row loop of one page. The page is read from whatever
        tables others have left by then. */
    method List(page: int, limit: int, status: Option<OrderStatus>, later: Tables)
      returns (r: Result<PagedResult<Order>>)
      requires page >= 1 && limit >= 1 && db.staged.None?
      modifies db
      ensures db.staged.None? && (db.committed == old(db.committed) || db.committed == later)
      ensures var shown := Filtered(later.orders, status);
              && (r.Ok? ==> SelectPage(shown, page, limit) == Ok(r.value.data)
                            && r.value == NewPagedResult(r.value.data, page, limit,
                                                         |Filtered(old(db.committed).orders, status)|))
              && (r.Err? ==> r.error == Error.Database)
              && (db.Healthy() ==> (r.Ok? <==> SelectPage(shown, page, limit).Ok?))
    {
      var _ :- db.Query();
      var total := |Filtered(db.View().orders, status)|;
      var offset := Wrap64((page - 1) * limit);
      db.OthersCommit(later);
      var list := Filtered(db.View().orders, status);
      var _ :- db.Query();
      if offset < 0 {
        return Err(Error.Database);
      }
      var lo, hi := Min(offset, |list|), Min(offset + limit, |list|);
      var rows: seq<Order> := [];
      for k := lo to hi
        invariant rows == list[lo..k]
      {
        rows := rows + [list[k]];
      }
      return Ok(NewPagedResult(rows, page, limit, total));
    }

    method Create(number: string, createdBy: string) returns (r: Result<()>)
      modifies db
      ensures db.staged.Some? == old(db.staged.Some?) && (db.staged.Some? ==> db.committed == old(db.committed))
      ensures Ran(WithOrder(old(db.View()), number, createdBy), old(db.View()), db.View(), r, db.Healthy())
    {
      r := db.Execute(WithOrder(db.View(), number, createdBy));
    }

    method Update(o: nat, status: OrderStatus) returns (r: Result<()>)
      modifies db
      ensures db.staged.Some? == old(db.staged.Some?) && (db.staged.Some? ==> db.committed == old(db.committed))
      ensures Ran(WithOrderStatus(old(db.View()), o, status), old(db.View()), db.View(), r, db.Healthy())
    {
      r := db.Execute(WithOrderStatus(db.View(), o, status));
    }
  }

  function Patched(item: Item, description: Option<string>, day: Option<int>, status: Option<ItemStatus>): Item {
    item.(description := if description.Some? then description.value else item.description,
    deliveryDate := if day.Some? then day.value else item.deliveryDate,
    status := if status.Some? then status.value else item.status)
  }

  class ItemRepository {
    const db: Database

    constructor (db: Database)
      ensures this.db == db
    {
      this.db := db;
    }

    method Create(o: nat, code: string, description: string, day: int) returns (r: Result<()>)
      modifies db
      ensures db.staged.Some? == old(db.staged.Some?) && (db.staged.Some? ==> db.committed == old(db.committed))
      ensures Ran(WithItem(old(db.View()), o, code, description, day), old(db.View()), db.View(), r, db.Healthy())
    {
      r := db.Execute(WithItem(db.View(), o, code, description, day));
    }

    method GetById(o: nat, i: nat) returns (r: Result<Item>)
      modifies db`tick
      ensures r.Ok? ==> HasItem(db.View(), o, i) && r.value == db.View().items[i]
      ensures r.Err? && r.error != Error.Database ==> r.error == NotFound && !HasItem(db.View(), o, i)
      ensures db.Healthy() ==> (if HasItem(db.View(), o, i) then r.Ok? else r == Err(NotFound))
    {
      var _ :- db.Query();
      return if HasItem(db.View(), o, i) then Ok(db.View().items[i]) else Err(NotFound);
    }

    /** Reads the row again, overwrites the given fields and writes them all back, over whatever
        others have left by then. */
    method Update(o: nat, i: nat, description: Option<string>, day: Option<int>, status: Option<ItemStatus>,
                  later: Tables)
      returns (r: Result<()>)
      requires db.staged.None?
      modifies db
      ensures db.staged.None?
      ensures var t := old(db.committed);
              if HasItem(t, o, i) then
                Wrote(EditWritten(later, o, i, Patched(t.items[i], description, day, status)), {t}, later,
                      db.committed, r, db.Healthy())
              else Refused(NotFound, {t}, db.committed, r, db.Healthy())
    {
      var current :- GetById(o, i);
      if description.Some? {
        current := current.(description := description.value);
      }
      if day.Some? {
        current := current.(deliveryDate := day.value);
      }
      if status.Some? {
        current := current.(status := status.value);
      }
      db.OthersCommit(later);
      r := db.Execute(EditWritten(later, o, i, current));
    }

    method UpdateStatus(i: nat, status: ItemStatus) returns (r: Result<()>)
      modifies db
      ensures db.staged.Some? == old(db.staged.Some?) && (db.staged.Some? ==> db.committed == old(db.committed))
      ensures Ran(WithItemStatus(old(db.View()), i, status), old(db.View()), db.View(), r, db.Healthy())
    {
      r := db.Execute(WithItemStatus(db.View(), i, status));
    }
  }

  class SyncRepository {
    const db: Database

    constructor (db: Database)
      ensures this.db == db
    {
      this.db := db;
    }

    method Create(log: Log) returns (r: Result<()>)
      modifies db
      ensures db.staged.Some? == old(db.staged.Some?) && (db.staged.Some? ==> db.committed == old(db.committed))
      ensures Ran(WithLog(old(db.View()), log), old(db.View()), db.View(), r, db.Healthy())
    {
      r := db.Execute(WithLog(db.View(), log));
    }

    /** The row loop over an item's logs, newest first. */
    method ListByItemId(i: nat) returns (r: Result<seq<Log>>)
      modifies db`tick
      ensures r.Ok? ==> r.value == LogsNewestFirst(db.View().logs, i)
      ensures r.Err? ==> r.error == Error.Database
      ensures db.Healthy() ==> r.Ok?
    {
      var _ :- db.Query();
      var logs := db.View().logs;
      var mine := [];
      for k := 0 to |logs|
        invariant mine == LogsNewestFirst(logs[..k], i)
      {
        assert logs[..k + 1][..k] == logs[..k];
        if logs[k].itemId == i {
          mine := [logs[k]] + mine;
        }
      }
      assert logs[..|logs|] == logs;
      return Ok(mine);
    }
  }

  /** `entries` lists the rows `ids` of the table, each once. */
  predicate Returned(entries: seq<(nat, Entry)>, rows: seq<Entry>, ids: set<nat>) {
    && (forall k :: 0 <= k < |entries| ==>
                      entries[k].0 in ids && entries[k].0 < |rows| && entries[k].1 == rows[entries[k].0])
    && (forall j, k :: 0 <= j < k < |entries| ==> entries[j].0 != entries[k].0)
    && (forall x :: x in ids ==> exists k :: 0 <= k < |entries| && entries[k].0 == x)
  }

  class OutboxRepository {
    const db: Database

    constructor (db: Database)
      ensures this.db == db
    {
      this.db := db;
    }

    method Create(itemId: nat, orderNumber: string, rfc: string, payload: Payload) returns (r: Result<()>)
      modifies db
      ensures db.staged.Some? == old(db.staged.Some?) && (db.staged.Some? ==> db.committed == old(db.committed))
      ensures Ran(WithEntry(old(db.View()), itemId, orderNumber, rfc, payload), old(db.View()), db.View(), r,
                  db.Healthy())
    {
      r := db.Execute(WithEntry(db.View(), itemId, orderNumber, rfc, payload));
    }

    method GetById(i: nat, id: nat) returns (r: Result<Entry>)
      modifies db`tick
      ensures var rows := db.View().outbox;
              var found := id < |rows| && rows[id].itemId == i;
              && (r.Ok? ==> found && r.value == rows[id])
              && (r.Err? && r.error != Error.Database ==> r.error == NotFound && !found)
              && (db.Healthy() ==> (if found then r.Ok? else r == Err(NotFound)))
    {
      var _ :- db.Query();
      var rows := db.View().outbox;
      return if id < |rows| && rows[id].itemId == i then Ok(rows[id]) else Err(NotFound);
    }

    method GetLatestByItemId(i: nat) returns (r: Result<nat>)
      modifies db`tick
      ensures r.Ok? ==> LatestEntry(db.View().outbox, i) == Some(r.value)
      ensures r.Err? && r.error != Error.Database ==> r.error == NotFound && LatestEntry(db.View().outbox, i).None?
      ensures db.Healthy() ==> (if LatestEntry(db.View().outbox, i).Some? then r.Ok? else r == Err(NotFound))
    {
      var _ :- db.Query();
      match LatestEntry(db.View().outbox, i)
      case None => return Err(NotFound);
      case Some(id) => return Ok(id);
    }

    method HasActiveByItemId(i: nat) returns (r: Result<bool>)
      modifies db`tick
      ensures r.Ok? ==> r.value == HasActive(db.View().outbox, i)
      ensures r.Err? ==> r.error == Error.Database
      ensures db.Healthy() ==> r.Ok?
    {
      var _ :- db.Query();
      return Ok(HasActive(db.View().outbox, i));
    }

    /** One guarded update, the first of its transaction. When it matches nothing a second read of
        what others have left by then tells why, and a row that is PENDING again is not found. */
    method Cancel(i: nat, id: nat, now: int, later: Tables) returns (r: Result<()>)
      requires db.staged == Some(db.committed)
      modifies db
      ensures db.staged.Some?
      ensures var t := old(db.committed);
              if Cancellable(t, i, id) then
                db.committed == t && Ran(WithCancelled(t, i, id, now), t, db.View(), r, db.Healthy())
              else
                && db.committed == db.View() && (db.committed == t || db.committed == later)
                && r.Err?
                && (r.error == Error.Database || (r.error == CancelReason(later, i, id) && db.committed == later))
                && (db.Healthy() ==> r.error != Error.Database)
    {
      var t := db.View();
      if id < |t.outbox| && t.outbox[id].itemId == i && t.outbox[id].status.Pending? {
        r := db.Execute(Ok(t.(outbox := t.outbox[id := CancelledRow(t.outbox[id], now)])));
        return;
      }
      var _ :- db.Query();
      db.OthersCommit(later);
      var existing :- GetById(i, id);
      if !existing.status.Pending? {
        return Err(SyncNotCancellable);
      }
      return Err(NotFound);
    }

    /** The subquery of the claim: scans by age and stops taking rows at the limit. */
    method SelectClaimable(rows: seq<Entry>, locked: set<nat>, limit: nat) returns (ids: seq<nat>)
      ensures ids == Pick(rows, |rows|, locked, limit)
    {
      ids := [];
      for k := 0 to |rows|
        invariant ids == Pick(rows, k, locked, limit)
      {
        assert Pick(rows, k + 1, locked, limit)
            == if |ids| < limit && Eligible(rows[k]) && k !in locked then ids + [k] else ids;
        if |ids| < limit && rows[k].status.Pending? && rows[k].attempts < rows[k].maxAttempts && k !in locked {
          ids := ids + [k];
        }
      }
    }

    /** The row loop over what the claim returned. */
    method ScanEntries(rows: seq<Entry>, ids: seq<nat>) returns (entries: seq<(nat, Entry)>)
      requires forall k :: 0 <= k < |ids| ==> ids[k] < |rows|
      requires forall j, k :: 0 <= j < k < |ids| ==> ids[j] < ids[k]
      ensures Returned(entries, rows, Members(ids))
    {
      entries := [];
      for k := 0 to |ids|
        invariant |entries| == k
        invariant forall j :: 0 <= j < k ==> entries[j] == (ids[j], rows[ids[j]])
      {
        entries := entries + [(ids[k], rows[ids[k]])];
      }
      forall x | x in Members(ids) ensures exists k :: 0 <= k < |entries| && entries[k].0 == x {
        var k :| 0 <= k < |ids| && ids[k] == x;
        assert entries[k].0 == x;
      }
    }

    /** The rows come back as they are after the update; when the answer is lost they have been
        claimed all the same, for nobody. */
    method ClaimPending(limit: nat, locked: set<nat>) returns (r: Result<seq<(nat, Entry)>>)
      modifies db
      ensures db.staged.Some? == old(db.staged.Some?) && (db.staged.Some? ==> db.committed == old(db.committed))
      ensures var t := old(db.View());
              var ids := ClaimIds(t.outbox, locked, limit);
              && (db.View() == t || db.View() == t.(outbox := ClaimRows(t.outbox, ids)))
              && (r.Ok? ==>
                    db.View() == t.(outbox := ClaimRows(t.outbox, ids)) && Returned(r.value, db.View().outbox, ids))
              && (r.Err? ==> r.error == Error.Database)
              && (db.Healthy() ==> r.Ok?)
    {
      var t := db.View();
      var ids := SelectClaimable(t.outbox, locked, limit);
      var rows := ClaimRows(t.outbox, Members(ids));
      var _ :- db.Execute(Ok(t.(outbox := rows)));
      var entries := ScanEntries(rows, ids);
      return Ok(entries);
    }

    method MarkCompleted(id: nat, now: int) returns (r: Result<()>)
      modifies db
      ensures db.staged.Some? == old(db.staged.Some?) && (db.staged.Some? ==> db.committed == old(db.committed))
      ensures Ran(Ok(WithCompleted(old(db.View()), id, now)), old(db.View()), db.View(), r, db.Healthy())
    {
      r := db.Execute(Ok(WithCompleted(db.View(), id, now)));
    }

    method MarkFailed(id: nat, message: string, retry: bool, now: int) returns (r: Result<()>)
      modifies db
      ensures db.staged.Some? == old(db.staged.Some?) && (db.staged.Some? ==> db.committed == old(db.committed))
      ensures Ran(Ok(WithFailed(old(db.View()), id, message, retry, now)), old(db.View()), db.View(), r, db.Healthy())
    {
      r := db.Execute(Ok(WithFailed(db.View(), id, message, retry, now)));
    }
  }
}
