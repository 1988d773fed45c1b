/** What the row loops of the listings return: exactly the rows asked for, each once, logs and
    orders newest first, an order's items by delivery date. */
module Listings {
  import opened Domain
  import opened Requests
  import opened Paging

  predicate Falling(at: seq<nat>, n: nat) {
    && (forall k :: 0 <= k < |at| ==> at[k] < n)
    && (forall j, k :: 0 <= j < k < |at| ==> at[k] < at[j])
  }

  ghost predicate Holds<T>(list: seq<T>, rows: seq<T>, at: seq<nat>)
    requires forall k :: 0 <= k < |at| ==> at[k] < |rows|
  {
    |list| == |at| && forall k :: 0 <= k < |at| ==> list[k] == rows[at[k]]
  }

  lemma Push<T>(list: seq<T>, rows: seq<T>, at: seq<nat>, row: T)
    requires Falling(at, |rows|) && Holds(list, rows, at)
    ensures Falling(at, |rows| + 1) && Holds(list, rows + [row], at)
    ensures Falling([|rows|] + at, |rows| + 1) && Holds([row] + list, rows + [row], [|rows|] + at)
  {}

  lemma InPushed(at: seq<nat>, n: nat, x: nat)
    ensures x in [n] + at <==> x == n || x in at
  {}

  /** An item's logs, by falling position in the table. */
  lemma {:induction false} LogPositions(logs: seq<Log>, i: nat) returns (at: seq<nat>)
    ensures Falling(at, |logs|) && Holds(LogsNewestFirst(logs, i), logs, at)
    ensures forall l: nat :: l < |logs| ==> (l in at <==> logs[l].itemId == i)
  {
    if logs == [] {
      at := [];
    } else {
      var last := |logs| - 1;
      var rest := LogPositions(logs[..last], i);
      Push(LogsNewestFirst(logs[..last], i), logs[..last], rest, logs[last]);
      assert logs[..last] + [logs[last]] == logs;
      at := if logs[last].itemId == i then [last] + rest else rest;
      forall l: nat | l < |logs| ensures l in at <==> logs[l].itemId == i {
        InPushed(rest, last, l);
        if l < last {
          assert logs[..last][l] == logs[l];
        }
      }
    }
  }

  /** The orders with the wanted status, by falling position in the table. */
  lemma {:induction false} OrderPositions(orders: seq<Order>, status: Option<OrderStatus>) returns (at: seq<nat>)
    ensures Falling(at, |orders|) && Holds(Filtered(orders, status), orders, at)
    ensures forall o: nat :: o < |orders| ==> (o in at <==> status in {None, Some(orders[o].status)})
  {
    if orders == [] {
      at := [];
    } else {
      var last := |orders| - 1;
      var rest := OrderPositions(orders[..last], status);
      Push(Filtered(orders[..last], status), orders[..last], rest, orders[last]);
      assert orders[..last] + [orders[last]] == orders;
      at := if status in {None, Some(orders[last].status)} then [last] + rest else rest;
      forall o: nat | o < |orders| ensures o in at <==> status in {None, Some(orders[o].status)} {
        InPushed(rest, last, o);
        if o < last {
          assert orders[..last][o] == orders[o];
        }
      }
    }
  }

  predicate Rising(at: seq<nat>, n: nat) {
    && (forall k :: 0 <= k < |at| ==> at[k] < n)
    && (forall j, k :: 0 <= j < k < |at| ==> at[j] < at[k])
  }

  lemma Append<T>(list: seq<T>, rows: seq<T>, at: seq<nat>, row: T)
    requires Rising(at, |rows|) && Holds(list, rows, at)
    ensures Rising(at, |rows| + 1) && Holds(list, rows + [row], at)
    ensures Rising(at + [|rows|], |rows| + 1) && Holds(list + [row], rows + [row], at + [|rows|])
  {}

  lemma InAppended(at: seq<nat>, n: nat, x: nat)
    ensures x in at + [n] <==> x == n || x in at
  {}

  /** An order's items, each once, by rising position in the table. */
  lemma {:induction false} ItemPositions(items: seq<Item>, o: nat) returns (at: seq<nat>)
    ensures Rising(at, |items|) && Holds(ItemsOf(items, o), items, at)
    ensures forall i: nat :: i < |items| ==> (i in at <==> items[i].orderId == o)
  {
    if items == [] {
      at := [];
    } else {
      var last := |items| - 1;
      var rest := ItemPositions(items[..last], o);
      Append(ItemsOf(items[..last], o), items[..last], rest, items[last]);
      assert items[..last] + [items[last]] == items;
      at := if items[last].orderId == o then rest + [last] else rest;
      forall i: nat | i < |items| ensures i in at <==> items[i].orderId == o {
        InAppended(rest, last, i);
        if i < last {
          assert items[..last][i] == items[i];
        }
      }
    }
  }

  // ---- items by delivery date

  predicate Sorted(items: seq<Item>) {
    forall j, k :: 0 <= j < k < |items| ==> items[j].deliveryDate <= items[k].deliveryDate
  }

  /** How many of `items` come before a new one: up to the last that is due no later. */
  function Place(item: Item, items: seq<Item>): (p: nat)
    ensures p <= |items| && (p > 0 ==> items[p - 1].deliveryDate <= item.deliveryDate)
    ensures forall k :: p <= k < |items| ==> item.deliveryDate < items[k].deliveryDate
  {
    if items == [] || items[|items| - 1].deliveryDate <= item.deliveryDate then |items|
    else Place(item, items[..|items| - 1])
  }

  function Placed(item: Item, items: seq<Item>): seq<Item> {
    items[..Place(item, items)] + [item] + items[Place(item, items)..]
  }

  lemma PlacedMembers(item: Item, items: seq<Item>)
    ensures multiset(Placed(item, items)) == multiset(items) + multiset{item}
  {
    var p := Place(item, items);
    assert items == items[..p] + items[p..];
  }

  lemma PlacedAt(item: Item, items: seq<Item>, k: nat)
    requires k <= |items|
    ensures |Placed(item, items)| == |items| + 1
    ensures var p := Place(item, items);
            Placed(item, items)[k] == if k < p then items[k] else if k == p then item else items[k - 1]
  {}

  lemma PlacedSorted(item: Item, items: seq<Item>)
    requires Sorted(items)
    ensures Sorted(Placed(item, items))
  {
    forall j, k | 0 <= j < k < |Placed(item, items)|
      ensures Placed(item, items)[j].deliveryDate <= Placed(item, items)[k].deliveryDate
    {
      PlacedAt(item, items, j);
      PlacedAt(item, items, k);
    }
  }

  /** An order's items as the query lists them. */
  function ByDate(items: seq<Item>): seq<Item> {
    if items == [] then [] else Placed(items[|items| - 1], ByDate(items[..|items| - 1]))
  }

  /** The listing is in order of delivery and leaves nothing out. */
  lemma {:induction false} ByDateIsSorted(items: seq<Item>)
    ensures Sorted(ByDate(items)) && multiset(ByDate(items)) == multiset(items)
  {
    if items == [] {
    } else {
      var last := |items| - 1;
      ByDateIsSorted(items[..last]);
      PlacedSorted(items[last], ByDate(items[..last]));
      PlacedMembers(items[last], ByDate(items[..last]));
      assert items == items[..last] + [items[last]];
    }
  }

  lemma SameMembers(xs: seq<Item>, ys: seq<Item>)
    requires multiset(xs) == multiset(ys)
    ensures |xs| == |ys| && forall k :: 0 <= k < |xs| ==> xs[k] in ys
  {
    assert |multiset(xs)| == |multiset(ys)|;
    forall k | 0 <= k < |xs| ensures xs[k] in ys {
      assert xs[k] in multiset(ys);
    }
  }

  lemma SameTerminal(xs: seq<Item>, ys: seq<Item>)
    requires multiset(xs) == multiset(ys) && AllTerminal(xs)
    ensures AllTerminal(ys)
  {
    SameMembers(xs, ys);
    SameMembers(ys, xs);
  }

  /** The status rules do not depend on the order of the items. */
  lemma RulesIgnoreOrder(s: OrderStatus, next: OrderStatus, items: seq<Item>)
    ensures CanTransitionTo(s, next, ByDate(items)) == CanTransitionTo(s, next, items)
  {
    var all := ByDate(items);
    ByDateIsSorted(items);
    assert |all| == |items| by {
      SameMembers(items, all);
    }
    assert AllTerminal(items) ==> AllTerminal(all) by {
      if AllTerminal(items) {
        SameTerminal(items, all);
      }
    }
    assert AllTerminal(all) ==> AllTerminal(items) by {
      if AllTerminal(all) {
        SameTerminal(all, items);
      }
    }
  }
}
