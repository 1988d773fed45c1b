/** The paged order listing: clamping, the 64-bit offset, page slices and the page count. */
module Paging {
  import opened Domain

  const MAX_INT64 := 0x7FFF_FFFF_FFFF_FFFF
  const DEFAULT_PAGE := 1
  const DEFAULT_LIMIT := 20
  const MAX_LIMIT := 100

  datatype PagedResult<T> = PagedResult(data: seq<T>, page: int, limit: int, total: int, totalPages: int)

  /** Two's complement wrap-around of 64-bit arithmetic. */
  function Wrap64(x: int): (y: int)
    ensures -MAX_INT64 - 1 <= y <= MAX_INT64
    ensures -MAX_INT64 - 1 <= x <= MAX_INT64 ==> y == x
  {
    (x + MAX_INT64 + 1) % (2 * (MAX_INT64 + 1)) - MAX_INT64 - 1
  }

  /** Division that truncates toward zero. */
  function Quotient(a: int, b: int): int
    requires b > 0
  {
    if a >= 0 then a / b else -(-a / b)
  }

  function Min(a: int, b: int): int {
    if a < b then a else b
  }

  /** The orders with the wanted status, newest first. */
  function Filtered(orders: seq<Order>, status: Option<OrderStatus>): (list: seq<Order>)
    ensures |list| <= |orders|
  {
    if orders == [] then []
    else
      var last := |orders| - 1;
      var rest := Filtered(orders[..last], status);
      if status.None? || orders[last].status == status.value then [orders[last]] + rest else rest
  }

  lemma Offset(page: int, limit: int)
    requires page >= 1 && limit >= 1
    ensures 0 <= (page - 1) * limit && page * limit == (page - 1) * limit + limit
  {}

  /** What page `page` of a list is. */
  function PageOf<T>(list: seq<T>, page: int, limit: int): seq<T>
    requires page >= 1 && limit >= 1
  {
    Offset(page, limit);
    list[Min((page - 1) * limit, |list|)..Min(page * limit, |list|)]
  }

  /** What the query returns: its offset is computed in 64 bits, and a negative one is refused. */
  function SelectPage<T>(list: seq<T>, page: int, limit: int): Result<seq<T>>
    requires page >= 1 && limit >= 1
  {
    var offset := Wrap64((page - 1) * limit);
    if offset < 0 then Err(Error.Database)
    else Ok(list[Min(offset, |list|)..Min(offset + limit, |list|)])
  }

  function PageCount(limit: int, total: int): int {
    if limit > 0 && total > 0 then Quotient(Wrap64(total + limit - 1), limit) else 0
  }

  function NewPagedResult<T>(data: seq<T>, page: int, limit: int, total: int): PagedResult<T> {
    PagedResult(data, page, limit, total, PageCount(limit, total))
  }

  // ---- the 64-bit offset and page count

  lemma Scale(a: int, b: int, c: int)
    requires a <= b && c >= 0
    ensures a * c <= b * c
  {
    assert (b - a) * c >= 0;
    assert b * c == a * c + (b - a) * c;
  }

  /** The query returns the page that was asked for exactly when the offset fits 64 bits, or
      wraps to a position that is past the end of the list anyway. */
  lemma SelectPageExactIff<T>(list: seq<T>, page: int, limit: int)
    requires 1 <= page <= MAX_INT64 && 1 <= limit <= MAX_LIMIT && |list| <= MAX_INT64
    ensures SelectPage(list, page, limit) == Ok(PageOf(list, page, limit))
            <==> (page - 1) * limit <= MAX_INT64 || Wrap64((page - 1) * limit) >= |list|
  {
    Offset(page, limit);
    var wrapped := Wrap64((page - 1) * limit);
    if (page - 1) * limit > MAX_INT64 {
      assert PageOf(list, page, limit) == [];
      if 0 <= wrapped < |list| {
        assert |SelectPage(list, page, limit).value| > 0;
      }
    }
  }

  lemma RoundUp(total: int, limit: int)
    requires limit >= 1 && total >= 1
    ensures var k := (total + limit - 1) / limit; k >= 1 && (k - 1) * limit < total <= k * limit
  {
    var k := (total + limit - 1) / limit;
    assert total + limit - 1 == k * limit + (total + limit - 1) % limit;
    assert (k - 1) * limit == k * limit - limit;
  }

  /** The page count is the rounded-up quotient exactly when the sum in it fits 64 bits. */
  lemma PageCountExactIff(limit: int, total: int)
    requires 1 <= limit <= MAX_LIMIT && 1 <= total <= MAX_INT64
    ensures var k := PageCount(limit, total);
            (total + limit - 1 <= MAX_INT64) <==> (k >= 1 && (k - 1) * limit < total <= k * limit)
  {
    var k := PageCount(limit, total);
    if total + limit - 1 <= MAX_INT64 {
      RoundUp(total, limit);
    } else {
      assert Wrap64(total + limit - 1) < 0;
      assert k <= 0;
    }
  }

  /** No page up to the page count wraps. */
  lemma CountedPagesAreExact<T>(list: seq<T>, page: int, limit: int)
    requires 1 <= limit <= MAX_LIMIT && |list| + limit - 1 <= MAX_INT64
    requires 1 <= page <= PageCount(limit, |list|)
    ensures (page - 1) * limit < |list|
    ensures SelectPage(list, page, limit) == Ok(PageOf(list, page, limit))
  {
    var k := PageCount(limit, |list|);
    assert |list| > 0;
    PageCountExactIff(limit, |list|);
    Scale(page - 1, k - 1, limit);
    Offset(page, limit);
  }

  // ---- the pages of a list

  /** The answers to the queries for pages 1 to `k`, one after another. */
  function Pages<T>(list: seq<T>, limit: int, k: nat): Result<seq<T>>
    requires limit >= 1
  {
    if k == 0 then Ok([])
    else
      match (Pages(list, limit, k - 1), SelectPage(list, k, limit))
      case (Ok(before), Ok(page)) => Ok(before + page)
      case _ => Err(Error.Database)
  }

  lemma {:induction false} PagesArePrefix<T>(list: seq<T>, limit: int, k: nat)
    requires 1 <= limit <= MAX_LIMIT && |list| + limit - 1 <= MAX_INT64 && k <= PageCount(limit, |list|)
    ensures k * limit >= 0 && Pages(list, limit, k) == Ok(list[..Min(k * limit, |list|)])
  {
    if k == 0 {
      assert list[..0] == [];
    } else {
      Offset(k, limit);
      PagesArePrefix(list, limit, k - 1);
      CountedPagesAreExact(list, k, limit);
      assert list[..(k - 1) * limit] + PageOf(list, k, limit) == list[..Min(k * limit, |list|)];
    }
  }

  /** The queries for pages 1 to the page count return exactly the list, in order. */
  lemma PagesPartition<T>(list: seq<T>, limit: int)
    requires 1 <= limit <= MAX_LIMIT && |list| + limit - 1 <= MAX_INT64
    ensures PageCount(limit, |list|) >= 0 && Pages(list, limit, PageCount(limit, |list|)) == Ok(list)
  {
    var k := PageCount(limit, |list|);
    if |list| > 0 {
      PageCountExactIff(limit, |list|);
    }
    PagesArePrefix(list, limit, k);
    assert list[..|list|] == list;
  }

  lemma PastTheEnd<T>(list: seq<T>, page: int, limit: int)
    requires 1 <= limit <= MAX_LIMIT && |list| + limit - 1 <= MAX_INT64
    requires page > PageCount(limit, |list|) && page >= 1 && (page - 1) * limit <= MAX_INT64
    ensures SelectPage(list, page, limit) == Ok([])
  {
    var k := PageCount(limit, |list|);
    Offset(page, limit);
    if |list| > 0 {
      PageCountExactIff(limit, |list|);
      Scale(k, page - 1, limit);
    }
    assert list[|list|..|list|] == [];
  }

  /** The query returns full pages before the last one, a last page that is not empty, and empty
      pages after it as long as their offset fits 64 bits. */
  lemma PageSizes<T>(list: seq<T>, page: int, limit: int)
    requires 1 <= limit <= MAX_LIMIT && 1 <= page && |list| + limit - 1 <= MAX_INT64
    ensures var k := PageCount(limit, |list|);
            var r := SelectPage(list, page, limit);
            && (page < k ==> r.Ok? && |r.value| == limit)
            && (page == k ==> r.Ok? && 1 <= |r.value| <= limit)
            && (page > k && (page - 1) * limit <= MAX_INT64 ==> r == Ok([]))
  {
    var k := PageCount(limit, |list|);
    Offset(page, limit);
    if page <= k {
      CountedPagesAreExact(list, page, limit);
      PageCountExactIff(limit, |list|);
      if page < k {
        Scale(page, k - 1, limit);
      }
    } else if (page - 1) * limit <= MAX_INT64 {
      PastTheEnd(list, page, limit);
    }
  }

  // ---- which pages are exact

  /** For pages up to a hundredth of the 64-bit range nothing wraps. */
  lemma SmallPagesAreExact<T>(list: seq<T>, page: int, limit: int)
    requires 1 <= limit <= MAX_LIMIT && |list| <= MAX_INT64
    requires 1 <= page <= MAX_INT64 / MAX_LIMIT
    ensures SelectPage(list, page, limit) == Ok(PageOf(list, page, limit))
  {
    Scale(page - 1, MAX_INT64 / MAX_LIMIT, limit);
    Scale(limit, MAX_LIMIT, MAX_INT64 / MAX_LIMIT);
    SelectPageExactIff(list, page, limit);
  }

  /** Page 2^58 + 1 of 64 wraps to offset 0: instead of an empty page it shows the first one. */
  lemma HugePageShowsTheFirst<T>(list: seq<T>)
    requires 1 <= |list| <= MAX_INT64
    ensures var page := 0x400_0000_0000_0001;
            && page <= MAX_INT64
            && SelectPage(list, page, 64) == Ok(PageOf(list, 1, 64))
            && SelectPage(list, page, 64) != Ok(PageOf(list, page, 64))
  {
    var page := 0x400_0000_0000_0001;
    assert Wrap64((page - 1) * 64) == 0;
    SelectPageExactIff(list, page, 64);
  }
}
