/** The paging arithmetic of the order listing: `skip = (page - 1) * limit`, `take = limit`
    over the rows in the order the store lists them, and `lastPage = ceil(total / limit)`. */
module Pagination {

  function Min(a: int, b: int): (r: int) { if a <= b then a else b }

  /** The number of the last non-empty page, `Math.ceil(total / limit)`; 0 when there are no rows. */
  function LastPage(total: nat, limit: nat): (r: nat)
    requires limit >= 1
    ensures total <= r * limit
    ensures r > 0 ==> (r - 1) * limit < total
    ensures r == 0 <==> total == 0
  {
    var q := (total + limit - 1) / limit;
    var m := (total + limit - 1) % limit;
    assert total + limit - 1 == q * limit + m && 0 <= m < limit;
    assert q * limit == total + (limit - 1 - m);
    assert (q - 1) * limit == q * limit - limit;
    q
  }

  /** The page the store hands back for `skip`/`take`: at most `limit` rows, starting
      `(page - 1) * limit` rows in, fewer (or none) when the rows run out. */
  function Page<T>(rows: seq<T>, page: nat, limit: nat): (r: seq<T>)
    requires page >= 1 && limit >= 1
    ensures |r| <= limit
    ensures |r| == if (page - 1) * limit >= |rows| then 0 else Min(limit, |rows| - (page - 1) * limit)
    ensures forall k :: 0 <= k < |r| ==> (page - 1) * limit + k < |rows| && r[k] == rows[(page - 1) * limit + k]
  {
    var skip := (page - 1) * limit;
    var start := Min(skip, |rows|);
    var end := Min(start + limit, |rows|);
    rows[start..end]
  }

  /** A page holds only rows of the listing. */
  lemma PageWithin<T>(rows: seq<T>, page: nat, limit: nat)
    requires page >= 1 && limit >= 1
    ensures forall k :: 0 <= k < |Page(rows, page, limit)| ==> Page(rows, page, limit)[k] in rows
  {
  }

  /** The last page holds the remainder: between 1 and `limit` rows, exactly the rows
      that the earlier full pages leave over. */
  lemma LastPageHoldsRemainder<T>(rows: seq<T>, limit: nat)
    requires limit >= 1 && |rows| > 0
    ensures var last := LastPage(|rows|, limit);
            last >= 1 &&
            1 <= |Page(rows, last, limit)| <= limit &&
            |Page(rows, last, limit)| == |rows| - (last - 1) * limit
  {
    var last := LastPage(|rows|, limit);
    assert (last - 1) * limit + limit == last * limit;
  }

  /** Pages after the last one are empty. */
  lemma PastLastPageEmpty<T>(rows: seq<T>, page: nat, limit: nat)
    requires limit >= 1 && page > LastPage(|rows|, limit)
    ensures Page(rows, page, limit) == []
  {
    var last := LastPage(|rows|, limit);
    MulMonotone(last, page - 1, limit);
  }

  /** Every row is on exactly one page: row `i` is at position `i % limit` of page
      `i / limit + 1`, a page no later than the last one. */
  lemma RowOnItsPage<T>(rows: seq<T>, limit: nat, i: nat)
    requires limit >= 1 && i < |rows|
    ensures var p := i / limit + 1;
            p <= LastPage(|rows|, limit) &&
            i % limit < |Page(rows, p, limit)| &&
            Page(rows, p, limit)[i % limit] == rows[i]
  {
    var q, m := i / limit, i % limit;
    var last := LastPage(|rows|, limit);
    assert i == q * limit + m;
    if q + 1 > last {
      MulMonotone(last, q, limit);
      assert false;
    }
  }

  /** A row at position `k` of page `p` is row `(p - 1) * limit + k`, so it has no other page. */
  lemma PageRowIndex<T>(rows: seq<T>, page: nat, limit: nat, k: nat)
    requires page >= 1 && limit >= 1 && k < |Page(rows, page, limit)|
    ensures var i := (page - 1) * limit + k;
            i < |rows| && i / limit + 1 == page && i % limit == k
  {
    var i := (page - 1) * limit + k;
    assert k < limit;
    DivModUnique(i, limit, page - 1, k);
  }

  /** Multiplying by a natural number keeps the order. */
  lemma {:induction false} MulMonotone(a: nat, b: nat, c: nat)
    requires a <= b
    ensures a * c <= b * c
  {
    if a < b {
      MulMonotone(a, b - 1, c);
      assert b * c == (b - 1) * c + c;
    }
  }

  /** Quotient and remainder are determined by the division identity. */
  lemma DivModUnique(i: nat, limit: nat, q: nat, m: nat)
    requires limit >= 1 && m < limit && i == q * limit + m
    ensures i / limit == q && i % limit == m
  {
    var q', m' := i / limit, i % limit;
    assert i == q' * limit + m';
    if q' > q {
      MulMonotone(q + 1, q', limit);
      assert false;
    } else if q' < q {
      MulMonotone(q' + 1, q, limit);
      assert false;
    }
  }

  /** The worked example: 15 matching rows, 10 per page, page 2. */
  lemma ListingExample<T>(rows: seq<T>)
    requires |rows| == 15
    ensures LastPage(|rows|, 10) == 2
    ensures |Page(rows, 2, 10)| == 5 && Page(rows, 2, 10) == rows[10..]
  {
  }
}
