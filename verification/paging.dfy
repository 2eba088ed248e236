/**
 * The pagination arithmetic of the list handlers
 * (orderController.js:15-29, adminController.js:139-167, 190-208 and
 * discountController.js:52-62).
 */
module Paging {

  /** `(page - 1) * limit`: how many entries the requested page skips. */
  function Skip(page: int, limit: int): (s: int)
    requires limit >= 1
    ensures page >= 1 ==> s >= 0 && s + limit == page * limit
  {
    (page - 1) * limit
  }

  /** `Math.ceil(total / limit)`: the fewest pages of `limit` entries that hold `total`. */
  function TotalPages(total: nat, limit: int): (n: nat)
    requires limit >= 1
    ensures n * limit >= total
    ensures n > 0 ==> (n - 1) * limit < total
  {
    (total + limit - 1) / limit
  }

  /** The entries one page shows: `skip(skip).limit(limit)` over the sorted list. */
  function Page<T>(all: seq<T>, page: int, limit: int): (r: seq<T>)
    requires limit >= 1 && page >= 1
    ensures |r| <= limit
    ensures Skip(page, limit) + |r| <= |all| || |r| == 0
    ensures forall i :: 0 <= i < |r| ==> r[i] == all[Skip(page, limit) + i]
    ensures Skip(page, limit) < |all| ==> |r| == limit || Skip(page, limit) + |r| == |all|
    ensures page <= TotalPages(|all|, limit) ==> |r| > 0
  {
    var s := Skip(page, limit);
    SkipBelowTotal(page, limit, |all|);
    if s >= |all| then [] else all[s..if s + limit < |all| then s + limit else |all|]
  }

  /** A page within the page count starts inside the list. */
  lemma SkipBelowTotal(page: int, limit: int, total: nat)
    requires limit >= 1 && page >= 1
    ensures page <= TotalPages(total, limit) ==> Skip(page, limit) < total
  {
    var n := TotalPages(total, limit);
    if page <= n {
      assert (n - page) * limit >= 0;
    }
  }

  /** Entry `i` of the list is shown on page `i / limit + 1`, at position `i % limit`. */
  lemma EntryOnItsPage<T>(all: seq<T>, limit: int, i: nat)
    requires limit >= 1 && i < |all|
    ensures var p := i / limit + 1;
      p <= TotalPages(|all|, limit) && i % limit < |Page(all, p, limit)| && Page(all, p, limit)[i % limit] == all[i]
  {
    var q, r := i / limit, i % limit;
    var p := q + 1;
    var s := q * limit;
    var n := TotalPages(|all|, limit);
    assert i == s + r && 0 <= r < limit;
    assert Skip(p, limit) == s;
    assert (n - q) * limit == n * limit - s;
    PositiveFactor(n - q, limit);
  }

  /** A positive product with a positive factor has a positive cofactor. */
  lemma PositiveFactor(k: int, b: int)
    requires b >= 1 && k * b > 0
    ensures k >= 1
  {
  }
}
