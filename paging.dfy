/** Pagination of a user's order listing: how the `page` and `limit` query values are
    normalised, where a page starts, and how many pages there are. */
module Paging {

  /** A query-string value as the handler sees it: absent, not a number, or an integer. */
  datatype QueryParam = Missing | NonNumeric | Numeric(n: int)

  const DefaultPage := 1
  const DefaultLimit := 10

  /** The value a query parameter ends up with: a positive number as given, the default otherwise. */
  function Effective(raw: QueryParam, default: int): int {
    if raw.Numeric? && raw.n >= 1 then raw.n else default
  }

  /** Absent values take their defaults, values that are not numbers fall back to the
      defaults, and so do numbers that are zero or negative. */
  method NormalizePaging(rawPage: QueryParam, rawLimit: QueryParam) returns (page: int, limit: int)
    ensures page >= 1 && limit >= 1
    ensures rawPage.Numeric? && rawPage.n >= 1 ==> page == rawPage.n
    ensures !(rawPage.Numeric? && rawPage.n >= 1) ==> page == DefaultPage
    ensures rawLimit.Numeric? && rawLimit.n >= 1 ==> limit == rawLimit.n
    ensures !(rawLimit.Numeric? && rawLimit.n >= 1) ==> limit == DefaultLimit
    ensures page == Effective(rawPage, DefaultPage) && limit == Effective(rawLimit, DefaultLimit)
  {
    // an absent value has already taken its default, which is a number
    page := if rawPage.Numeric? then rawPage.n else DefaultPage;
    limit := if rawLimit.Numeric? then rawLimit.n else DefaultLimit;
    if page <= 0 {
      page := DefaultPage;
    }
    if limit <= 0 {
      limit := DefaultLimit;
    }
  }

  /** Number of entries skipped before page `page`. */
  function Skip(page: int, limit: int): nat
    requires page >= 1 && limit >= 1
  {
    (page - 1) * limit
  }

  /** The number of pages of `limit` entries needed for `total` entries: the least `pages`
      with `pages * limit >= total`. */
  function TotalPages(total: nat, limit: int): (pages: nat)
    requires limit >= 1
    ensures pages * limit >= total
    ensures pages == 0 || (pages - 1) * limit < total
  {
    var q := (total + limit - 1) / limit;
    var m := (total + limit - 1) % limit;
    assert q * limit + m == total + limit - 1 && 0 <= m < limit;
    assert (q - 1) * limit == q * limit - limit;
    q
  }

  /** The entries of page `page`: at most `limit` consecutive entries starting after the
      skipped ones, and fewer only when the list runs out. */
  function PageSlice<T>(items: seq<T>, page: int, limit: int): (r: seq<T>)
    requires page >= 1 && limit >= 1
    ensures |r| <= limit
    ensures |r| < limit ==> Skip(page, limit) + |r| >= |items|
    ensures forall j :: 0 <= j < |r| ==>
      Skip(page, limit) + j < |items| && r[j] == items[Skip(page, limit) + j]
  {
    var from := Skip(page, limit);
    if from >= |items| then []
    else if from + limit >= |items| then items[from..]
    else items[from..from + limit]
  }

  /** Every entry of the listing lies on exactly one page, and that page is within
      the page count returned to the client. */
  lemma {:induction false} PageOfIndex(total: nat, limit: int, i: nat)
    requires limit >= 1 && i < total
    ensures var page := i / limit + 1;
      && 1 <= page <= TotalPages(total, limit)
      && Skip(page, limit) <= i < Skip(page, limit) + limit
    ensures forall page :: page >= 1 && Skip(page, limit) <= i < Skip(page, limit) + limit ==>
      page == i / limit + 1
  {
    var q := i / limit;
    QuotientBounds(i, limit, q);
    var pages := TotalPages(total, limit);
    if pages < q + 1 {
      MonotoneProduct(pages, q, limit);
      assert false;
    }
    forall page | page >= 1 && Skip(page, limit) <= i < Skip(page, limit) + limit
      ensures page == q + 1
    {
      QuotientUnique(i, limit, page - 1);
    }
  }

  lemma QuotientBounds(i: nat, limit: int, q: int)
    requires limit >= 1 && q == i / limit
    ensures q >= 0 && q * limit <= i < q * limit + limit
  {
    assert q * limit + i % limit == i;
  }

  lemma QuotientUnique(i: nat, limit: int, k: int)
    requires limit >= 1 && k >= 0 && k * limit <= i < k * limit + limit
    ensures k == i / limit
  {
    var q := i / limit;
    QuotientBounds(i, limit, q);
    if k < q {
      MonotoneProduct(k + 1, q, limit);
      assert false;
    } else if k > q {
      MonotoneProduct(q + 1, k, limit);
      assert false;
    }
  }

  lemma MonotoneProduct(a: int, b: int, c: int)
    requires a <= b && c >= 0
    ensures a * c <= b * c
  {
    assert b * c - a * c == (b - a) * c;
  }
}
