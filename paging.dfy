/**
  The pagination arithmetic both list endpoints share: skip = (page - 1) * limit,
  one page of at most `limit` results, totalPages = ceil(total / limit),
  hasNext = skip + returned < total, hasPrev = page > 1.
 */
module Paging {

  datatype Pagination = Pagination(currentPage: nat, totalPages: nat, total: nat, hasNext: bool, hasPrev: bool)

  function Skip(page: nat, limit: nat): nat
    requires page >= 1
  {
    (page - 1) * limit
  }

  /** `.skip(skip).limit(limit)` over the matching results. */
  function Window<T>(s: seq<T>, skip: nat, limit: nat): (w: seq<T>)
    ensures |w| == if skip >= |s| then 0 else if skip + limit <= |s| then limit else |s| - skip
    ensures forall i :: 0 <= i < |w| ==> w[i] == s[skip + i]
  {
    if skip >= |s| then [] else if skip + limit <= |s| then s[skip..skip + limit] else s[skip..]
  }

  /** `Math.ceil(a / b)` for naturals: the least multiple count covering `a`. */
  function CeilDiv(a: nat, b: nat): (q: nat)
    requires b > 0
    ensures q * b >= a
    ensures q == 0 || (q - 1) * b < a
  {
    var q := (a + b - 1) / b;
    assert a + b - 1 == q * b + (a + b - 1) % b;
    q
  }

  lemma MulMonotone(x: nat, y: nat, b: nat)
    requires x <= y
    ensures x * b <= y * b
  {
  }

  /** A page count covers `a` exactly when it is at least the ceiling. */
  lemma CeilDivLeast(a: nat, b: nat, q: nat)
    requires b > 0
    ensures q * b >= a <==> q >= CeilDiv(a, b)
  {
    var c := CeilDiv(a, b);
    if q >= c {
      MulMonotone(c, q, b);
    } else {
      MulMonotone(q, c - 1, b);
    }
  }

  /** The `pagination` object of a list response. */
  function Paginate(page: nat, limit: nat, total: nat, returned: nat): Pagination
    requires page >= 1 && limit >= 1
  {
    Pagination(page, CeilDiv(total, limit), total, Skip(page, limit) + returned < total, page > 1)
  }

  /** For the page actually returned, "has next" means the current page is not the last one,
      and "has previous" means it is not the first. */
  lemma {:induction false} PaginationConsistent<T>(matched: seq<T>, page: nat, limit: nat)
    requires page >= 1 && limit >= 1
    ensures var p := Paginate(page, limit, |matched|, |Window(matched, Skip(page, limit), limit)|);
      && (p.hasNext <==> page < p.totalPages)
      && (p.hasPrev <==> page != 1)
      && p.totalPages * limit >= |matched|
  {
    var total := |matched|;
    var skip := Skip(page, limit);
    assert skip + limit == page * limit;
    CeilDivLeast(total, limit, page);
    CeilDivLeast(total, limit, page - 1);
  }
}
