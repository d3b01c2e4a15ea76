/** Page/limit arithmetic of the listing handlers (GetSuggestedUsers, GetPosts),
    with Go's 64-bit `int` written out where it can overflow. */
module Paging {
  import opened Common

  const MinInt64: int := -0x8000_0000_0000_0000
  const MaxInt64: int := 0x7FFF_FFFF_FFFF_FFFF
  const Two64: int := 0x1_0000_0000_0000_0000

  /** Go's `int` on a 64-bit platform; strconv.Atoi saturates to this range. */
  type Int64 = x: int | MinInt64 <= x <= MaxInt64

  /** Two's-complement wrap of a mathematical integer into Go's `int`. */
  function Wrap64(x: int): (r: Int64)
    ensures MinInt64 <= x <= MaxInt64 ==> r == x
    ensures (x - r) % Two64 == 0
  {
    ((x - MinInt64) % Two64) + MinInt64
  }

  /** `if page < 1 { page = 1 }` */
  function ClampPage(page: int): (p: int)
    ensures p >= 1 && (page >= 1 ==> p == page) && (page < 1 ==> p == 1)
  {
    if page < 1 then 1 else page
  }

  /** `if limit < 1 || limit > 100 { limit = 10 }` */
  function ClampLimit(limit: int): (l: int)
    ensures 1 <= l <= 100 && (1 <= limit <= 100 ==> l == limit) && (limit < 1 || limit > 100 ==> l == 10)
  {
    if limit < 1 || limit > 100 then 10 else limit
  }

  /** `totalPages := (total + limit - 1) / limit` is the ceiling of total / limit. */
  function TotalPages(total: nat, limit: int): (pages: nat)
    requires limit >= 1
    ensures pages * limit >= total
    ensures total > 0 ==> (pages - 1) * limit < total
    ensures pages == 0 <==> total == 0
  {
    var n := total + limit - 1;
    var q := n / limit;
    assert n == q * limit + n % limit;
    assert q * limit == n - n % limit;
    assert (q - 1) * limit == q * limit - limit;
    q
  }

  function Min(a: int, b: int): int {
    if a < b then a else b
  }

  /** The [start, end) window of a page over `total` items: offset (page - 1) * limit,
      both ends cut down to `total`. */
  function Window(page: int, limit: int, total: nat): (w: (nat, nat))
    requires page >= 1 && limit >= 1
    ensures w.0 <= w.1 <= total && w.1 - w.0 <= limit
  {
    var offset := (page - 1) * limit;
    assert offset + limit == page * limit;
    (Min(offset, total), Min(offset + limit, total))
  }

  /** A page's window is non-empty exactly when the page is one of the
      TotalPages pages. */
  lemma WindowNonEmptyIff(page: int, limit: int, total: nat)
    requires page >= 1 && limit >= 1
    ensures Window(page, limit, total).0 < Window(page, limit, total).1
            <==> page <= TotalPages(total, limit)
  {
    var tp := TotalPages(total, limit);
    var offset := (page - 1) * limit;
    if page <= tp {
      MulMonotone(page - 1, tp - 1, limit);
    } else {
      MulMonotone(tp, page - 1, limit);
    }
  }

  /** Consecutive pages tile the list: each page starts where the previous one ends. */
  lemma WindowsAdjacent(page: int, limit: int, total: nat)
    requires page >= 1 && limit >= 1
    ensures Window(page, limit, total).1 == Window(page + 1, limit, total).0
  {
    assert (page + 1 - 1) * limit == (page - 1) * limit + limit;
  }

  /** Every item index falls in the window of the page `index / limit + 1`. */
  lemma IndexOnItsPage(index: nat, limit: int, total: nat)
    requires limit >= 1 && index < total
    ensures Window(index / limit + 1, limit, total).0 <= index < Window(index / limit + 1, limit, total).1
  {
    var q := index / limit;
    assert index == q * limit + index % limit;
    assert (q + 1 - 1) * limit == q * limit;
  }

  lemma MulMonotone(a: int, b: int, c: int)
    requires 0 <= a <= b && c >= 0
    ensures a * c <= b * c
  {
    assert b * c == a * c + (b - a) * c;
  }

  /** The window exactly as GetSuggestedUsers computes it in Go's `int`:
      None when the slice expression `uniqueIDs[start:end]` would panic. */
  function SuggestedWindowAsWritten(page: Int64, limit: Int64, total: nat): (r: Option<(nat, nat)>)
    ensures r.Some? ==> r.value.0 <= r.value.1 <= total
  {
    var p := if page < 1 then 1 else page;
    var l := if limit < 1 || limit > 100 then 10 else limit;
    var offset := Wrap64((p - 1) * l);
    var start := if offset > total then total else offset;
    var end0 := Wrap64(offset + l);
    var end := if end0 > total then total else end0;
    if 0 <= start <= end <= total then Some((start, end)) else None
  }

  /** A page number past 922337203685477581 makes `(page - 1) * limit` wrap to a
      negative offset, and the slice expression panics. */
  lemma SuggestedWindowOverflows()
    ensures SuggestedWindowAsWritten(922337203685477582, 10, 0) == None
    ensures SuggestedWindowAsWritten(MaxInt64, 10, 5) == None
  {
  }

  /** A wrapped offset can also land inside the list without a panic: the handler
      then serves items 2..4 for a page far past the end of a 10-item list. */
  lemma SuggestedWindowWrongPage()
    ensures SuggestedWindowAsWritten(6148914691236517207, 3, 10) == Some((2, 5))
    ensures Window(6148914691236517207, 3, 10) == (10, 10)
  {
    assert (6148914691236517207 - 1) * 3 == Two64 + 2;
  }

  /** Where nothing overflows, the Go arithmetic and the corrected window agree. */
  lemma SuggestedWindowAgrees(page: Int64, limit: Int64, total: nat)
    requires ClampPage(page) * ClampLimit(limit) <= MaxInt64
    ensures SuggestedWindowAsWritten(page, limit, total)
            == Some(Window(ClampPage(page), ClampLimit(limit), total))
  {
    var p, l := ClampPage(page), ClampLimit(limit);
    MulMonotone(p - 1, p, l);
    assert (p - 1) * l + l == p * l;
  }
}
