/** The rows on a page, and the range that its metadata reports. */
module PageRanges {
  import opened Values
  import opened Pages

  datatype PageMeta = PageMeta(total: int, perPage: nat, currentPage: nat, lastPage: int, from: nat, to: nat)

  /** The rows from `offset` on, at most `limit` of them. */
  function Window<T>(rows: seq<T>, offset: nat, limit: nat): seq<T> {
    if offset >= |rows| then []
    else if offset + limit <= |rows| then rows[offset..offset + limit]
    else rows[offset..]
  }

  /** The offset of a page; page 0 is taken for page 1. */
  function Offset(perPage: nat, currentPage: nat): nat {
    (if currentPage == 0 then 0 else currentPage - 1) * perPage
  }

  /** 32-bit numbers wrap around in a release build. */
  function Wrap(x: int): nat {
    x % U32_LIMIT
  }

  function FirstRow(perPage: nat, currentPage: nat): nat {
    Wrap(Wrap(Wrap(currentPage - 1) * perPage) + 1)
  }

  function NewPage<T>(rnd: real -> real, data: seq<T>, total: int, perPage: nat, currentPage: nat): PageMeta {
    var from := if data == [] then 0 else FirstRow(perPage, currentPage);
    PageMeta(total, perPage, currentPage, LastPage(rnd, total, perPage), from,
             from + if data == [] then 0 else |data| - 1)
  }

  predicate HasMore(m: PageMeta) {
    m.currentPage < m.lastPage
  }

  function Paginate<T>(rnd: real -> real, rows: seq<T>, perPage: nat, currentPage: nat): PageMeta {
    NewPage(rnd, Window(rows, Offset(perPage, currentPage), perPage), |rows|, perPage, currentPage)
  }

  lemma {:induction false} Product(a: nat, b: nat, p: nat)
    requires a <= b
    ensures a * p <= b * p
  {
  }

  /** Page `k` starts within the result, and only the last page reaches its end. */
  lemma {:induction false} PageStart(n: nat, p: nat, k: nat, last: int)
    requires p >= 1 && n >= 1 && 1 <= k <= last && (last == CeilDiv(n, p) || (last == U32_LIMIT - 1 && last < CeilDiv(n, p)))
    ensures (k - 1) * p < n
    ensures k < last ==> k * p < n
    ensures last == CeilDiv(n, p) ==> (k == last <==> k * p >= n)
  {
    var c := CeilDiv(n, p);
    CeilDivBounds(n, p);
    hide CeilDiv;
    Product(k - 1, c - 1, p);
    if k < c {
      Product(k, c - 1, p);
    }
  }

  lemma {:induction false} ModTimes(a: nat, p: nat, m: nat)
    requires m >= 1
    ensures (a % m * p) % m == (a * p) % m
  {
    var q := a / m;
    assert a == q * m + a % m;
    ModParts(q, m, a % m, p);
  }

  lemma {:induction false} ModParts(q: nat, m: nat, r: nat, p: nat)
    requires m >= 1
    ensures ((q * m + r) * p) % m == (r * p) % m
  {
    Expand(q, m, r, p);
    ModMultiple(q * p, r * p, m);
  }

  lemma {:induction false} Expand(q: nat, m: nat, r: nat, p: nat)
    ensures (q * m + r) * p == q * p * m + r * p
  {
    assert q * m * p == q * p * m;
  }

  lemma {:induction false} ModMultiple(k: nat, x: nat, m: nat)
    requires m >= 1
    ensures (k * m + x) % m == x % m
  {
    if k > 0 {
      assert k * m == (k - 1) * m + m;
      ModMultiple(k - 1, x, m);
      ModOnce((k - 1) * m + x, m);
    }
  }

  lemma {:induction false} ModOnce(x: nat, m: nat)
    requires m >= 1
    ensures (x + m) % m == x % m
  {
    var q, r := x / m, x % m;
    assert x + m == (q + 1) * m + r;
    RemainderUnique(x + m, m, q + 1, r);
  }

  lemma {:induction false} RemainderUnique(x: nat, m: nat, q: nat, r: nat)
    requires x == q * m + r && r < m
    ensures x % m == r
  {
    var q', r' := x / m, x % m;
    assert x == q' * m + r';
    assert (q - q') * m == r' - r;
    if q > q' {
      Product(1, q - q', m);
    } else if q < q' {
      Product(1, q' - q, m);
    }
  }

  lemma {:induction false} ModSum(x: nat, y: nat, m: nat)
    requires m >= 1
    ensures (x % m + y) % m == (x + y) % m
  {
    var q := x / m;
    assert x + y == q * m + (x % m + y);
    ModMultiple(q, x % m + y, m);
  }

  lemma {:induction false} WrapSum(x: nat, y: nat)
    ensures Wrap(Wrap(x) + y) == Wrap(x + y)
  {
    ModSum(x, y, U32_LIMIT);
  }

  /** The number of the first row, up to wrapping around once at the end. */
  lemma {:induction false} FirstRowIs(p: nat, k: nat)
    requires k >= 1
    ensures FirstRow(p, k) == Wrap((k - 1) * p + 1)
  {
    ModTimes(k - 1, p, U32_LIMIT);
    WrapSum((k - 1) * p, 1);
  }

  lemma {:induction false} LastIs(rnd: real -> real, n: nat, p: nat)
    requires Rounds(rnd) && 1 <= n < TWO_53 && 1 <= p < U32_LIMIT
    ensures var last := LastPage(rnd, n, p);
            last == CeilDiv(n, p) || (last == U32_LIMIT - 1 && last < CeilDiv(n, p))
    ensures LastPage(rnd, n, p) >= 1
  {
    LastPageExact(rnd, n, p);
    CeilDivBounds(n, p);
  }

  /** How many rows page `k` holds. */
  function RowsOn(n: nat, p: nat, k: nat): int {
    if k * p < n then p else n - (k - 1) * p
  }

  /**
   * A page within range holds the rows from offset (k - 1) * p on, and reports as many; there is more exactly when it
   * stops short of the last row. The number of its first row, counted from 1, is reported up to wrapping around.
   */
  lemma {:induction false} PageReportsItsRows<T>(rnd: real -> real, rows: seq<T>, p: nat, k: nat)
    requires Rounds(rnd) && 1 <= |rows| < TWO_53 && 1 <= p < U32_LIMIT && 1 <= k <= LastPage(rnd, |rows|, p)
    ensures var m, first := Paginate(rnd, rows, p, k), (k - 1) * p;
            && first < |rows| && RowsOn(|rows|, p, k) >= 1
            && Window(rows, Offset(p, k), p) == rows[first..first + RowsOn(|rows|, p, k)]
            && m.from == Wrap(first + 1)
            && m.to == m.from + RowsOn(|rows|, p, k) - 1
            && (m.lastPage == CeilDiv(|rows|, p) ==> (HasMore(m) <==> first + RowsOn(|rows|, p, k) < |rows|))
  {
    hide LastPage, CeilDiv, FirstRow, Wrap;
    LastIs(rnd, |rows|, p);
    PageStart(|rows|, p, k, LastPage(rnd, |rows|, p));
    FirstRowIs(p, k);
    assert k * p == (k - 1) * p + p;
  }

  lemma {:induction false} Fits(x: nat)
    ensures Wrap(x) == x <==> x < U32_LIMIT
  {
  }

  /** The range is the one of the rows on the page exactly when the number of the first of them fits 32 bits. */
  lemma {:induction false} RangeIsRightIff<T>(rnd: real -> real, rows: seq<T>, p: nat, k: nat)
    requires Rounds(rnd) && 1 <= |rows| < TWO_53 && 1 <= p < U32_LIMIT && 1 <= k <= LastPage(rnd, |rows|, p)
    ensures var m, first := Paginate(rnd, rows, p, k), (k - 1) * p;
            m.from == first + 1 && m.to == (if k * p < |rows| then k * p else |rows|) <==> first + 1 < U32_LIMIT
  {
    hide LastPage, Paginate, Window, Wrap;
    PageReportsItsRows(rnd, rows, p, k);
    Fits((k - 1) * p + 1);
    assert k * p == (k - 1) * p + p;
  }

  /**
   * The pages tile the result: the first starts at row 1, each next one where its predecessor ends, up to wrapping
   * around, and the last one holds the last row.
   */
  lemma {:induction false} PagesTile<T>(rnd: real -> real, rows: seq<T>, p: nat, k: nat)
    requires Rounds(rnd) && 1 <= |rows| < TWO_53 && 1 <= p < U32_LIMIT && 1 <= k <= LastPage(rnd, |rows|, p)
    ensures Paginate(rnd, rows, p, 1).from == 1
    ensures k < LastPage(rnd, |rows|, p) ==>
              && Paginate(rnd, rows, p, k + 1).from == Wrap(Paginate(rnd, rows, p, k).to + 1)
              && (k - 1) * p + RowsOn(|rows|, p, k) == k * p
    ensures k == LastPage(rnd, |rows|, p) == CeilDiv(|rows|, p) ==> (k - 1) * p + RowsOn(|rows|, p, k) == |rows|
  {
    hide LastPage, CeilDiv, Paginate, Window, Wrap;
    var last := LastPage(rnd, |rows|, p);
    LastIs(rnd, |rows|, p);
    assert (k - 1) * p + p == k * p;
    PageReportsItsRows(rnd, rows, p, 1);
    Fits(1);
    PageReportsItsRows(rnd, rows, p, k);
    PageStart(|rows|, p, k, last);
    if k < last {
      PageReportsItsRows(rnd, rows, p, k + 1);
      WrapSum((k - 1) * p + 1, p);
    }
  }

  lemma {:induction false} CeilOfNothing(p: nat)
    requires p >= 1
    ensures CeilDiv(0, p) == 0
  {
    CeilDivBounds(0, p);
  }

  /** An empty result is one page that reports no rows. */
  lemma {:induction false} EmptyPage<T>(rnd: real -> real, p: nat, k: nat)
    requires Rounds(rnd) && 1 <= p < U32_LIMIT
    ensures var none: seq<T> := [];
            var m := Paginate(rnd, none, p, k); m.lastPage == 1 && m.from == 0 && m.to == 0
  {
    hide LastPage, Offset, FirstRow;
    LastPageExact(rnd, 0, p);
    CeilOfNothing(p);
  }

  /**
   * Whatever page is asked for, its metadata names the total, the page size and the page, and the reported range
   * holds as many rows as the page: 0 to 0 for a page without rows.
   */
  lemma {:induction false} AnyPage<T>(rnd: real -> real, rows: seq<T>, p: nat, k: nat)
    ensures var m, data := Paginate(rnd, rows, p, k), Window(rows, Offset(p, k), p);
            && m.total == |rows| && m.perPage == p && m.currentPage == k && |data| <= p
            && (data == [] <==> p == 0 || Offset(p, k) >= |rows|)
            && (data == [] ==> m.from == 0 && m.to == 0)
            && (data != [] ==> m.to + 1 - m.from == |data|)
  {
    hide FirstRow, LastPage, Offset;
  }

  /** A page past the last one is empty, reports no rows and is followed by none. */
  lemma {:induction false} PastTheEnd<T>(rnd: real -> real, rows: seq<T>, p: nat, k: nat)
    requires Rounds(rnd) && |rows| < TWO_53 && 1 <= p < U32_LIMIT && k >= 2 && k > CeilDiv(|rows|, p)
    ensures var m := Paginate(rnd, rows, p, k);
            Window(rows, Offset(p, k), p) == [] && m.from == 0 && m.to == 0 && m.total == |rows| && !HasMore(m)
  {
    hide FirstRow, LastPage, CeilDiv, Rounds;
    CeilDivBounds(|rows|, p);
    Product(CeilDiv(|rows|, p), k - 1, p);
    LastPageExact(rnd, |rows|, p);
    AnyPage(rnd, rows, p, k);
  }

  // ----- Pages without a count -----

  datatype SimplePage<T> = SimplePage(data: seq<T>, hasMore: bool, prev: Option<nat>, next: Option<nat>)

  /** The extra row only tells that a next page exists; it is cut off. */
  method NewSimplePage<T>(rows: seq<T>, perPage: nat, currentPage: nat) returns (page: SimplePage<T>)
    ensures page.hasMore <==> |rows| > perPage
    ensures page.data == Window(rows, 0, perPage)
    ensures page.prev == (if currentPage > 1 then Some(currentPage - 1) else None)
    ensures page.next == (if |rows| > perPage then Some(currentPage + 1) else None)
  {
    var data := rows;
    var hasMore := |data| > perPage;
    if hasMore {
      data := data[..perPage];
    }
    page := SimplePage(data, hasMore, if currentPage > 1 then Some(currentPage - 1) else None,
                       if hasMore then Some(currentPage + 1) else None);
  }

  /** Fetching one row more than the page shows decides exactly whether rows follow the page. */
  method SimplePaginate<T>(rows: seq<T>, perPage: nat, currentPage: nat) returns (page: SimplePage<T>)
    ensures page.data == Window(rows, Offset(perPage, currentPage), perPage)
    ensures page.hasMore <==> Offset(perPage, currentPage) + perPage < |rows|
    ensures page.next == if page.hasMore then Some(currentPage + 1) else None
  {
    var offset := Offset(perPage, currentPage);
    page := NewSimplePage(Window(rows, offset, perPage + 1), perPage, currentPage);
  }
}
