/** The admin transactions report (src/app/api/admin/reports/transactions/route.ts): one page of all
    transactions, newest first, with the pagination block the dashboard renders. */
module Reports {
  import opened Common
  import opened Records
  import opened Sorting

  const DefaultPage: int := 1
  const DefaultLimit: int := 10

  /** `Math.ceil(n / d)` for a positive divisor. */
  function CeilDiv(n: nat, d: int): (r: nat)
    requires d > 0
    ensures n <= r * d && (r > 0 ==> (r - 1) * d < n)
    ensures r == 0 <==> n == 0
  {
    (n + d - 1) / d
  }

  /** `(page - 1) * limit`: the entries before the requested page. */
  function Skip(page: int, limit: int): nat
    requires page >= 1 && limit >= 1
  {
    MulLe(0, page - 1, limit);
    (page - 1) * limit
  }

  datatype Pagination = Pagination(currentPage: int, totalPages: nat, totalDocuments: nat, limit: int)
  datatype Report = Report(data: seq<Transaction>, pagination: Pagination)

  function NewestFirst(txs: seq<Transaction>): seq<Transaction> {
    SortDesc(txs, (t: Transaction) => t.createdAt)
  }

  /** GET: `page` and `limit` default to 1 and 10; the page holds the transactions sorted newest
      first with the first `(page - 1) * limit` dropped and at most `limit` kept. A page below 1
      asks the database for a negative skip, which it refuses. */
  function TransactionsReport(txs: seq<Transaction>, page: Option<int>, limit: Option<int>): (r: Result<Report>)
    requires limit.GetOr(DefaultLimit) >= 1
    ensures page.GetOr(DefaultPage) < 1 <==> r == Err(ServiceFailure)
    ensures r.Ok? ==>
              var p := page.GetOr(DefaultPage);
              var l := limit.GetOr(DefaultLimit);
              && r.value.pagination == Pagination(p, CeilDiv(|txs|, l), |txs|, l)
              && |r.value.data| == (if Skip(p, l) >= |txs| then 0 else if |txs| - Skip(p, l) < l then |txs| - Skip(p, l) else l)
              && SortedDesc(r.value.data, (t: Transaction) => t.createdAt)
              && forall k :: 0 <= k < |r.value.data| ==> Skip(p, l) + k < |txs| && r.value.data[k] == NewestFirst(txs)[Skip(p, l) + k]
  {
    var p := page.GetOr(DefaultPage);
    var l := limit.GetOr(DefaultLimit);
    if p < 1 then Err(ServiceFailure)
    else
      SortDescCorrect(txs, (t: Transaction) => t.createdAt);
      var data := Page(NewestFirst(txs), Skip(p, l), l);
      PageSorted(NewestFirst(txs), Skip(p, l), l, (t: Transaction) => t.createdAt);
      Ok(Report(data, Pagination(p, CeilDiv(|txs|, l), |txs|, l)))
  }

  /** Every transaction is on exactly one page: the `k`-th newest is entry `k % limit` of page
      `k / limit + 1`, and that page is within `totalPages`. */
  lemma EveryTransactionOnItsPage(txs: seq<Transaction>, l: int, k: nat)
    requires l >= 1 && k < |txs|
    ensures var r := TransactionsReport(txs, Some(k / l + 1), Some(l));
            && r.Ok? && k / l + 1 <= r.value.pagination.totalPages
            && k % l < |r.value.data| && r.value.data[k % l] == NewestFirst(txs)[k]
  {
    var p := k / l + 1;
    assert Skip(p, l) + k % l == k;
    var t := CeilDiv(|txs|, l);
    assert p <= t by {
      if t < p {
        MulLe(t, p - 1, l);
      }
    }
  }

  lemma MulLe(a: int, b: int, c: int)
    requires a <= b && c >= 0
    ensures a * c <= b * c
  {
  }

  /** The page count is the least number of full pages that hold every transaction. */
  lemma TotalPagesLeast(n: nat, l: int, t: nat)
    requires l >= 1 && n <= t * l
    ensures CeilDiv(n, l) <= t
  {
    var c := CeilDiv(n, l);
    if c > t {
      MulLe(t, c - 1, l);
    }
  }
}
