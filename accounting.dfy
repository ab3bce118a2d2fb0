/** The accounting ledger's own handlers: adding a transaction by hand, which continues the
    running balance by its amount, and listing the most recent transactions. */
module Accounting {
  import opened Wrappers
  import opened Calendar
  import opened Store
  import opened Money

  /** The request body of createTransaction. A date that is missing or does not parse is
      None. */
  datatype TransactionRequest = TransactionRequest(
    date: Option<Day>, description: string, kind: string, amount: Parsed, status: Option<string>)

  /** The insert throws: 500, nothing written. */
  datatype AccountingError = ServerError

  predicate Accepted(req: TransactionRequest) { req.date.Some? && req.amount.Num? }

  /** POST /api/admin/accounting/transactions: the row's balance is the last row's balance
      (0 on an empty ledger) plus the amount, whatever the row's type; the status defaults
      to "Paid". */
  function CreateTransactionSpec(ledger: seq<LedgerEntry>, req: TransactionRequest): (r: (Result<LedgerEntry, AccountingError>, seq<LedgerEntry>))
    ensures r.0.Err? <==> !Accepted(req)
    ensures r.0.Err? ==> r.1 == ledger
    ensures r.0.Ok? ==> r.1 == ledger + [r.0.value]
  {
    if !Accepted(req) then (Err(ServerError), ledger)
    else
      var e := LedgerEntry(req.date.value, req.description, req.kind, req.amount.cents,
                           AddToBalance(PreviousBalance(ledger), req.amount.cents), TextOr(req.status, "Paid"), None, None, None);
      (Ok(e), ledger + [e])
  }

  method CreateTransaction(db: Database, req: TransactionRequest) returns (r: Result<LedgerEntry, AccountingError>)
    modifies db`ledger
    ensures (r, db.ledger) == CreateTransactionSpec(old(db.ledger), req)
  {
    if req.date.None? || req.amount.NaN? {
      return Err(ServerError);
    }
    var prevBalance := PreviousBalance(db.ledger);
    var e := LedgerEntry(req.date.value, req.description, req.kind, req.amount.cents,
                         AddToBalance(prevBalance, req.amount.cents), TextOr(req.status, "Paid"), None, None, None);
    db.ledger := db.ledger + [e];
    r := Ok(e);
  }

  /** The stored row carries the request's date, description, type and parsed amount,
      the status given or "Paid", and the previous balance plus the amount. */
  lemma RecordedTransaction(ledger: seq<LedgerEntry>, req: TransactionRequest)
    requires Accepted(req)
    ensures var e := CreateTransactionSpec(ledger, req).0.value;
      && e.date == req.date.value && e.description == req.description && e.kind == req.kind
      && e.amount == req.amount.cents
      && e.balance == AddToBalance(PreviousBalance(ledger), req.amount.cents)
      && (Filled(req.status) ==> e.status == req.status.value)
      && (!Filled(req.status) ==> e.status == "Paid")
  {
  }

  /** The ledger after a series of createTransaction requests, refused ones included. */
  function PostAll(ledger: seq<LedgerEntry>, reqs: seq<TransactionRequest>): seq<LedgerEntry>
    decreases |reqs|
  {
    if reqs == [] then ledger else PostAll(CreateTransactionSpec(ledger, reqs[0]).1, reqs[1..])
  }

  /** The sum of the amounts of the accepted requests. */
  function AcceptedTotal(reqs: seq<TransactionRequest>): int
    decreases |reqs|
  {
    if reqs == [] then 0 else (if Accepted(reqs[0]) then reqs[0].amount.cents else 0) + AcceptedTotal(reqs[1..])
  }

  function AcceptedCount(reqs: seq<TransactionRequest>): nat
    decreases |reqs|
  {
    if reqs == [] then 0 else (if Accepted(reqs[0]) then 1 else 0) + AcceptedCount(reqs[1..])
  }

  /** The running balance after a series of transactions is the balance before them plus
      the sum of the accepted amounts; each accepted request appends exactly one row and
      no earlier row changes. */
  lemma {:induction false} BalanceAccumulates(ledger: seq<LedgerEntry>, reqs: seq<TransactionRequest>)
    requires PreviousBalance(ledger).Some?
    ensures PreviousBalance(PostAll(ledger, reqs)) == Some(PreviousBalance(ledger).value + AcceptedTotal(reqs))
    ensures |PostAll(ledger, reqs)| == |ledger| + AcceptedCount(reqs)
    ensures PostAll(ledger, reqs)[..|ledger|] == ledger
    decreases |reqs|
  {
    if reqs != [] {
      var next := CreateTransactionSpec(ledger, reqs[0]).1;
      BalanceAccumulates(next, reqs[1..]);
      assert next[..|ledger|] == ledger;
      assert PostAll(ledger, reqs)[..|next|] == next;
    }
  }

  // ---------------------------------------------------------------------------------
  // getTransactions: the 50 most recent, newest first
  // ---------------------------------------------------------------------------------

  const PageSize: nat := 50

  /** A day as one number that orders days as the calendar does. */
  function Stamp(d: Day): int {
    d.year * 416 + d.month * 32 + d.day
  }

  lemma StampOrder(a: Day, b: Day)
    ensures Before(a, b) <==> Stamp(a) < Stamp(b)
    ensures Stamp(a) == Stamp(b) ==> a == b
  {
  }

  /** Each row's date is not after the one before it. */
  predicate NewestFirst(s: seq<LedgerEntry>) {
    forall i, j :: 0 <= i < j < |s| ==> Stamp(s[j].date) <= Stamp(s[i].date)
  }

  /** Places `e` in front of the first row it is newer than. */
  function InsertByDate(e: LedgerEntry, s: seq<LedgerEntry>): (r: seq<LedgerEntry>)
    requires NewestFirst(s)
    ensures NewestFirst(r) && |r| == |s| + 1
    ensures r[0] == e || (|s| > 0 && r[0] == s[0])
    ensures multiset(r) == multiset(s) + multiset{e}
  {
    if s == [] || Stamp(s[0].date) < Stamp(e.date) then [e] + s
    else
      assert s == [s[0]] + s[1..];
      [s[0]] + InsertByDate(e, s[1..])
  }

  function ByDateDescending(s: seq<LedgerEntry>): (r: seq<LedgerEntry>)
    ensures NewestFirst(r) && multiset(r) == multiset(s)
  {
    if s == [] then []
    else
      assert s == [s[0]] + s[1..];
      InsertByDate(s[0], ByDateDescending(s[1..]))
  }

  /** GET /api/admin/accounting/transactions (`orderBy: date desc, take: 50`). */
  function Recent(ledger: seq<LedgerEntry>): seq<LedgerEntry> {
    var sorted := ByDateDescending(ledger);
    sorted[..if |sorted| < PageSize then |sorted| else PageSize]
  }

  /** The listing holds min(50, n) rows of the ledger, newest first, and no row left out
      is newer than a row listed. */
  lemma RecentIsNewest(ledger: seq<LedgerEntry>)
    ensures var page := Recent(ledger);
      && |page| == (if |ledger| < PageSize then |ledger| else PageSize)
      && multiset(page) <= multiset(ledger)
      && (forall i, j :: 0 <= i < j < |page| ==> !Before(page[i].date, page[j].date))
      && (forall e, x :: e in multiset(ledger) - multiset(page) && x in page ==> !Before(x.date, e.date))
  {
    var sorted := ByDateDescending(ledger);
    var k := if |sorted| < PageSize then |sorted| else PageSize;
    PrefixOrdered(sorted, k);
    PrefixIsNewest(sorted, k);
  }

  lemma PrefixOrdered(s: seq<LedgerEntry>, k: nat)
    requires NewestFirst(s) && k <= |s|
    ensures multiset(s[..k]) <= multiset(s)
    ensures forall i, j :: 0 <= i < j < k ==> !Before(s[..k][i].date, s[..k][j].date)
  {
    assert s == s[..k] + s[k..];
    forall i, j | 0 <= i < j < k
      ensures !Before(s[..k][i].date, s[..k][j].date)
    {
      StampOrder(s[i].date, s[j].date);
    }
  }

  lemma PrefixIsNewest(s: seq<LedgerEntry>, k: nat)
    requires NewestFirst(s) && k <= |s|
    ensures forall e, x :: e in multiset(s) - multiset(s[..k]) && x in s[..k] ==> !Before(x.date, e.date)
  {
    assert s == s[..k] + s[k..];
    assert multiset(s) - multiset(s[..k]) == multiset(s[k..]);
    forall e, x | e in multiset(s) - multiset(s[..k]) && x in s[..k]
      ensures !Before(x.date, e.date)
    {
      assert e in s[k..];
      SplitAtRank(s, k, e, x);
      StampOrder(x.date, e.date);
    }
  }

  lemma SplitAtRank(s: seq<LedgerEntry>, k: nat, e: LedgerEntry, x: LedgerEntry)
    requires NewestFirst(s) && k <= |s| && e in s[k..] && x in s[..k]
    ensures Stamp(e.date) <= Stamp(x.date)
  {
    var j :| 0 <= j < |s[k..]| && s[k..][j] == e;
    var i :| 0 <= i < k && s[..k][i] == x;
    assert s[k + j] == e && s[i] == x;
  }
}
