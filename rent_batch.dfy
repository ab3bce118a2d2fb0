/** The monthly rent runs: the scheduled job (`generateMonthlyInvoices`) and the admin's
    manual batch (`runBatchInvoicing`). Both open a RentRun, bill every selected lease at
    most once per month, write one RentRunLog per lease, and close the run with its
    counters. A lease whose writes throw is logged as an Error and counted as skipped; the
    run goes on. */
module RentBatch {
  import opened Wrappers
  import opened Calendar
  import opened Keys
  import opened Store
  import Text

  /** Which of the two runs. They differ in the tenants they select, the invoice-number
      prefix, the due day and who a resident's lease is billed to. */
  datatype Schedule = Scheduled | Manual

  function Prefix(s: Schedule): string {
    match s
    case Scheduled => "INV-AUTO-"
    case Manual => "INV-BATCH-"
  }

  function DueDay(s: Schedule): (day: int)
    ensures 1 <= day <= 28
  {
    match s
    case Scheduled => 5
    case Manual => 10
  }

  /** The tenant types each run's query admits: the scheduled run excludes residents,
      the manual one lists the three known types. */
  predicate Admits(s: Schedule, kind: TenantType) {
    match s
    case Scheduled => kind != Resident
    case Manual => kind == Individual || kind == Company || kind == Resident
  }

  /** What the query returned, with its includes: the leases and the units and tenants
      they point at. The run never writes these tables. */
  datatype Rows = Rows(leases: map<Id, Lease>, units: map<Id, Unit>, users: map<Id, User>)

  function RowsOf(d: Db): Rows { Rows(d.leases, d.units, d.users) }

  /** A lease the query selects: Active, started, not yet ended, held by a tenant of an
      admitted type. Both runs compare the stored dates, which are midnights, with the
      clock of a run that starts after midnight: a lease that starts today is selected and
      one that ends today is not. */
  predicate Runnable(s: Schedule, rows: Rows, l: Lease, today: Day) {
    && l.status == Active
    && l.startDate.Some? && AtOrBefore(l.startDate.value, today)
    && l.endDate.Some? && Before(today, l.endDate.value)
    && l.tenantId in rows.users && Admits(s, rows.users[l.tenantId].kind)
  }

  function Candidates(s: Schedule, d: Db, today: Day): set<Id> {
    set id | id in d.leases && Runnable(s, RowsOf(d), d.leases[id], today)
  }

  /** Who the invoice is addressed to: the lease's tenant, except that the manual run
      bills a resident's parent and finds no one to bill for a resident without one. */
  function BillTo(s: Schedule, tenant: User, tenantId: Id): Option<Id> {
    if s == Manual && tenant.kind == Resident then
      (if Given(tenant.parentId) then tenant.parentId else None)
    else Some(tenantId)
  }

  /** A rent invoice of the lease for the month (`findFirst` with `rent: { gt: 0 }`). */
  predicate BilledRent(inv: Invoice, leaseId: Id, month: YearMonth) {
    inv.leaseId == Some(leaseId) && inv.month == Some(month) && inv.rent > 0
  }

  predicate HasBilledRent(invoices: map<Id, Invoice>, leaseId: Id, month: YearMonth) {
    exists k :: k in invoices && BilledRent(invoices[k], leaseId, month)
  }

  /** The run's progress: the invoice and log tables as they stand, the three counters,
      and the ids of the invoices created so far, in creation order. */
  datatype Batch = Batch(
    invoices: map<Id, Invoice>, logs: seq<RunLog>,
    created: nat, skipped: nat, total: int, made: seq<Id>)

  function Start(d: Db): Batch { Batch(d.invoices, d.runLogs, 0, 0, 0, []) }

  function DueDate(s: Schedule, today: Day): Day {
    Date(today.year, today.month, DueDay(s))
  }

  /** The invoice a run creates: the whole monthly rent, nothing paid, status "sent". Its
      category is the column's default, "RENT". */
  function AutoInvoice(s: Schedule, rows: Rows, id: Id, payer: Id, invoiceNo: string, today: Day): Invoice
    requires id in rows.leases && rows.leases[id].unitId in rows.units
  {
    var l := rows.leases[id];
    var rent := l.monthlyRent;
    Invoice(invoiceNo, payer, l.unitId, Some(id), rows.units[l.unitId].rentalMode, Some(MonthOf(today)),
            rent, 0, rent, 0, rent, "sent", "RENT", None, DueDate(s, today), None, None)
  }

  function Logged(b: Batch, runId: Id, id: Id, status: RunLogStatus): Batch {
    b.(logs := b.logs + [RunLog(runId, id, status)])
  }

  /** One lease. It is skipped when its rent for the month is already billed, when its
      rent is not positive, or (manual run) when a resident has no parent. Reading a
      missing tenant or unit, or inserting an invoice whose number or tenant the table
      refuses, throws: the lease is logged as an Error and counted as skipped. */
  function Bill(s: Schedule, rows: Rows, runId: Id, today: Day, b: Batch, id: Id): (r: Batch)
    requires id in rows.leases
    ensures r.created + r.skipped == b.created + b.skipped + 1
    ensures |r.logs| == |b.logs| + 1
  {
    var l := rows.leases[id];
    var skip := Logged(b, runId, id, Skipped).(skipped := b.skipped + 1);
    var fail := Logged(b, runId, id, Error).(skipped := b.skipped + 1);
    if HasBilledRent(b.invoices, id, MonthOf(today)) || l.monthlyRent <= 0 then skip
    else if l.tenantId !in rows.users then fail
    else match BillTo(s, rows.users[l.tenantId], l.tenantId)
      case None => skip
      case Some(payer) =>
        var invoiceNo := Text.Serial(Prefix(s), |b.invoices|);
        if l.unitId !in rows.units || payer !in rows.users || NumberTaken(b.invoices, invoiceNo) then fail
        else
          var k := FreshKey(b.invoices.Keys);
          Logged(b, runId, id, Success).(
            invoices := b.invoices[k := AutoInvoice(s, rows, id, payer, invoiceNo, today)],
            created := b.created + 1, total := b.total + l.monthlyRent, made := b.made + [k])
  }

  /** The loop over the selected leases, in the order the query returned them. */
  function Run(s: Schedule, rows: Rows, runId: Id, today: Day, b: Batch, order: seq<Id>): (r: Batch)
    requires forall i :: 0 <= i < |order| ==> order[i] in rows.leases
    ensures r.created + r.skipped == b.created + b.skipped + |order|
    ensures |r.logs| == |b.logs| + |order|
    decreases |order|
  {
    if order == [] then b
    else Run(s, rows, runId, today, Bill(s, rows, runId, today, b, order[0]), order[1..])
  }

  /** The tables one run writes. */
  datatype RunTables = RunTables(invoices: map<Id, Invoice>, logs: seq<RunLog>, runs: map<Id, RentRun>)

  /** A whole run. The RentRun row is opened Pending; when the selection query throws
      (`selection` is None) the row is set Failed and nothing else is written, otherwise
      every selected lease is billed and the row is set Completed with the counters. */
  function MonthlyRun(s: Schedule, d: Db, today: Day, selection: Option<seq<Id>>): (t: RunTables)
    requires selection.Some? ==> Enumerates(selection.value, Candidates(s, d, today))
    ensures var runId := FreshKey(d.rentRuns.Keys);
      t.runs.Keys == d.rentRuns.Keys + {runId}
      && (forall k :: k in d.rentRuns ==> t.runs[k] == d.rentRuns[k])
      && t.runs[runId].month == MonthOf(today)
      && (t.runs[runId].status == Failed <==> selection.None?)
      && (t.runs[runId].status == Completed <==> selection.Some?)
  {
    var runId := FreshKey(d.rentRuns.Keys);
    match selection
    case None => RunTables(d.invoices, d.runLogs, d.rentRuns[runId := RentRun(MonthOf(today), Failed, 0, 0, 0)])
    case Some(order) =>
      var b := Run(s, RowsOf(d), runId, today, Start(d), order);
      RunTables(b.invoices, b.logs, d.rentRuns[runId := RentRun(MonthOf(today), Completed, b.created, b.skipped, b.total)])
  }

  method GenerateRentInvoices(db: Database, s: Schedule, today: Day, selection: Option<seq<Id>>) returns (runId: Id)
    requires selection.Some? ==> Enumerates(selection.value, Candidates(s, db.State(), today))
    modifies db`invoices, db`runLogs, db`rentRuns
    ensures runId == FreshKey(old(db.rentRuns).Keys)
    ensures RunTables(db.invoices, db.runLogs, db.rentRuns) == MonthlyRun(s, old(db.State()), today, selection)
  {
    runId := FreshKey(db.rentRuns.Keys);
    var month := MonthOf(today);
    db.rentRuns := db.rentRuns[runId := RentRun(month, Pending, 0, 0, 0)];
    if selection.None? {
      db.rentRuns := db.rentRuns[runId := RentRun(month, Failed, 0, 0, 0)];
      return;
    }
    var created, skipped, total := BillAll(db, s, Rows(db.leases, db.units, db.users), runId, today, selection.value);
    db.rentRuns := db.rentRuns[runId := RentRun(month, Completed, created, skipped, total)];
  }

  /** The loop: every lease of `order` in turn, with the three accumulators. */
  method BillAll(db: Database, s: Schedule, rows: Rows, runId: Id, today: Day, order: seq<Id>)
    returns (created: nat, skipped: nat, total: int)
    requires forall i :: 0 <= i < |order| ==> order[i] in rows.leases
    modifies db`invoices, db`runLogs
    ensures var r := Run(s, rows, runId, today, Batch(old(db.invoices), old(db.runLogs), 0, 0, 0, []), order);
      db.invoices == r.invoices && db.runLogs == r.logs
      && created == r.created && skipped == r.skipped && total == r.total
  {
    created, skipped, total := 0, 0, 0;
    ghost var made: seq<Id> := [];
    ghost var start := Batch(db.invoices, db.runLogs, 0, 0, 0, []);
    for i := 0 to |order|
      invariant Run(s, rows, runId, today, Batch(db.invoices, db.runLogs, created, skipped, total, made), order[i..])
        == Run(s, rows, runId, today, start, order)
    {
      created, skipped, total, made := BillLease(db, s, rows, runId, today, order[i], created, skipped, total, made);
      assert order[i..][1..] == order[i + 1..];
    }
  }

  method BillLease(db: Database, s: Schedule, rows: Rows, runId: Id, today: Day, id: Id,
                   createdCount: nat, skippedCount: nat, totalAmount: int, ghost madeSoFar: seq<Id>)
    returns (created: nat, skipped: nat, total: int, ghost made: seq<Id>)
    requires id in rows.leases
    modifies db`invoices, db`runLogs
    ensures Batch(db.invoices, db.runLogs, created, skipped, total, made)
      == Bill(s, rows, runId, today, Batch(old(db.invoices), old(db.runLogs), createdCount, skippedCount, totalAmount, madeSoFar), id)
  {
    created, skipped, total, made := createdCount, skippedCount, totalAmount, madeSoFar;
    var l := rows.leases[id];
    if HasBilledRent(db.invoices, id, MonthOf(today)) || l.monthlyRent <= 0 {
      db.runLogs := db.runLogs + [RunLog(runId, id, Skipped)];
      skipped := skipped + 1;
      return;
    }
    if l.tenantId !in rows.users {
      db.runLogs := db.runLogs + [RunLog(runId, id, Error)];
      skipped := skipped + 1;
      return;
    }
    var payer := BillTo(s, rows.users[l.tenantId], l.tenantId);
    if payer.None? {
      db.runLogs := db.runLogs + [RunLog(runId, id, Skipped)];
      skipped := skipped + 1;
      return;
    }
    var invoiceNo := Text.Serial(Prefix(s), |db.invoices|);
    if l.unitId !in rows.units || payer.value !in rows.users || NumberTaken(db.invoices, invoiceNo) {
      db.runLogs := db.runLogs + [RunLog(runId, id, Error)];
      skipped := skipped + 1;
      return;
    }
    var k := FreshKey(db.invoices.Keys);
    db.invoices := db.invoices[k := AutoInvoice(s, rows, id, payer.value, invoiceNo, today)];
    db.runLogs := db.runLogs + [RunLog(runId, id, Success)];
    created, total, made := created + 1, total + l.monthlyRent, made + [k];
  }

  // ---------------------------------------------------------------------------------
  // Properties
  // ---------------------------------------------------------------------------------

  /** The rent of the listed invoices, added up. */
  function RentSum(invoices: map<Id, Invoice>, ids: seq<Id>): int
    decreases |ids|
  {
    if ids == [] then 0
    else
      var last := ids[|ids| - 1];
      RentSum(invoices, ids[..|ids| - 1]) + (if last in invoices then invoices[last].rent else 0)
  }

  lemma {:induction false} RentSumFrame(invoices: map<Id, Invoice>, ids: seq<Id>, k: Id, inv: Invoice)
    requires k !in ids
    ensures RentSum(invoices[k := inv], ids) == RentSum(invoices, ids)
    decreases |ids|
  {
    if ids != [] {
      assert ids[..|ids| - 1] <= ids;
      RentSumFrame(invoices, ids[..|ids| - 1], k, inv);
    }
  }

  /** An invoice as a run creates it: a rent invoice of a selected lease for the current
      month, addressed to whoever the run bills, for the whole positive monthly rent, with
      no fees, nothing paid, status "sent", due on the run's day of the month and numbered
      under the run's prefix. */
  predicate IsAutoInvoice(s: Schedule, rows: Rows, today: Day, inv: Invoice) {
    && inv.leaseId.Some? && inv.leaseId.value in rows.leases
    && var l := rows.leases[inv.leaseId.value];
    && l.tenantId in rows.users && Some(inv.tenantId) == BillTo(s, rows.users[l.tenantId], l.tenantId)
    && inv.unitId == l.unitId
    && l.monthlyRent > 0 && inv.rent == l.monthlyRent && inv.amount == l.monthlyRent
    && inv.balanceDue == l.monthlyRent && inv.serviceFees == 0 && inv.paidAmount == 0
    && inv.status == "sent" && inv.month == Some(MonthOf(today)) && inv.dueDate == DueDate(s, today)
    && Text.StartsWith(inv.invoiceNo, Prefix(s))
  }

  /** The run's bookkeeping: it counted every invoice it made, each is shaped as
      `IsAutoInvoice` says, no two are for the same lease, and the total is their rent. */
  predicate Accounted(s: Schedule, rows: Rows, today: Day, b: Batch) {
    && b.created == |b.made|
    && (forall j :: 0 <= j < |b.made| ==> b.made[j] in b.invoices)
    && (forall j :: 0 <= j < |b.made| && b.made[j] in b.invoices ==> IsAutoInvoice(s, rows, today, b.invoices[b.made[j]]))
    && DistinctLeases(b.invoices, b.made)
    && b.total == RentSum(b.invoices, b.made)
  }

  /** No two of the invoices `made` names are for the same lease. */
  predicate DistinctLeases(invoices: map<Id, Invoice>, made: seq<Id>) {
    forall i, j :: 0 <= i < j < |made| && made[i] in invoices && made[j] in invoices ==>
      invoices[made[i]].leaseId != invoices[made[j]].leaseId
  }

  /** The invoice a run creates for a lease is shaped as `IsAutoInvoice` says. */
  lemma AutoInvoiceShape(s: Schedule, rows: Rows, id: Id, payer: Id, count: nat, today: Day)
    requires id in rows.leases && rows.leases[id].unitId in rows.units && rows.leases[id].monthlyRent > 0
    requires var l := rows.leases[id]; l.tenantId in rows.users && BillTo(s, rows.users[l.tenantId], l.tenantId) == Some(payer)
    ensures IsAutoInvoice(s, rows, today, AutoInvoice(s, rows, id, payer, Text.Serial(Prefix(s), count), today))
  {
    Text.SerialDigits(Prefix(s), count);
  }

  /** Adding one such invoice, for a lease not yet billed this month, under a fresh key,
      keeps the bookkeeping. */
  lemma AddAccounted(s: Schedule, rows: Rows, today: Day, b: Batch, r: Batch, k: Id, inv: Invoice)
    requires Accounted(s, rows, today, b) && IsAutoInvoice(s, rows, today, inv)
    requires k !in b.invoices && !HasBilledRent(b.invoices, inv.leaseId.value, MonthOf(today))
    requires r.invoices == b.invoices[k := inv] && r.made == b.made + [k]
    requires r.created == b.created + 1 && r.total == b.total + inv.rent
    ensures Accounted(s, rows, today, r)
  {
    assert k !in b.made;
    RentSumFrame(b.invoices, b.made, k, inv);
    assert r.made[..|r.made| - 1] == b.made;
    OthersBilledElsewhere(s, rows, today, b, inv.leaseId.value);
    AddShaped(s, rows, today, b, r, k, inv);
    AddDistinct(b.invoices, b.made, k, inv);
  }

  /** The invoices made stay shaped as `IsAutoInvoice` says when one such is added. */
  lemma AddShaped(s: Schedule, rows: Rows, today: Day, b: Batch, r: Batch, k: Id, inv: Invoice)
    requires forall j :: 0 <= j < |b.made| ==> b.made[j] in b.invoices && IsAutoInvoice(s, rows, today, b.invoices[b.made[j]])
    requires IsAutoInvoice(s, rows, today, inv) && k !in b.invoices
    requires r.invoices == b.invoices[k := inv] && r.made == b.made + [k]
    ensures forall j :: 0 <= j < |r.made| ==> r.made[j] in r.invoices && IsAutoInvoice(s, rows, today, r.invoices[r.made[j]])
  {
    forall j | 0 <= j < |r.made|
      ensures r.made[j] in r.invoices && IsAutoInvoice(s, rows, today, r.invoices[r.made[j]])
    {
      if j < |b.made| {
        assert r.made[j] == b.made[j] != k;
      }
    }
  }

  /** Adding, under a fresh key, an invoice for a lease none of the made ones is for keeps
      the leases distinct. */
  lemma AddDistinct(invoices: map<Id, Invoice>, made: seq<Id>, k: Id, inv: Invoice)
    requires forall j :: 0 <= j < |made| ==> made[j] in invoices && invoices[made[j]].leaseId != inv.leaseId
    requires DistinctLeases(invoices, made) && k !in invoices
    ensures DistinctLeases(invoices[k := inv], made + [k])
  {
    var after, made' := invoices[k := inv], made + [k];
    forall i, j | 0 <= i < j < |made'| && made'[i] in after && made'[j] in after
      ensures after[made'[i]].leaseId != after[made'[j]].leaseId
    {
      assert made'[i] == made[i] != k;
      if j < |made| {
        assert made'[j] == made[j] != k;
      } else {
        assert made'[j] == k;
      }
    }
  }

  /** Every invoice the run made so far bills its own lease for the month, so none is for
      a lease that has no rent invoice for the month. */
  lemma OthersBilledElsewhere(s: Schedule, rows: Rows, today: Day, b: Batch, id: Id)
    requires Accounted(s, rows, today, b) && !HasBilledRent(b.invoices, id, MonthOf(today))
    ensures forall j :: 0 <= j < |b.made| ==> b.invoices[b.made[j]].leaseId != Some(id)
  {
    forall j | 0 <= j < |b.made|
      ensures b.invoices[b.made[j]].leaseId != Some(id)
    {
      var m := b.made[j];
      assert IsAutoInvoice(s, rows, today, b.invoices[m]);
      assert !BilledRent(b.invoices[m], id, MonthOf(today));
    }
  }

  lemma BillAccounted(s: Schedule, rows: Rows, runId: Id, today: Day, b: Batch, id: Id)
    requires id in rows.leases && Accounted(s, rows, today, b)
    ensures Accounted(s, rows, today, Bill(s, rows, runId, today, b, id))
  {
    var r := Bill(s, rows, runId, today, b, id);
    if r.created != b.created {
      var l := rows.leases[id];
      var payer := BillTo(s, rows.users[l.tenantId], l.tenantId).value;
      var k := FreshKey(b.invoices.Keys);
      var inv := AutoInvoice(s, rows, id, payer, Text.Serial(Prefix(s), |b.invoices|), today);
      AutoInvoiceShape(s, rows, id, payer, |b.invoices|, today);
      AddAccounted(s, rows, today, b, r, k, inv);
    }
  }

  lemma {:induction false} RunAccounted(s: Schedule, rows: Rows, runId: Id, today: Day, b: Batch, order: seq<Id>)
    requires forall i :: 0 <= i < |order| ==> order[i] in rows.leases
    requires Accounted(s, rows, today, b)
    ensures Accounted(s, rows, today, Run(s, rows, runId, today, b, order))
    decreases |order|
  {
    if order != [] {
      BillAccounted(s, rows, runId, today, b, order[0]);
      RunAccounted(s, rows, runId, today, Bill(s, rows, runId, today, b, order[0]), order[1..]);
    }
  }

  /** What a later state of the run keeps of an earlier one: every invoice, every log
      line and every id of a made invoice; and any invoice it adds, it made. */
  predicate Extends(b: Batch, r: Batch) {
    && (forall k :: k in b.invoices ==> k in r.invoices && r.invoices[k] == b.invoices[k])
    && (forall k :: k in r.invoices && k !in b.invoices ==> k in r.made)
    && b.made <= r.made
    && b.logs <= r.logs
  }

  lemma ExtendsTransitive(a: Batch, b: Batch, c: Batch)
    requires Extends(a, b) && Extends(b, c)
    ensures Extends(a, c)
  {
    forall k | k in c.invoices && k !in a.invoices
      ensures k in c.made
    {
      if k in b.invoices {
        assert k in b.made;
      }
    }
  }

  /** One lease adds exactly one log line, for this run and this lease. */
  lemma BillLogs(s: Schedule, rows: Rows, runId: Id, today: Day, b: Batch, id: Id)
    requires id in rows.leases
    ensures var r := Bill(s, rows, runId, today, b, id);
      Extends(b, r) && |r.logs| == |b.logs| + 1
      && r.logs[|b.logs|].runId == runId && r.logs[|b.logs|].leaseId == id
      && (r.logs[|b.logs|].status == Success <==> r.created == b.created + 1)
  {
  }

  /** The run writes one log line per selected lease, in the query's order, and keeps
      every invoice that was there before it. */
  lemma {:induction false} RunLogs(s: Schedule, rows: Rows, runId: Id, today: Day, b: Batch, order: seq<Id>)
    requires forall i :: 0 <= i < |order| ==> order[i] in rows.leases
    ensures var r := Run(s, rows, runId, today, b, order);
      Extends(b, r) && |r.logs| == |b.logs| + |order|
      && forall j :: |b.logs| <= j < |r.logs| ==>
           r.logs[j].runId == runId && r.logs[j].leaseId == order[j - |b.logs|]
    decreases |order|
  {
    if order != [] {
      var b1 := Bill(s, rows, runId, today, b, order[0]);
      BillLogs(s, rows, runId, today, b, order[0]);
      RunLogs(s, rows, runId, today, b1, order[1..]);
      var r := Run(s, rows, runId, today, b, order);
      assert r == Run(s, rows, runId, today, b1, order[1..]);
      ExtendsTransitive(b, b1, r);
      forall j | |b.logs| <= j < |r.logs|
        ensures r.logs[j].runId == runId && r.logs[j].leaseId == order[j - |b.logs|]
      {
        if j == |b.logs| {
          assert r.logs[j] == b1.logs[j];
        } else {
          assert order[1..][j - |b1.logs|] == order[j - |b.logs|];
        }
      }
    }
  }

  /** A lease the run has nothing left to do for this month: its rent is billed, its rent
      is not positive, or it has no one to bill. */
  predicate Settled(s: Schedule, rows: Rows, invoices: map<Id, Invoice>, today: Day, id: Id)
    requires id in rows.leases
  {
    var l := rows.leases[id];
    || HasBilledRent(invoices, id, MonthOf(today))
    || l.monthlyRent <= 0
    || (l.tenantId in rows.users && BillTo(s, rows.users[l.tenantId], l.tenantId).None?)
  }

  lemma SettledStays(s: Schedule, rows: Rows, today: Day, b: Batch, r: Batch, id: Id)
    requires id in rows.leases && Extends(b, r) && Settled(s, rows, b.invoices, today, id)
    ensures Settled(s, rows, r.invoices, today, id)
  {
    if HasBilledRent(b.invoices, id, MonthOf(today)) {
      var k :| k in b.invoices && BilledRent(b.invoices[k], id, MonthOf(today));
      assert k in r.invoices && BilledRent(r.invoices[k], id, MonthOf(today));
    }
  }

  /** After one lease, it is settled unless its writes threw. */
  lemma BillSettles(s: Schedule, rows: Rows, runId: Id, today: Day, b: Batch, id: Id)
    requires id in rows.leases
    ensures var r := Bill(s, rows, runId, today, b, id);
      Settled(s, rows, r.invoices, today, id) || r.logs[|b.logs|].status == Error
  {
    var r := Bill(s, rows, runId, today, b, id);
    if r.created != b.created {
      var k := FreshKey(b.invoices.Keys);
      assert k in r.invoices && BilledRent(r.invoices[k], id, MonthOf(today));
    }
  }

  /** After the run, every selected lease is settled or logged as an Error. */
  lemma {:induction false} RunSettles(s: Schedule, rows: Rows, runId: Id, today: Day, b: Batch, order: seq<Id>)
    requires forall i :: 0 <= i < |order| ==> order[i] in rows.leases
    ensures var r := Run(s, rows, runId, today, b, order);
      forall i :: 0 <= i < |order| ==>
        Settled(s, rows, r.invoices, today, order[i]) || r.logs[|b.logs| + i].status == Error
    decreases |order|
  {
    if order != [] {
      var b1 := Bill(s, rows, runId, today, b, order[0]);
      var r := Run(s, rows, runId, today, b, order);
      BillSettles(s, rows, runId, today, b, order[0]);
      BillLogs(s, rows, runId, today, b, order[0]);
      RunLogs(s, rows, runId, today, b1, order[1..]);
      RunSettles(s, rows, runId, today, b1, order[1..]);
      if Settled(s, rows, b1.invoices, today, order[0]) {
        SettledStays(s, rows, today, b1, r, order[0]);
      }
      forall i | 1 <= i < |order|
        ensures Settled(s, rows, r.invoices, today, order[i]) || r.logs[|b.logs| + i].status == Error
      {
        assert |b.logs| + i == |b1.logs| + (i - 1) && order[1..][i - 1] == order[i];
      }
    }
  }

  /** A run over leases that are all settled creates nothing: each one is skipped. */
  lemma {:induction false} RunOnSettled(s: Schedule, rows: Rows, runId: Id, today: Day, b: Batch, order: seq<Id>)
    requires forall i :: 0 <= i < |order| ==> order[i] in rows.leases
    requires forall i :: 0 <= i < |order| ==> Settled(s, rows, b.invoices, today, order[i])
    ensures var r := Run(s, rows, runId, today, b, order);
      r.invoices == b.invoices && r.made == b.made && r.created == b.created
      && r.total == b.total && r.skipped == b.skipped + |order|
    decreases |order|
  {
    if order != [] {
      var b1 := Bill(s, rows, runId, today, b, order[0]);
      assert b1.invoices == b.invoices && b1.made == b.made && b1.created == b.created && b1.total == b.total;
      RunOnSettled(s, rows, runId, today, b1, order[1..]);
    }
  }

  /** The counters of a completed run: one per selected lease, the created count is the
      number of invoices the run added, the total is their rent, each of them is shaped as
      `IsAutoInvoice` says and no two are for the same lease; the invoices that were
      there before are kept. */
  lemma RunRecord(s: Schedule, d: Db, today: Day, order: seq<Id>)
    requires Enumerates(order, Candidates(s, d, today))
    ensures var runId := FreshKey(d.rentRuns.Keys);
      var b := Run(s, RowsOf(d), runId, today, Start(d), order);
      var t := MonthlyRun(s, d, today, Some(order));
      var rec := t.runs[runId];
      && rec.createdCount + rec.skippedCount == |Candidates(s, d, today)|
      && rec.createdCount == |b.made| && rec.totalAmount == RentSum(t.invoices, b.made)
      && Accounted(s, RowsOf(d), today, b)
      && (forall k :: k in d.invoices ==> k in t.invoices && t.invoices[k] == d.invoices[k])
      && (forall k :: k in t.invoices && k !in d.invoices ==> k in b.made)
  {
    var runId := FreshKey(d.rentRuns.Keys);
    EnumeratesCount(order, Candidates(s, d, today));
    RunAccounted(s, RowsOf(d), runId, today, Start(d), order);
    RunLogs(s, RowsOf(d), runId, today, Start(d), order);
  }

  /** Once a run logged no Error, a second run over the same leases from where it left
      off creates nothing. */
  lemma {:induction false} CleanRunThenRerun(s: Schedule, rows: Rows, runId: Id, runId2: Id, today: Day, b: Batch, order: seq<Id>)
    requires forall i :: 0 <= i < |order| ==> order[i] in rows.leases
    requires var r := Run(s, rows, runId, today, b, order);
      forall i :: |b.logs| <= i < |r.logs| ==> r.logs[i].status != Error
    ensures var r := Run(s, rows, runId, today, b, order);
      var r2 := Run(s, rows, runId2, today, Batch(r.invoices, r.logs, 0, 0, 0, []), order);
      r2.invoices == r.invoices && r2.created == 0 && r2.total == 0 && r2.skipped == |order|
  {
    var r := Run(s, rows, runId, today, b, order);
    RunSettles(s, rows, runId, today, b, order);
    forall i | 0 <= i < |order|
      ensures Settled(s, rows, r.invoices, today, order[i])
    {
      assert r.logs[|b.logs| + i].status != Error;
    }
    RunOnSettled(s, rows, runId2, today, Batch(r.invoices, r.logs, 0, 0, 0, []), order);
  }

  /** Idempotence: when a completed run logged no Error, running again for the same month
      over the same leases creates no invoice, bills nothing and skips every lease. */
  lemma SecondRunCreatesNothing(s: Schedule, d: Db, today: Day, order: seq<Id>)
    requires Enumerates(order, Candidates(s, d, today))
    requires var t := MonthlyRun(s, d, today, Some(order));
      forall i :: |d.runLogs| <= i < |t.logs| ==> t.logs[i].status != Error
    ensures var t := MonthlyRun(s, d, today, Some(order));
      var d1 := d.(invoices := t.invoices, runLogs := t.logs, rentRuns := t.runs);
      Candidates(s, d1, today) == Candidates(s, d, today)
      && var t2 := MonthlyRun(s, d1, today, Some(order));
      var rec := t2.runs[FreshKey(t.runs.Keys)];
      t2.invoices == t.invoices && rec.createdCount == 0 && rec.totalAmount == 0
      && rec.skippedCount == |order|
  {
    var t := MonthlyRun(s, d, today, Some(order));
    var d1 := d.(invoices := t.invoices, runLogs := t.logs, rentRuns := t.runs);
    assert RowsOf(d1) == RowsOf(d);
    CleanRunThenRerun(s, RowsOf(d), FreshKey(d.rentRuns.Keys), FreshKey(t.runs.Keys), today, Start(d), order);
  }
}
