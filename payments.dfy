/** Recording a payment against an invoice: by an admin (`recordPayment`) or by the
    invoice's own tenant (`processPayment`). Both run one transaction that adds the payment,
    moves the invoice to partial or paid, makes sure a "Rent Income" account exists, and
    appends an Income row to the ledger continuing its running balance. */
module Payments {
  import opened Wrappers
  import opened Calendar
  import opened Keys
  import opened Store
  import opened Money
  import Text

  datatype PaymentError =
    | InvalidRequest          // no invoice id, or an amount that is not a positive number
    | InvoiceNotFound         // thrown inside the transaction
    | NotFoundOrUnauthorized  // the tenant's lookup found no invoice of theirs

  function HttpStatus(e: PaymentError): (code: int)
    ensures code == 400 <==> e == InvalidRequest
    ensures code == 500 <==> e != InvalidRequest
  {
    if e == InvalidRequest then 400 else 500
  }

  /** The handlers' answer on success. */
  datatype Receipt = Receipt(paymentId: Id, invoiceId: Id, status: string, balanceDue: int)

  /** The tables a payment writes. */
  datatype Books = Books(invoices: map<Id, Invoice>, payments: map<Id, Payment>, accounts: map<Id, Account>, ledger: seq<LedgerEntry>)

  function BooksOf(db: Database): Books
    reads db
  {
    Books(db.invoices, db.payments, db.accounts, db.ledger)
  }

  datatype Outcome = Outcome(r: Result<Receipt, PaymentError>, books: Books)

  /** The invoice after `pay` cents are paid on it: the paid amount grows by `pay`; the
      invoice is "paid" once nothing remains (stamped with today) and "partial" otherwise;
      the balance due never goes below zero. */
  function Applied(inv: Invoice, pay: int, via: Option<string>, today: Day): Invoice {
    var newPaid := inv.paidAmount + pay;
    var remaining := inv.amount - newPaid;
    inv.(paidAmount := newPaid,
         balanceDue := if remaining < 0 then 0 else remaining,
         status := if remaining <= 0 then "paid" else "partial",
         paidAt := if remaining <= 0 then Some(today) else inv.paidAt,
         paymentMethod := if Filled(via) then via else inv.paymentMethod)
  }

  function RentAccounts(accounts: map<Id, Account>): set<Id> {
    set k | k in accounts && accounts[k].name == "Rent Income"
  }

  /** The "Rent Income" account the ledger row is booked to (the first one, when there are
      several), created as an Income account opening at 0 when there is none. */
  function RentIncomeAccount(accounts: map<Id, Account>): (r: (Id, map<Id, Account>))
    ensures r.0 in r.1 && r.1[r.0].name == "Rent Income"
    ensures RentAccounts(accounts) != {} ==> r.1 == accounts && r.0 in accounts
    ensures RentAccounts(accounts) == {} ==>
      r.0 !in accounts && r.1 == accounts[r.0 := Account("Rent Income", "Income", 0)]
  {
    var found := RentAccounts(accounts);
    if found != {} then (MinKey(found), accounts)
    else
      var k := FreshKey(accounts.Keys);
      (k, accounts[k := Account("Rent Income", "Income", 0)])
  }

  const MonthNames: seq<string> := ["January", "February", "March", "April", "May", "June", "July",
    "August", "September", "October", "November", "December"]

  /** An invoice's month as it is stored ("March 2026"); a missing month prints as "null". */
  function MonthLabel(m: Option<YearMonth>): string {
    match m
    case None => "null"
    case Some(ym) => (if 1 <= ym.month <= 12 then MonthNames[ym.month - 1] else "") + " " + Text.IntText(ym.year)
  }

  /** The Income row of a payment: the amount paid, and the previous row's balance plus it. */
  function PaymentEntry(ledger: seq<LedgerEntry>, prefix: string, inv: Invoice, id: Id, pay: int, paymentId: Id, accountId: Id, today: Day): LedgerEntry {
    LedgerEntry(today, prefix + " - " + MonthLabel(inv.month) + " (Inv: " + inv.invoiceNo + ")", "Income", pay,
                AddToBalance(PreviousBalance(ledger), pay), "Completed", Some(id), Some(paymentId), Some(accountId))
  }

  /** The transaction both handlers run once the invoice is found. */
  function Settle(b: Books, id: Id, pay: int, via: Option<string>, today: Day, defaultMethod: string, prefix: string): Outcome
    requires id in b.invoices
  {
    var inv := b.invoices[id];
    var pid := FreshKey(b.payments.Keys);
    var paid := Applied(inv, pay, via, today);
    var (acc, accounts) := RentIncomeAccount(b.accounts);
    Outcome(Ok(Receipt(pid, id, paid.status, paid.balanceDue)),
            Books(b.invoices[id := paid], b.payments[pid := Payment(id, pay, TextOr(via, defaultMethod), today)],
                  accounts, b.ledger + [PaymentEntry(b.ledger, prefix, inv, id, pay, pid, acc, today)]))
  }

  predicate ValidPayment(invoiceId: Option<Id>, amount: Parsed) {
    Given(invoiceId) && amount.Num? && amount.cents > 0
  }

  /** POST /api/admin/payments: any existing invoice; the method defaults to "Cash". */
  function RecordPaymentSpec(b: Books, invoiceId: Option<Id>, amount: Parsed, via: Option<string>, today: Day): Outcome {
    if !ValidPayment(invoiceId, amount) then Outcome(Err(InvalidRequest), b)
    else if invoiceId.value !in b.invoices then Outcome(Err(InvoiceNotFound), b)
    else Settle(b, invoiceId.value, amount.cents, via, today, "Cash", "Payment")
  }

  /** POST /api/tenant/pay: only an invoice addressed to the requesting user; the method
      defaults to "Online". */
  function ProcessPaymentSpec(b: Books, userId: Id, invoiceId: Option<Id>, amount: Parsed, via: Option<string>, today: Day): Outcome {
    if !ValidPayment(invoiceId, amount) then Outcome(Err(InvalidRequest), b)
    else if invoiceId.value !in b.invoices || b.invoices[invoiceId.value].tenantId != userId then
      Outcome(Err(NotFoundOrUnauthorized), b)
    else Settle(b, invoiceId.value, amount.cents, via, today, "Online", "Rent Payment")
  }

  method RecordPayment(db: Database, invoiceId: Option<Id>, amount: Parsed, via: Option<string>, today: Day)
    returns (r: Result<Receipt, PaymentError>)
    modifies db`invoices, db`payments, db`accounts, db`ledger
    ensures Outcome(r, BooksOf(db)) == RecordPaymentSpec(old(BooksOf(db)), invoiceId, amount, via, today)
  {
    if !ValidPayment(invoiceId, amount) {
      return Err(InvalidRequest);
    }
    if invoiceId.value !in db.invoices {
      return Err(InvoiceNotFound);
    }
    r := SettleInvoice(db, invoiceId.value, amount.cents, via, today, "Cash", "Payment");
  }

  method ProcessPayment(db: Database, userId: Id, invoiceId: Option<Id>, amount: Parsed, via: Option<string>, today: Day)
    returns (r: Result<Receipt, PaymentError>)
    modifies db`invoices, db`payments, db`accounts, db`ledger
    ensures Outcome(r, BooksOf(db)) == ProcessPaymentSpec(old(BooksOf(db)), userId, invoiceId, amount, via, today)
  {
    if !ValidPayment(invoiceId, amount) {
      return Err(InvalidRequest);
    }
    if invoiceId.value !in db.invoices || db.invoices[invoiceId.value].tenantId != userId {
      return Err(NotFoundOrUnauthorized);
    }
    r := SettleInvoice(db, invoiceId.value, amount.cents, via, today, "Online", "Rent Payment");
  }

  method SettleInvoice(db: Database, id: Id, pay: int, via: Option<string>, today: Day, defaultMethod: string, prefix: string)
    returns (r: Result<Receipt, PaymentError>)
    requires id in db.invoices
    modifies db`invoices, db`payments, db`accounts, db`ledger
    ensures Outcome(r, BooksOf(db)) == Settle(old(BooksOf(db)), id, pay, via, today, defaultMethod, prefix)
  {
    var inv := db.invoices[id];
    var paymentId := FreshKey(db.payments.Keys);
    db.payments := db.payments[paymentId := Payment(id, pay, TextOr(via, defaultMethod), today)];
    var newPaid := inv.paidAmount + pay;
    var remaining := inv.amount - newPaid;
    var status := "partial";
    if remaining <= 0 {
      status := "paid";
    }
    var updated := inv.(paidAmount := newPaid, balanceDue := if remaining < 0 then 0 else remaining, status := status,
                        paidAt := if remaining <= 0 then Some(today) else inv.paidAt,
                        paymentMethod := if Filled(via) then via else inv.paymentMethod);
    assert updated == Applied(inv, pay, via, today);
    db.invoices := db.invoices[id := updated];
    var accountId := EnsureRentAccount(db);
    var entry := PaymentEntry(db.ledger, prefix, inv, id, pay, paymentId, accountId, today);
    db.ledger := db.ledger + [entry];
    r := Ok(Receipt(paymentId, id, updated.status, updated.balanceDue));
  }

  method EnsureRentAccount(db: Database) returns (accountId: Id)
    modifies db`accounts
    ensures (accountId, db.accounts) == RentIncomeAccount(old(db.accounts))
  {
    var found := RentAccounts(db.accounts);
    if found != {} {
      return MinKey(found);
    }
    accountId := FreshKey(db.accounts.Keys);
    db.accounts := db.accounts[accountId := Account("Rent Income", "Income", 0)];
  }

  // ---------------------------------------------------------------------------------
  // Properties
  // ---------------------------------------------------------------------------------

  /** A payment adds `pay` to what was paid; the invoice is "paid" exactly when nothing is
      left due, and then the balance is 0 and paidAt is today; otherwise it is "partial",
      the balance is the amount less what was paid, and paidAt is kept. */
  lemma AppliedArithmetic(inv: Invoice, pay: int, via: Option<string>, today: Day)
    ensures var p := Applied(inv, pay, via, today);
      && p.paidAmount == inv.paidAmount + pay
      && (p.status == "paid" <==> inv.amount - p.paidAmount <= 0)
      && (p.status == "paid" <==> p.balanceDue == 0)
      && (p.status == "paid" ==> p.paidAt == Some(today))
      && (p.status != "paid" ==> p.status == "partial" && p.balanceDue == inv.amount - p.paidAmount > 0 && p.paidAt == inv.paidAt)
      && p.amount == inv.amount && p.invoiceNo == inv.invoiceNo && p.tenantId == inv.tenantId
  {
  }

  /** Paying `a` and then `b` leaves the invoice as paying `a + b` at once would. */
  lemma PaymentsCompose(inv: Invoice, a: int, b: int, via: Option<string>, today: Day)
    requires a > 0 && b > 0
    ensures Applied(Applied(inv, a, via, today), b, via, today) == Applied(inv, a + b, via, today)
  {
  }

  /** A refused request writes nothing; the tenant's handler refuses any invoice not
      addressed to the requesting user, even one that exists. */
  lemma RefusalsWriteNothing(b: Books, userId: Id, invoiceId: Option<Id>, amount: Parsed, via: Option<string>, today: Day)
    ensures var o := RecordPaymentSpec(b, invoiceId, amount, via, today);
      o.r.Err? <==> !ValidPayment(invoiceId, amount) || invoiceId.value !in b.invoices
    ensures var o := RecordPaymentSpec(b, invoiceId, amount, via, today);
      o.r.Err? ==> o.books == b
    ensures var o := ProcessPaymentSpec(b, userId, invoiceId, amount, via, today);
      o.r.Err? <==> !ValidPayment(invoiceId, amount) || invoiceId.value !in b.invoices || b.invoices[invoiceId.value].tenantId != userId
    ensures var o := ProcessPaymentSpec(b, userId, invoiceId, amount, via, today);
      o.r.Err? ==> o.books == b
  {
  }

  /** On the tenant's own invoice both handlers write the same invoice and the same
      account; the payment rows differ only in the default method, the ledger rows only
      in their description. */
  lemma SameArithmetic(b: Books, userId: Id, invoiceId: Option<Id>, amount: Parsed, via: Option<string>, today: Day)
    requires ValidPayment(invoiceId, amount) && invoiceId.value in b.invoices && b.invoices[invoiceId.value].tenantId == userId
    ensures var admin, tenant := RecordPaymentSpec(b, invoiceId, amount, via, today), ProcessPaymentSpec(b, userId, invoiceId, amount, via, today);
      && admin.r == tenant.r && admin.books.invoices == tenant.books.invoices && admin.books.accounts == tenant.books.accounts
      && admin.books.payments.Keys == tenant.books.payments.Keys
      && |admin.books.ledger| == |tenant.books.ledger| == |b.ledger| + 1
      && admin.books.ledger[|b.ledger|].(description := "") == tenant.books.ledger[|b.ledger|].(description := "")
      && (Filled(via) ==> admin.books.payments == tenant.books.payments)
  {
  }

  /** A recorded payment: exactly one new payment row, for the invoice and the amount; the
      invoice is `Applied`; one Income row is appended to the ledger whose balance is the
      previous row's plus the amount, booked to a "Rent Income" account; no other invoice
      changes. */
  lemma RecordedPayment(b: Books, invoiceId: Option<Id>, amount: Parsed, via: Option<string>, today: Day)
    requires RecordPaymentSpec(b, invoiceId, amount, via, today).r.Ok?
    ensures var o := RecordPaymentSpec(b, invoiceId, amount, via, today);
      var id, pid := invoiceId.value, o.r.value.paymentId;
      && id in b.invoices && amount.Num?
      && pid !in b.payments && o.books.payments == b.payments[pid := o.books.payments[pid]]
      && o.books.payments[pid].invoiceId == id && o.books.payments[pid].amount == amount.cents > 0
      && o.books.invoices == b.invoices[id := Applied(b.invoices[id], amount.cents, via, today)]
      && o.r.value.status == o.books.invoices[id].status && o.r.value.balanceDue == o.books.invoices[id].balanceDue
      && |o.books.ledger| == |b.ledger| + 1 && o.books.ledger[..|b.ledger|] == b.ledger
      && var e := o.books.ledger[|b.ledger|];
         e.kind == "Income" && e.amount == amount.cents && e.balance == AddToBalance(PreviousBalance(b.ledger), amount.cents)
         && e.invoiceId == Some(id) && e.paymentId == Some(pid) && e.accountId.Some?
         && e.accountId.value in o.books.accounts && o.books.accounts[e.accountId.value].name == "Rent Income"
  {
  }

  /** Two payments in a row continue the running balance by their sum, and a second
      payment never creates a second "Rent Income" account. */
  lemma PaymentsAccumulate(b: Books, id: Id, x: Parsed, y: Parsed, via: Option<string>, today: Day)
    requires PreviousBalance(b.ledger).Some?
    requires RecordPaymentSpec(b, Some(id), x, via, today).r.Ok?
    ensures var b1 := RecordPaymentSpec(b, Some(id), x, via, today).books;
      var o := RecordPaymentSpec(b1, Some(id), y, via, today);
      o.r.Ok? <==> y.Num? && y.cents > 0
    ensures var b1 := RecordPaymentSpec(b, Some(id), x, via, today).books;
      var o := RecordPaymentSpec(b1, Some(id), y, via, today);
      o.r.Ok? ==>
        && PreviousBalance(o.books.ledger) == Some(PreviousBalance(b.ledger).value + x.cents + y.cents)
        && o.books.accounts == b1.accounts && RentAccounts(b1.accounts) != {}
        && o.books.invoices[id] == Applied(b.invoices[id], x.cents + y.cents, via, today)
  {
    assert ValidPayment(Some(id), x) && id in b.invoices;
    var b1 := Settle(b, id, x.cents, via, today, "Cash", "Payment").books;
    SettleBooks(b, id, x.cents, via, today, "Cash", "Payment");
    var acc := RentIncomeAccount(b.accounts).0;
    assert acc in RentAccounts(b1.accounts);
    if y.Num? && y.cents > 0 {
      SettleBooks(b1, id, y.cents, via, today, "Cash", "Payment");
      PaymentsCompose(b.invoices[id], x.cents, y.cents, via, today);
    }
  }

  /** What the transaction writes, as far as the running balance, the invoice and the
      accounts go. */
  lemma SettleBooks(b: Books, id: Id, pay: int, via: Option<string>, today: Day, defaultMethod: string, prefix: string)
    requires id in b.invoices
    ensures var o := Settle(b, id, pay, via, today, defaultMethod, prefix);
      && o.r.Ok? && id in o.books.invoices
      && o.books.invoices == b.invoices[id := Applied(b.invoices[id], pay, via, today)]
      && o.books.accounts == RentIncomeAccount(b.accounts).1
      && PreviousBalance(o.books.ledger) == AddToBalance(PreviousBalance(b.ledger), pay)
  {
  }
}
